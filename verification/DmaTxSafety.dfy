/** What every step of the DMA transmit path keeps. */
module DmaTxSafety {
  import opened Registers
  import opened Words
  import opened DeviceSpec
  import opened WaitQueue
  import opened Writes
  import opened DmaTxSystem

  /** The device is consistent, and the lock held once. */
  predicate DeviceOk(s: State) {
    DevInv(s.dev) && s.dev.variant.Dma? && (s.receiving ==> s.writer.None?)
  }

  /** A transfer is under way: the engine moves, or its completion has not lowered `queued` yet. */
  predicate InFlight(s: State) {
    s.engine.Moving? || s.callback.Unmapping? || s.callback.Lowering?
  }

  predicate Loading(st: Stage) {
    !st.Top? && !st.Waiting?
  }

  function StageOf(s: State): Stage {
    if s.writer.Some? then s.writer.value.stage else Top
  }

  /** `queued` is up while a transfer is under way or about to be issued, and the buffer is left alone then. */
  predicate ControlOk(s: State) {
    && (s.queued <==> InFlight(s) || StageOf(s).Lighting? || StageOf(s).Issuing?)
    && (InFlight(s) ==> s.writer.Some? && !Loading(StageOf(s)))
    && (s.engine.Moving? ==> !s.callback.Unmapping? && !s.callback.Lowering?)
    && (StageOf(s).Waiting? ==> !StageOf(s).wait.Passed?)
  }

  /** Mapped from the map call to the unmap call, once. */
  predicate MappingOk(s: State) {
    var st := StageOf(s);
    s.maps == if s.engine.Moving? || s.callback.Unmapping? || st.Preparing? || st.Marking?
                 || st.Lighting? || st.Issuing?
              then 1 else 0
  }

  predicate Holds(s: State, n: nat, payload: seq<byte>, from: nat) {
    n <= |s.buf| && from + n <= |payload| && s.length == n && s.buf[..n] == payload[from..from + n]
  }

  function Loaded(st: Stage): nat {
    if st.Mapping? || st.Preparing? || st.Marking? || st.Lighting? || st.Issuing? then st.n else 0
  }

  /** The buffer holds the chunk being loaded, then the chunk being moved. */
  predicate BufferOk(s: State) {
    && |s.buf| == DMA_BUFFER_SIZE
    && (s.writer.Some? ==>
          var w := s.writer.value;
          && w.written <= |w.payload|
          && (Loading(w.stage) && !w.stage.Copying? ==> Holds(s, w.stage.n, w.payload, w.written))
          && (s.engine.Moving? ==> s.engine.moved <= s.length <= w.written
                                   && Holds(s, s.length, w.payload, w.written - s.length)))
  }

  /** No lost wake-up. */
  predicate WakeOk(s: State) {
    StageOf(s).Waiting? && Committed(StageOf(s).wait) && !s.queued ==>
      s.callback.Darkening? || s.callback.Waking?
  }

  /** The part of the mapped buffer the engine still has to move. */
  function Unsent(s: State): seq<byte> {
    if s.engine.Moving? && s.engine.moved <= s.length <= |s.buf| then s.buf[s.engine.moved..s.length] else []
  }

  function Submitted(w: Option<Writer>): seq<byte> {
    if w.Some? && w.value.written <= |w.value.payload| then w.value.payload[..w.value.written] else []
  }

  predicate StreamOk(s: State) {
    && s.drained + s.dev.tx + Unsent(s) == Stream(s.finished) + Submitted(s.writer)
    && |s.drained| <= CAPACITY * s.gets
  }

  /** A write without failures submits everything before its last wait, and copies only what is left. */
  predicate CountOk(s: State) {
    (s.writer.Some? ==> WriterCounts(s.writer.value)) && CleanIsComplete(s.finished)
  }

  predicate WriterCounts(w: Writer) {
    && (w.stage.Copying? || (w.stage.Waiting? && !w.stage.last) ==> 0 < Left(w))
    && (w.stage.Waiting? && w.stage.last && !w.failed ==> Left(w) <= 0)
    && (w.failed ==> w.stage.Waiting? && w.stage.last)
  }

  predicate CleanIsComplete(finished: seq<Done>) {
    forall i :: 0 <= i < |finished| && finished[i].clean ==> finished[i].count == |finished[i].payload|
  }

  function Current(w: Option<Writer>): multiset<seq<byte>> {
    if w.Some? then multiset{w.value.payload} else multiset{}
  }

  /** No write is lost or invented. */
  predicate ArrivedOk(s: State) {
    s.arrived == multiset(s.waiting) + Current(s.writer) + multiset(Payloads(s.finished))
  }

  predicate Inv(s: State) {
    && DeviceOk(s)
    && ControlOk(s)
    && MappingOk(s)
    && BufferOk(s)
    && WakeOk(s)
    && StreamOk(s)
    && CountOk(s)
    && ArrivedOk(s)
  }

  lemma StartOk(buf: seq<byte>)
    requires |buf| == DMA_BUFFER_SIZE
    ensures Inv(Start(buf))
  {
    WriteRegisterKeepsInv(Init(Dma), Ints(true, true, true, 0));
  }

  lemma CallbackKeepsDevice(s: State)
    requires Enabled(s, CallbackSteps)
    ensures CallbackStep(s).dev == s.dev && CallbackStep(s).receiving == s.receiving
    ensures s.writer.None? ==> CallbackStep(s).writer.None?
  {
  }

  lemma WaitKeepsDevice(s: State)
    requires Enabled(s, Waits)
    ensures WaitStep(s).dev == s.dev && WaitStep(s).receiving == s.receiving
  {
  }

  lemma KeepsDevice(s: State, a: Action)
    requires DeviceOk(s) && Enabled(s, a)
    ensures DeviceOk(Step(s, a))
  {
    hide DevInv, CallbackStep, WaitStep, Meet, Toggle, Fitting;
    match a
    case HostGets => GetDataKeepsInv(s.dev);
    case HostSets(bytes) => SetDataKeepsInv(s.dev, bytes);
    case ReadsData => ReadDrKeepsInv(s.dev);
    case ClearsInterrupts(bits) => WriteRegisterKeepsInv(s.dev, bits);
    case Moves => MovesKeepsDevice(s);
    case Waits => WaitKeepsDevice(s);
    case CallbackSteps => CallbackKeepsDevice(s);
    case _ =>
  }

  lemma MovesKeepsDevice(s: State)
    requires DeviceOk(s) && Enabled(s, Moves)
    ensures DeviceOk(Step(s, Moves))
  {
    hide DevInv;
    WriteDrKeepsInv(s.dev, s.buf[s.engine.moved]);
  }

  lemma CallbackKeepsControl(s: State)
    requires ControlOk(s) && Enabled(s, CallbackSteps)
    ensures ControlOk(CallbackStep(s))
  {
    hide GetData, SetData, ReadDr, WriteDr, WriteIcr;
  }

  /** The wait passes only when `queued` is down, so the loader finds the engine at rest. */
  lemma WaitKeepsControl(s: State)
    requires ControlOk(s) && Enabled(s, Waits)
    ensures ControlOk(WaitStep(s))
  {
    hide GetData, SetData, ReadDr, WriteDr, WriteIcr;
  }

  lemma OthersKeepControl(s: State, a: Action)
    requires ControlOk(s) && Enabled(s, a) && !a.CallbackSteps? && !a.Waits?
    ensures ControlOk(Step(s, a))
  {
    hide CallbackStep, WaitStep, GetData, SetData, ReadDr, WriteDr, WriteIcr;
  }

  lemma KeepsControl(s: State, a: Action)
    requires ControlOk(s) && Enabled(s, a)
    ensures ControlOk(Step(s, a))
  {
    hide ControlOk, CallbackStep, WaitStep;
    if a.CallbackSteps? {
      CallbackKeepsControl(s);
    } else if a.Waits? {
      WaitKeepsControl(s);
    } else {
      OthersKeepControl(s, a);
    }
  }

  lemma CallbackKeepsMapping(s: State)
    requires ControlOk(s) && MappingOk(s) && Enabled(s, CallbackSteps)
    ensures MappingOk(CallbackStep(s))
  {
  }

  lemma WaitKeepsMapping(s: State)
    requires ControlOk(s) && MappingOk(s) && Enabled(s, Waits)
    ensures MappingOk(WaitStep(s))
  {
  }

  lemma OthersKeepMapping(s: State, a: Action)
    requires ControlOk(s) && MappingOk(s) && Enabled(s, a) && !a.CallbackSteps? && !a.Waits?
    ensures MappingOk(Step(s, a))
  {
    hide CallbackStep, WaitStep, GetData, SetData, ReadDr, WriteDr, WriteIcr;
  }

  lemma KeepsMapping(s: State, a: Action)
    requires ControlOk(s) && MappingOk(s) && Enabled(s, a)
    ensures MappingOk(Step(s, a))
  {
    hide ControlOk, MappingOk, CallbackStep, WaitStep;
    if a.CallbackSteps? {
      CallbackKeepsMapping(s);
    } else if a.Waits? {
      WaitKeepsMapping(s);
    } else {
      OthersKeepMapping(s, a);
    }
  }

  lemma CallbackKeepsWake(s: State)
    requires WakeOk(s) && Enabled(s, CallbackSteps)
    ensures WakeOk(CallbackStep(s))
  {
  }

  lemma WaitKeepsWake(s: State)
    requires WakeOk(s) && Enabled(s, Waits)
    ensures WakeOk(WaitStep(s))
  {
  }

  lemma OthersKeepWake(s: State, a: Action)
    requires ControlOk(s) && WakeOk(s) && Enabled(s, a) && !a.CallbackSteps? && !a.Waits?
    ensures WakeOk(Step(s, a))
  {
    hide CallbackStep, WaitStep, GetData, SetData, ReadDr, WriteDr, WriteIcr;
  }

  lemma KeepsWake(s: State, a: Action)
    requires ControlOk(s) && WakeOk(s) && Enabled(s, a)
    ensures WakeOk(Step(s, a))
  {
    hide ControlOk, WakeOk, CallbackStep, WaitStep;
    if a.CallbackSteps? {
      CallbackKeepsWake(s);
    } else if a.Waits? {
      WaitKeepsWake(s);
    } else {
      OthersKeepWake(s, a);
    }
  }

  // What the actions leave alone. Most of them only steer: they move a process counter, a flag, the
  // mapping or the LED, and neither data nor queues.

  predicate Steers(s: State, a: Action)
    requires Enabled(s, a)
  {
    a.Starts? || a.Maps? || a.Prepares? || a.Marks? || a.Lights? || a.CallbackSteps?
    || (a.Waits? && Step(s, a).writer.Some?)
  }

  predicate IsOutside(a: Action) {
    a.HostSets? || a.ReadsData? || a.ClearsInterrupts? || a.Arrives? || a.ReceiverLocks? || a.ReceiverUnlocks?
  }

  predicate HasChunk(st: Stage) {
    Loading(st) && !st.Copying?
  }

  predicate SameWrite(v: Option<Writer>, w: Option<Writer>) {
    (v.None? && w.None?)
    || (v.Some? && w.Some? && v.value.payload == w.value.payload && v.value.written == w.value.written)
  }

  predicate Steered(s: State, t: State) {
    && t == s.(writer := t.writer, maps := t.maps, queued := t.queued, led0 := t.led0,
               callback := t.callback)
    && SameWrite(s.writer, t.writer)
    && (HasChunk(StageOf(t)) ==> HasChunk(StageOf(s)) && StageOf(t).n == StageOf(s).n)
  }

  lemma CallbackSteers(s: State)
    requires !s.callback.Absent?
    ensures Steered(s, CallbackStep(s))
  {
  }

  lemma WaitSteers(s: State)
    requires Enabled(s, Waits) && WaitStep(s).writer.Some?
    ensures Steered(s, WaitStep(s))
  {
  }

  lemma LoaderSteers(s: State, a: Action)
    requires Enabled(s, a) && (a.Starts? || a.Maps? || a.Prepares? || a.Marks? || a.Lights?)
    ensures Steered(s, Step(s, a))
  {
    hide CallbackStep, WaitStep, GetData, SetData, ReadDr, WriteDr, WriteIcr;
  }

  lemma SteeringFrame(s: State, a: Action)
    requires Enabled(s, a) && Steers(s, a)
    ensures Steered(s, Step(s, a))
  {
    hide Steered, CallbackStep, WaitStep;
    if a.CallbackSteps? {
      CallbackSteers(s);
    } else if a.Waits? {
      WaitSteers(s);
    } else {
      LoaderSteers(s, a);
    }
  }

  lemma OutsideFrame(s: State, a: Action)
    requires Enabled(s, a) && IsOutside(a)
    ensures var t := Step(s, a);
      && t == s.(dev := t.dev, waiting := t.waiting, arrived := t.arrived, receiving := t.receiving)
      && t.dev.tx == s.dev.tx
  {
  }

  /** A copy changes the front of the buffer and leaves its tail. */
  lemma CopyOverwritesFront(s: State, n: nat)
    requires Enabled(s, Copies(n))
    ensures var w := s.writer.value; var t := Step(s, Copies(n));
      && w.written + n <= |w.payload| && |t.buf| == |s.buf| && t.length == n
      && forall k :: 0 <= k < |s.buf| ==> t.buf[k] == if k < n then w.payload[w.written + k] else s.buf[k]
  {
  }

  lemma CopyKeepsBuffer(s: State, n: nat)
    requires ControlOk(s) && BufferOk(s) && Enabled(s, Copies(n))
    ensures BufferOk(Step(s, Copies(n)))
  {
    var w := s.writer.value;
    var t := Step(s, Copies(n));
    assert t.buf[..n] == w.payload[w.written..w.written + n];
  }

  lemma IssueKeepsBuffer(s: State)
    requires ControlOk(s) && BufferOk(s) && Enabled(s, Issues)
    ensures BufferOk(Step(s, Issues))
  {
  }

  lemma MoveKeepsBuffer(s: State)
    requires BufferOk(s) && Enabled(s, Moves)
    ensures BufferOk(Step(s, Moves))
  {
    hide WriteDr;
  }

  lemma SteeringKeepsBuffer(s: State, a: Action)
    requires BufferOk(s) && Enabled(s, a) && Steers(s, a)
    ensures BufferOk(Step(s, a))
  {
    hide Step;
    SteeringFrame(s, a);
  }

  lemma OutsideKeepsBuffer(s: State, a: Action)
    requires BufferOk(s) && Enabled(s, a) && IsOutside(a)
    ensures BufferOk(Step(s, a))
  {
    hide Step;
    OutsideFrame(s, a);
  }

  lemma KeepsBuffer(s: State, a: Action)
    requires ControlOk(s) && BufferOk(s) && Enabled(s, a)
    ensures BufferOk(Step(s, a))
  {
    hide Step;
    if a.Copies? {
      CopyKeepsBuffer(s, a.n);
    } else if a.Issues? {
      IssueKeepsBuffer(s);
    } else if a.Moves? {
      MoveKeepsBuffer(s);
    } else if IsOutside(a) {
      OutsideKeepsBuffer(s, a);
    } else if Steers(s, a) {
      SteeringKeepsBuffer(s, a);
    } else {
      RestKeepsBuffer(s, a);
    }
  }

  lemma RestKeepsBuffer(s: State, a: Action)
    requires ControlOk(s) && BufferOk(s) && Enabled(s, a)
    requires a.HostGets? || a.Acquires? || a.Completes? || (a.Waits? && Step(s, a).writer.None?)
    ensures BufferOk(Step(s, a))
  {
  }

  lemma PassOn(a: seq<byte>, b: seq<byte>, x: byte, c: seq<byte>)
    ensures a + (b + [x]) + c == a + b + ([x] + c)
  {
  }

  lemma MoveEffect(s: State)
    requires DeviceOk(s) && BufferOk(s) && ControlOk(s) && Enabled(s, Moves)
    ensures var t := Step(s, Moves); var x := s.buf[s.engine.moved];
      && Unsent(s) == [x] + Unsent(t)
      && t.dev.tx == s.dev.tx + [x]
      && t == s.(dev := t.dev, engine := t.engine)
  {
  }

  lemma MoveKeepsStream(s: State)
    requires DeviceOk(s) && BufferOk(s) && ControlOk(s) && StreamOk(s) && Enabled(s, Moves)
    ensures StreamOk(Step(s, Moves))
  {
    MoveEffect(s);
    PassOn(s.drained, s.dev.tx, s.buf[s.engine.moved], Unsent(Step(s, Moves)));
  }

  lemma IssueEffect(s: State)
    requires BufferOk(s) && ControlOk(s) && Enabled(s, Issues)
    ensures var t := Step(s, Issues);
      && t == s.(engine := t.engine, writer := t.writer)
      && Unsent(s) == [] && Submitted(t.writer) == Submitted(s.writer) + Unsent(t)
  {
    var w := s.writer.value;
    var n := w.stage.n;
    assert Unsent(Step(s, Issues)) == w.payload[w.written..w.written + n];
  }

  lemma IssueKeepsStream(s: State)
    requires BufferOk(s) && ControlOk(s) && StreamOk(s) && Enabled(s, Issues)
    ensures StreamOk(Step(s, Issues))
  {
    hide Step, Submitted, Unsent;
    IssueEffect(s);
    var more := Unsent(Step(s, Issues));
    assert s.drained + s.dev.tx + [] == s.drained + s.dev.tx;
    assert Stream(s.finished) + Submitted(s.writer) + more == Stream(s.finished) + (Submitted(s.writer) + more);
  }

  lemma ReturnKeepsStream(s: State)
    requires BufferOk(s) && ControlOk(s) && StreamOk(s) && Enabled(s, Waits) && Step(s, Waits).writer.None?
    ensures StreamOk(Step(s, Waits))
  {
    hide DevInv, CountOk, Stream;
    var w := s.writer.value;
    var d := Done(w.payload, w.written, !w.failed);
    StreamAppend(s.finished, d);
    assert Submitted(s.writer) == Sent(d);
    assert Stream(s.finished + [d]) + [] == Stream(s.finished + [d]);
  }

  lemma HostKeepsStream(s: State)
    requires DeviceOk(s) && StreamOk(s)
    ensures StreamOk(Step(s, HostGets))
  {
    assert (s.drained + s.dev.tx) + [] + Unsent(s) == s.drained + s.dev.tx + Unsent(s);
  }

  predicate SameStream(s: State, t: State) {
    && t.dev.tx == s.dev.tx && t.drained == s.drained && t.finished == s.finished && t.gets == s.gets
    && Unsent(t) == Unsent(s) && Submitted(t.writer) == Submitted(s.writer)
  }

  lemma SteeringKeepsStream(s: State, a: Action)
    requires Enabled(s, a) && (IsOutside(a) || Steers(s, a))
    ensures SameStream(s, Step(s, a))
  {
    hide Step;
    if IsOutside(a) {
      OutsideFrame(s, a);
    } else {
      SteeringFrame(s, a);
    }
  }

  lemma RestKeepsStream(s: State, a: Action)
    requires ControlOk(s) && BufferOk(s) && Enabled(s, a)
    requires a.Acquires? || a.Completes? || a.Copies?
    ensures SameStream(s, Step(s, a))
  {
    match a
    case Acquires(k) => assert Submitted(Step(s, a).writer) == [];
    case Completes => assert Unsent(s) == [];
    case Copies(n) => assert Unsent(s) == [];
  }

  lemma KeepsStream(s: State, a: Action)
    requires DeviceOk(s) && ControlOk(s) && BufferOk(s) && StreamOk(s) && Enabled(s, a)
    ensures StreamOk(Step(s, a))
  {
    hide Step;
    if a.HostGets? {
      HostKeepsStream(s);
    } else if a.Moves? {
      MoveKeepsStream(s);
    } else if a.Issues? {
      IssueKeepsStream(s);
    } else if a.Waits? && Step(s, a).writer.None? {
      ReturnKeepsStream(s);
    } else if IsOutside(a) || Steers(s, a) {
      SteeringKeepsStream(s, a);
    } else {
      RestKeepsStream(s, a);
    }
  }

  lemma ReturnKeepsCount(s: State)
    requires BufferOk(s) && CountOk(s) && Enabled(s, Waits)
    ensures CountOk(Step(s, Waits))
  {
  }

  lemma WakeKeepsCount(w: Option<Writer>)
    requires w.Some? && WriterCounts(w.value)
    ensures WakeWriter(w).Some? && WriterCounts(WakeWriter(w).value)
  {
  }

  lemma CallbackKeepsCount(s: State)
    requires CountOk(s) && Enabled(s, CallbackSteps)
    ensures CountOk(Step(s, CallbackSteps))
  {
    hide CleanIsComplete, WriterCounts, WakeWriter;
    if s.writer.Some? {
      WakeKeepsCount(s.writer);
    } else {
      assert WakeWriter(s.writer).None? by { NobodyWakes(); }
    }
  }

  lemma NobodyWakes()
    ensures WakeWriter(None) == None
  {
  }

  predicate Loads(a: Action) {
    a.Starts? || a.Copies? || a.Maps? || a.Prepares? || a.Marks? || a.Lights? || a.Issues?
  }

  lemma LoaderKeepsCount(s: State, a: Action)
    requires CountOk(s) && Enabled(s, a) && Loads(a)
    ensures CountOk(Step(s, a))
  {
    hide CleanIsComplete, CallbackStep, WaitStep, GetData, SetData, ReadDr, WriteDr, WriteIcr;
  }

  lemma OthersKeepCount(s: State, a: Action)
    requires CountOk(s) && Enabled(s, a) && !Loads(a) && !a.Waits? && !a.CallbackSteps?
    ensures CountOk(Step(s, a))
  {
    hide CleanIsComplete, CallbackStep, WaitStep, GetData, SetData, ReadDr, WriteDr, WriteIcr;
  }

  lemma KeepsCount(s: State, a: Action)
    requires BufferOk(s) && CountOk(s) && Enabled(s, a)
    ensures CountOk(Step(s, a))
  {
    hide Step;
    if a.Waits? {
      ReturnKeepsCount(s);
    } else if a.CallbackSteps? {
      CallbackKeepsCount(s);
    } else if Loads(a) {
      LoaderKeepsCount(s, a);
    } else {
      OthersKeepCount(s, a);
    }
  }

  lemma ReturnKeepsArrived(s: State)
    requires ArrivedOk(s) && Enabled(s, Waits) && Step(s, Waits).writer.None?
    ensures ArrivedOk(Step(s, Waits))
  {
    hide Payloads;
    var w := s.writer.value;
    var d := Done(w.payload, w.written, !w.failed);
    PayloadsAppend(s.finished, d);
  }

  predicate SamePayloads(s: State, t: State) {
    && t.arrived == s.arrived && t.waiting == s.waiting && t.finished == s.finished
    && Current(t.writer) == Current(s.writer)
  }

  lemma SteeringKeepsPayloads(s: State, a: Action)
    requires Enabled(s, a) && Steers(s, a)
    ensures SamePayloads(s, Step(s, a))
  {
    hide Step;
    SteeringFrame(s, a);
  }

  lemma RestKeepsPayloads(s: State, a: Action)
    requires Enabled(s, a) && !a.Arrives? && !a.Acquires? && !a.Waits? && !Steers(s, a)
    ensures SamePayloads(s, Step(s, a))
  {
  }

  lemma ArrivalKeepsArrived(s: State, payload: seq<byte>)
    requires ArrivedOk(s)
    ensures ArrivedOk(Step(s, Arrives(payload)))
  {
  }

  lemma AcquireKeepsArrived(s: State, k: nat)
    requires ArrivedOk(s) && Enabled(s, Acquires(k)) && s.writer.None?
    ensures ArrivedOk(Step(s, Acquires(k)))
  {
    TakeOut(s.waiting, k);
  }

  lemma KeepsArrived(s: State, a: Action)
    requires ArrivedOk(s) && Enabled(s, a)
    ensures ArrivedOk(Step(s, a))
  {
    hide Step;
    if a.Acquires? {
      AcquireKeepsArrived(s, a.k);
    } else if a.Arrives? {
      ArrivalKeepsArrived(s, a.payload);
    } else if a.Waits? && Step(s, a).writer.None? {
      ReturnKeepsArrived(s);
    } else if Steers(s, a) {
      SteeringKeepsPayloads(s, a);
    } else {
      RestKeepsPayloads(s, a);
    }
  }

  lemma StepKeepsInv(s: State, a: Action)
    requires Inv(s) && Enabled(s, a)
    ensures Inv(Step(s, a))
  {
    KeepsDevice(s, a);
    KeepsControl(s, a);
    KeepsMapping(s, a);
    KeepsWake(s, a);
    KeepsBuffer(s, a);
    KeepsStream(s, a);
    KeepsCount(s, a);
    KeepsArrived(s, a);
  }
}
