/** What every step of the byte-at-a-time system keeps. */
module PioSafety {
  import opened Registers
  import opened Words
  import opened DeviceSpec
  import opened WaitQueue
  import opened Writes
  import opened PioSystem

  /** The device is consistent and only the driver's two interrupts are in use. */
  predicate DeviceOk(s: State) {
    && DevInv(s.dev)
    && s.dev.variant.Pio?
    && s.dev.imsc == MASK
    && s.dev.ris.rest == 0
    && !s.dev.ris.rxEmpty
  }

  /** One process at a time is in a critical section. */
  predicate LockOk(s: State) {
    && (s.lock.ByWriter? <==> s.writer.Some?)
    && (s.lock.ByWorker? <==> s.worker.Testing? || s.worker.Reading?)
  }

  predicate WriterOk(w: Writer) {
    && w.written + |w.chunk| <= |w.payload|
    && w.chunk == w.payload[w.written..w.written + |w.chunk|]
    && |w.chunk| <= CHUNK
    && (AtTop(w) ==> w.i == 0 && w.wait == Check)
    && (!AtTop(w) ==> w.i < |w.chunk|)
  }

  /** A writer that passed its wait has room, and the bottom half reads only bytes that are there. */
  predicate ProcessesOk(s: State) {
    && (s.writer.Some? ==> WriterOk(s.writer.value))
    && (s.writer.Some? && s.writer.value.wait.Passed? ==> !s.dev.flag.txff)
    && (s.worker.Reading? ==> s.dev.rx != [])
  }

  /** No lost wake-up. */
  predicate WakeOk(s: State) {
    s.writer.Some? && Committed(s.writer.value.wait) && !s.dev.flag.txff ==>
      s.dev.ris.tx || s.handler.WakeTx?
  }

  /** Received bytes are never stranded: an interrupt, a scheduled or a running bottom half will see them. */
  predicate ArrivalSeen(s: State) {
    s.dev.rx != [] ==> s.dev.ris.rx || s.handler.ScheduleRx? || s.workPending || !s.worker.Idle?
  }

  predicate ReceiveOk(s: State) {
    |s.rxBuf| == FIFO_SIZE && ArrivalSeen(s)
  }

  /** What the current writer has put on the wire. */
  function Progress(w: Option<Writer>): seq<byte> {
    if w.Some? && w.value.written + w.value.i <= |w.value.payload|
    then w.value.payload[..w.value.written + w.value.i] else []
  }

  /** Whole payloads in lock order, then a prefix of the current one: never interleaved. */
  predicate StreamOk(s: State) {
    && s.drained + s.dev.tx == Stream(s.finished) + Progress(s.writer)
    && AllComplete(s.finished)
    && |s.drained| <= CAPACITY * s.gets
  }

  /** No write is lost or invented. */
  predicate ArrivedOk(s: State) {
    s.arrived == multiset(s.waiting) + Current(s.writer) + multiset(Payloads(s.finished))
  }

  predicate Inv(s: State) {
    && DeviceOk(s)
    && LockOk(s)
    && ProcessesOk(s)
    && WakeOk(s)
    && ReceiveOk(s)
    && StreamOk(s)
    && ArrivedOk(s)
  }

  lemma StartOk()
    ensures Inv(Start())
  {
    WriteRegisterKeepsInv(Init(Pio), MASK);
  }

  /** Probe unmasks RX and TX. */
  lemma ProbeMask()
    ensures Start().dev.imsc == IntsOf(Low32(3))
  {
    DriverWords();
  }

  lemma AcknowledgeEffect(s: State)
    ensures WriteIcr(s.dev, ONLY_TX).ris == s.dev.ris.(tx := !s.dev.ris.tx)
    ensures WriteIcr(s.dev, ONLY_RX).ris == s.dev.ris.(rx := !s.dev.ris.rx)
  {
    ToggleOne(s.dev.ris, ONLY_TX);
    ToggleOne(s.dev.ris, ONLY_RX);
  }

  lemma HandlerKeepsDevice(s: State)
    requires DeviceOk(s) && Enabled(s, HandlerSteps)
    ensures DeviceOk(HandlerStep(s))
  {
    hide DevInv, Meet, Toggle;
    WriteRegisterKeepsInv(s.dev, ONLY_TX);
    WriteRegisterKeepsInv(s.dev, ONLY_RX);
    AcknowledgeEffect(s);
  }

  lemma WorkerKeepsDevice(s: State)
    requires DeviceOk(s) && Enabled(s, WorkerSteps)
    ensures DeviceOk(WorkerStep(s))
  {
    hide DevInv, Meet;
    ReadDrKeepsInv(s.dev);
  }

  lemma KeepsDevice(s: State, a: Action)
    requires DeviceOk(s) && Enabled(s, a)
    ensures DeviceOk(Step(s, a))
  {
    hide DevInv, Meet, HandlerStep, WorkerStep, Fitting;
    match a
    case HostGets => GetDataKeepsInv(s.dev);
    case HostSets(bytes) => SetDataKeepsInv(s.dev, bytes);
    case Puts => WriteDrKeepsInv(s.dev, s.writer.value.chunk[s.writer.value.i]);
    case HandlerSteps => HandlerKeepsDevice(s);
    case WorkerSteps => WorkerKeepsDevice(s);
    case _ =>
  }

  lemma KeepsLock(s: State, a: Action)
    requires LockOk(s) && Enabled(s, a)
    ensures LockOk(Step(s, a))
  {
  }

  lemma KeepsWriter(s: State, a: Action)
    requires s.writer.Some? ==> WriterOk(s.writer.value)
    requires Enabled(s, a)
    ensures Step(s, a).writer.Some? ==> WriterOk(Step(s, a).writer.value)
  {
    match a
    case Puts => KeepsWriterPut(s.writer.value);
    case _ =>
  }

  lemma KeepsWriterPut(w: Writer)
    requires WriterOk(w) && w.i < |w.chunk|
    ensures WriterOk(Put(w)) && Put(w).written + Put(w).i == w.written + w.i + 1
    ensures Put(w).payload == w.payload && Put(w).wait == Check
  {
  }

  lemma KeepsRoom(s: State, a: Action)
    requires DeviceOk(s) && LockOk(s) && ProcessesOk(s) && Enabled(s, a)
    ensures var t := Step(s, a); t.writer.Some? && t.writer.value.wait.Passed? ==> !t.dev.flag.txff
  {
    match a
    case Puts => KeepsWriterPut(s.writer.value);
    case _ =>
  }

  lemma KeepsReading(s: State, a: Action)
    requires DeviceOk(s) && LockOk(s) && ProcessesOk(s) && Enabled(s, a)
    ensures Step(s, a).worker.Reading? ==> Step(s, a).dev.rx != []
  {
  }

  lemma KeepsProcesses(s: State, a: Action)
    requires DeviceOk(s) && LockOk(s) && ProcessesOk(s) && Enabled(s, a)
    ensures ProcessesOk(Step(s, a))
  {
    KeepsWriter(s, a);
    KeepsRoom(s, a);
    KeepsReading(s, a);
  }

  lemma HandlerKeepsWake(s: State)
    requires WakeOk(s) && Enabled(s, HandlerSteps)
    ensures WakeOk(HandlerStep(s))
  {
    hide Meet, Toggle;
    AcknowledgeEffect(s);
  }

  lemma WorkerKeepsWake(s: State)
    requires WakeOk(s) && Enabled(s, WorkerSteps)
    ensures WakeOk(WorkerStep(s))
  {
    hide Meet;
  }

  /** A byte only ever fills the FIFO; the one who writes it is awake. */
  lemma PutKeepsWake(s: State)
    requires Enabled(s, Puts)
    ensures WakeOk(Step(s, Puts))
  {
    hide WriteDr;
  }

  lemma HostKeepsWake(s: State, a: Action)
    requires WakeOk(s) && Enabled(s, a) && (a.HostGets? || a.HostSets?)
    ensures WakeOk(Step(s, a))
  {
    hide Meet, Fitting;
  }

  lemma KeepsWake(s: State, a: Action)
    requires DeviceOk(s) && LockOk(s) && ProcessesOk(s) && WakeOk(s) && Enabled(s, a)
    ensures WakeOk(Step(s, a))
  {
    hide DeviceOk, HandlerStep, WorkerStep, GetData, SetData, WriteDr;
    match a
    case HandlerSteps => HandlerKeepsWake(s);
    case WorkerSteps => WorkerKeepsWake(s);
    case Puts => PutKeepsWake(s);
    case HostGets => HostKeepsWake(s, a);
    case HostSets(_) => HostKeepsWake(s, a);
    case _ =>
  }

  lemma HandlerKeepsReceive(s: State)
    requires ReceiveOk(s) && Enabled(s, HandlerSteps)
    ensures ReceiveOk(HandlerStep(s))
  {
    hide Meet, Toggle;
    AcknowledgeEffect(s);
  }

  lemma WorkerKeepsReceive(s: State)
    requires DeviceOk(s) && ReceiveOk(s) && Enabled(s, WorkerSteps)
    ensures ReceiveOk(WorkerStep(s))
  {
    hide Meet;
  }

  lemma HostKeepsReceive(s: State, a: Action)
    requires ReceiveOk(s) && Enabled(s, a) && (a.HostGets? || a.HostSets? || a.Puts?)
    ensures ReceiveOk(Step(s, a))
  {
    hide Meet;
  }

  lemma KeepsReceive(s: State, a: Action)
    requires DeviceOk(s) && ReceiveOk(s) && Enabled(s, a)
    ensures ReceiveOk(Step(s, a))
  {
    hide DeviceOk, HandlerStep, WorkerStep, GetData, SetData, WriteDr;
    match a
    case HandlerSteps => HandlerKeepsReceive(s);
    case WorkerSteps => WorkerKeepsReceive(s);
    case Puts => HostKeepsReceive(s, a);
    case HostGets => HostKeepsReceive(s, a);
    case HostSets(_) => HostKeepsReceive(s, a);
    case _ =>
  }

  lemma PutKeepsStream(s: State)
    requires DeviceOk(s) && ProcessesOk(s) && StreamOk(s) && Enabled(s, Puts)
    ensures StreamOk(Step(s, Puts))
  {
    hide Meet, Stream;
    var w := s.writer.value;
    var x := w.chunk[w.i];
    KeepsWriterPut(w);
    assert x == w.payload[w.written + w.i];
    assert Progress(Some(Put(w))) == Progress(Some(w)) + [x];
    assert s.drained + (s.dev.tx + [x]) == (s.drained + s.dev.tx) + [x];
    assert Stream(s.finished) + (Progress(s.writer) + [x]) == (Stream(s.finished) + Progress(s.writer)) + [x];
    assert Step(s, Puts).dev.tx == s.dev.tx + [x];
  }

  lemma CompleteAppend(done: seq<Done>, d: Done)
    requires AllComplete(done) && d.count == |d.payload|
    ensures AllComplete(done + [d])
  {
  }

  lemma FinishKeepsStream(s: State)
    requires ProcessesOk(s) && StreamOk(s) && Enabled(s, Finishes)
    ensures StreamOk(Step(s, Finishes))
  {
    hide Stream, AllComplete;
    var d := Done(s.writer.value.payload, s.writer.value.written, true);
    StreamAppend(s.finished, d);
    CompleteAppend(s.finished, d);
    assert Progress(s.writer) == Sent(d);
    assert Stream(s.finished + [d]) + [] == Stream(s.finished + [d]);
  }

  /** The other actions leave the stream where it is. */
  predicate SameStream(s: State, t: State) {
    && t.dev.tx == s.dev.tx && t.drained == s.drained && t.finished == s.finished && t.gets == s.gets
    && Progress(t.writer) == Progress(s.writer)
  }

  lemma HandlerKeepsStream(s: State)
    requires Enabled(s, HandlerSteps)
    ensures SameStream(s, HandlerStep(s))
  {
    hide Meet, Toggle, And;
  }

  lemma WorkerKeepsStream(s: State)
    requires Enabled(s, WorkerSteps)
    ensures SameStream(s, WorkerStep(s))
  {
    hide Meet;
  }

  lemma OthersKeepStream(s: State, a: Action)
    requires LockOk(s) && Enabled(s, a) && !a.HostGets? && !a.Puts? && !a.Finishes?
    ensures SameStream(s, Step(s, a))
  {
    hide Stream, HandlerStep, WorkerStep, Meet;
    match a
    case Acquires(k) => assert Progress(Step(s, a).writer) == [];
    case Copies(n) => assert Progress(Step(s, a).writer) == Progress(s.writer);
    case Waits => assert Progress(Step(s, a).writer) == Progress(s.writer);
    case HandlerSteps => HandlerKeepsStream(s);
    case WorkerSteps => WorkerKeepsStream(s);
    case _ =>
  }

  lemma KeepsStream(s: State, a: Action)
    requires DeviceOk(s) && LockOk(s) && ProcessesOk(s) && StreamOk(s) && Enabled(s, a)
    ensures StreamOk(Step(s, a))
  {
    if a.HostGets? {
      assert (s.drained + s.dev.tx) + [] == s.drained + s.dev.tx;
    } else if a.Puts? {
      PutKeepsStream(s);
    } else if a.Finishes? {
      FinishKeepsStream(s);
    } else {
      OthersKeepStream(s, a);
    }
  }

  /** The payload in the critical section, as a multiset. */
  function Current(w: Option<Writer>): multiset<seq<byte>> {
    if w.Some? then multiset{w.value.payload} else multiset{}
  }

  lemma FinishKeepsArrived(s: State)
    requires ArrivedOk(s) && Enabled(s, Finishes)
    ensures ArrivedOk(Step(s, Finishes))
  {
    hide Payloads;
    var d := Done(s.writer.value.payload, s.writer.value.written, true);
    PayloadsAppend(s.finished, d);
  }

  predicate SamePayloads(s: State, t: State) {
    && t.arrived == s.arrived && t.waiting == s.waiting && t.finished == s.finished
    && Current(t.writer) == Current(s.writer)
  }

  lemma HandlerKeepsPayloads(s: State)
    requires Enabled(s, HandlerSteps)
    ensures SamePayloads(s, HandlerStep(s))
  {
    hide WriteIcr, And;
  }

  lemma WorkerKeepsPayloads(s: State)
    requires Enabled(s, WorkerSteps)
    ensures SamePayloads(s, WorkerStep(s))
  {
    hide ReadDr;
  }

  lemma OthersKeepArrived(s: State, a: Action)
    requires Enabled(s, a) && !a.Arrives? && !a.Acquires? && !a.Finishes?
    ensures SamePayloads(s, Step(s, a))
  {
    hide HandlerStep, WorkerStep, GetData, SetData, WriteDr;
    match a
    case HandlerSteps => HandlerKeepsPayloads(s);
    case WorkerSteps => WorkerKeepsPayloads(s);
    case _ =>
  }

  lemma ArrivalKeepsArrived(s: State, payload: seq<byte>)
    requires ArrivedOk(s)
    ensures ArrivedOk(Step(s, Arrives(payload)))
  {
  }

  lemma AcquireKeepsArrived(s: State, k: nat)
    requires ArrivedOk(s) && Enabled(s, Acquires(k)) && s.writer.None?
    ensures ArrivedOk(Step(s, Acquires(k)))
  {
    TakeOut(s.waiting, k);
  }

  lemma KeepsArrived(s: State, a: Action)
    requires LockOk(s) && ArrivedOk(s) && Enabled(s, a)
    ensures ArrivedOk(Step(s, a))
  {
    match a
    case Arrives(payload) => ArrivalKeepsArrived(s, payload);
    case Acquires(k) => AcquireKeepsArrived(s, k);
    case Finishes => FinishKeepsArrived(s);
    case _ => OthersKeepArrived(s, a);
  }

  lemma StepKeepsInv(s: State, a: Action)
    requires Inv(s) && Enabled(s, a)
    ensures Inv(Step(s, a))
  {
    KeepsDevice(s, a);
    KeepsLock(s, a);
    KeepsProcesses(s, a);
    KeepsWake(s, a);
    KeepsReceive(s, a);
    KeepsStream(s, a);
    KeepsArrived(s, a);
  }
}
