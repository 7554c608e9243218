/** The DMA transmit path never runs on without the host, and never stops short of a full FIFO. */
module DmaTxProgress {
  import opened Registers
  import opened DeviceSpec
  import opened WaitQueue
  import opened Writes
  import opened DmaTxSystem
  import opened DmaTxSafety

  // ---- A measure every internal step lowers ----------------------------------------------------

  const BYTE := 23
  const WRITE := 21

  function StageWork(st: Stage): nat {
    match st
    case Top => 20
    case Waiting(wait, last) => (if last then 1 else 14) + Rank(wait)
    case Copying => 13
    case Mapping(_) => 12
    case Preparing(_) => 11
    case Marking(_) => 10
    case Lighting(_) => 9
    case Issuing(_) => 8
  }

  function WriterWork(w: Option<Writer>): int {
    if w.None? then 0 else BYTE * Left(w.value) + StageWork(w.value.stage)
  }

  function EngineWork(s: State): int {
    if s.engine.Moving? then 9 + s.length - s.engine.moved else 0
  }

  function CallbackWork(c: Callback): nat {
    match c
    case Absent => 0
    case Waking => 5
    case Darkening => 6
    case Lowering => 7
    case Unmapping => 8
  }

  function Measure(s: State): int {
    Outstanding(s.waiting, BYTE, WRITE) + WriterWork(s.writer) + EngineWork(s) + CallbackWork(s.callback)
    + if s.receiving then 1 else 0
  }

  /** A chunk of no byte makes no progress, and the source retries it for ever. */
  predicate Stalls(a: Action) {
    a == Copies(0)
  }

  /** The chunk being loaded is not empty. */
  predicate Proper(s: State) {
    Loading(StageOf(s)) && !StageOf(s).Copying? ==> Loaded(StageOf(s)) > 0
  }

  lemma MeasureNatural(s: State)
    requires BufferOk(s) && ControlOk(s)
    ensures Measure(s) >= 0
  {
  }

  lemma WaitDescends(s: State)
    requires ControlOk(s) && BufferOk(s) && Enabled(s, Waits)
    ensures Proper(Step(s, Waits)) && Measure(Step(s, Waits)) < Measure(s)
  {
    hide CallbackStep, WakeWriter, GetData, SetData, ReadDr, WriteDr, WriteIcr, Outstanding;
    AdvanceDescends(s.writer.value.stage.wait, !s.queued);
  }

  lemma CallbackDescends(s: State)
    requires Proper(s) && Enabled(s, CallbackSteps)
    ensures Proper(CallbackStep(s)) && Measure(CallbackStep(s)) < Measure(s)
  {
    CallbackSteers(s);
    if s.callback.Waking? {
      WakeAdds(s.writer);
    }
  }

  lemma WakeAdds(w: Option<Writer>)
    ensures WriterWork(WakeWriter(w)) <= WriterWork(w) + 3
  {
    if w.Some? && w.value.stage.Waiting? && Runnable(w.value.stage.wait) {
      AdvanceDescends(w.value.stage.wait, true);
    }
  }

  lemma IssueDescends(s: State)
    requires ControlOk(s) && BufferOk(s) && Proper(s) && Enabled(s, Issues)
    ensures Proper(Step(s, Issues)) && Measure(Step(s, Issues)) < Measure(s)
  {
  }

  lemma EngineDescends(s: State, a: Action)
    requires Proper(s) && Enabled(s, a) && (a.Moves? || a.Completes?)
    requires ControlOk(s) && BufferOk(s)
    ensures Proper(Step(s, a)) && Measure(Step(s, a)) < Measure(s)
  {
  }

  lemma LoaderDescends(s: State, a: Action)
    requires ControlOk(s) && Proper(s) && Enabled(s, a) && !Stalls(a)
    requires a.Starts? || a.Copies? || a.Maps? || a.Prepares? || a.Marks? || a.Lights?
    ensures Proper(Step(s, a)) && Measure(Step(s, a)) < Measure(s)
  {
    hide CallbackStep, WaitStep, GetData, SetData, ReadDr, WriteDr, WriteIcr, Outstanding;
  }

  lemma InternalDescends(s: State, a: Action)
    requires ControlOk(s) && BufferOk(s) && Proper(s) && Enabled(s, a) && Internal(a) && !Stalls(a)
    ensures Proper(Step(s, a)) && Measure(Step(s, a)) < Measure(s)
  {
    match a
    case Acquires(k) => OutstandingRemove(s.waiting, k, BYTE, WRITE);
    case Waits => WaitDescends(s);
    case CallbackSteps => CallbackDescends(s);
    case Issues => IssueDescends(s);
    case ReceiverUnlocks =>
    case Moves => EngineDescends(s, a);
    case Completes => EngineDescends(s, a);
    case _ => LoaderDescends(s, a);
  }

  function Budget(a: Action): nat {
    if a.Arrives? then BYTE * |a.payload| + WRITE else if a.ReceiverLocks? then 1 else 0
  }

  lemma EnvironmentAdds(s: State, a: Action)
    requires Proper(s) && Enabled(s, a) && !Internal(a)
    ensures Proper(Step(s, a)) && Measure(Step(s, a)) == Measure(s) + Budget(a)
  {
    if a.Arrives? {
      OutstandingAppend(s.waiting, a.payload, BYTE, WRITE);
    }
  }

  // ---- Whole runs --------------------------------------------------------------------------------

  predicate Legal(s: State, actions: seq<Action>)
    decreases |actions|
  {
    actions == [] || (Enabled(s, actions[0]) && Legal(Step(s, actions[0]), actions[1..]))
  }

  function Run(s: State, actions: seq<Action>): State
    requires Legal(s, actions)
    decreases |actions|
  {
    if actions == [] then s else Run(Step(s, actions[0]), actions[1..])
  }

  function Internals(actions: seq<Action>): nat {
    if actions == [] then 0 else (if Internal(actions[0]) then 1 else 0) + Internals(actions[1..])
  }

  function Budgets(actions: seq<Action>): nat {
    if actions == [] then 0 else Budget(actions[0]) + Budgets(actions[1..])
  }

  lemma {:induction false} RunKeepsInv(s: State, actions: seq<Action>)
    requires Inv(s) && Legal(s, actions)
    ensures Inv(Run(s, actions))
    decreases |actions|
  {
    if actions != [] {
      StepKeepsInv(s, actions[0]);
      RunKeepsInv(Step(s, actions[0]), actions[1..]);
    }
  }

  lemma {:induction false} InternalsBounded(s: State, actions: seq<Action>)
    requires Inv(s) && Proper(s) && Legal(s, actions)
    requires forall i :: 0 <= i < |actions| ==> !Stalls(actions[i])
    ensures Internals(actions) <= Measure(s) + Budgets(actions)
    decreases |actions|
  {
    MeasureNatural(s);
    if actions != [] {
      var a := actions[0];
      StepKeepsInv(s, a);
      if Internal(a) {
        InternalDescends(s, a);
      } else {
        EnvironmentAdds(s, a);
      }
      InternalsBounded(Step(s, a), actions[1..]);
    }
  }

  /**
   * No livelock: the driver and the engine take at most 23 steps a byte, 21 more a write, and one for
   * each bottom half of receiving.
   */
  lemma NoLivelock(buf: seq<byte>, actions: seq<Action>)
    requires |buf| == DMA_BUFFER_SIZE && Legal(Start(buf), actions)
    requires forall i :: 0 <= i < |actions| ==> !Stalls(actions[i])
    ensures Internals(actions) <= Budgets(actions)
  {
    StartOk(buf);
    InternalsBounded(Start(buf), actions);
  }

  // ---- Where runs stop ---------------------------------------------------------------------------

  /** Only the environment can move, but for copies of nothing. */
  ghost predicate Stuck(s: State) {
    forall a :: Internal(a) && !Stalls(a) ==> !Enabled(s, a)
  }

  /** Nothing is under way and nobody waits, or a full FIFO keeps back the engine's next byte. */
  predicate DoneOrFull(s: State) {
    || (s.writer.None? && !s.receiving && s.waiting == [] && s.maps == 0 && !s.queued)
    || (s.engine.Moving? && s.engine.moved < s.length && |s.dev.tx| == CAPACITY)
  }

  /** With the engine at rest and no callback running, the writer has a step to take. */
  lemma WriterCanMove(s: State)
    requires ControlOk(s) && BufferOk(s) && WakeOk(s) && CountOk(s)
    requires s.writer.Some? && !s.engine.Moving? && s.callback.Absent?
    ensures !Stuck(s)
  {
    match s.writer.value.stage
    case Top => assert Enabled(s, Starts);
    case Waiting(_, _) => assert Enabled(s, Waits);
    case Copying => assert Enabled(s, Copies(1));
    case Mapping(_) => assert Enabled(s, Maps(true));
    case Preparing(_) => assert Enabled(s, Prepares(true));
    case Marking(_) => assert Enabled(s, Marks);
    case Lighting(_) => assert Enabled(s, Lights);
    case Issuing(_) => assert Enabled(s, Issues);
  }

  lemma SomeoneCanMove(s: State)
    requires DeviceOk(s) && ControlOk(s) && MappingOk(s) && BufferOk(s) && WakeOk(s) && CountOk(s)
    requires !DoneOrFull(s)
    ensures !Stuck(s)
  {
    if !s.callback.Absent? {
      assert Enabled(s, CallbackSteps);
    } else if s.engine.Moving? {
      assert Enabled(s, Moves) || Enabled(s, Completes);
    } else if s.writer.Some? {
      WriterCanMove(s);
    } else {
      assert Enabled(s, ReceiverUnlocks) || Enabled(s, Acquires(0));
    }
  }

  /**
   * No deadlock: when only the environment can move, every write has returned and released its
   * mapping, or the engine holds a byte that a full FIFO keeps back.
   */
  lemma StuckMeansDoneOrFull(s: State)
    requires Inv(s) && Stuck(s)
    ensures DoneOrFull(s)
  {
    if !DoneOrFull(s) {
      SomeoneCanMove(s);
    }
  }

  lemma SplitStream(host: seq<byte>, unsent: seq<byte>, done: seq<byte>, submitted: seq<byte>)
    requires host + unsent == done + submitted && |unsent| <= |submitted|
    ensures done <= host && host[|done|..] == submitted[..|submitted| - |unsent|]
  {
    assert host == (done + submitted)[..|host|];
  }

  /** What the host has or can see is whole writes in lock order, then a prefix of the current one. */
  lemma StreamIsAtomic(s: State)
    requires StreamOk(s) && ControlOk(s) && BufferOk(s)
    ensures Stream(s.finished) <= s.drained + s.dev.tx
    ensures s.writer.None? ==> s.drained + s.dev.tx == Stream(s.finished)
    ensures s.writer.Some? ==> (s.drained + s.dev.tx)[|Stream(s.finished)|..] <= s.writer.value.payload
  {
    SplitStream(s.drained + s.dev.tx, Unsent(s), Stream(s.finished), Submitted(s.writer));
  }

  /**
   * In every reachable state: no lost wake-up; no byte lost, doubled or reordered between the user's
   * buffer and the host; the buffer mapped once exactly while it is being handed over, moved, or
   * about to be released; and the copy into the buffer only while no transfer is under way.
   */
  lemma EveryStateIsSafe(buf: seq<byte>, actions: seq<Action>)
    requires |buf| == DMA_BUFFER_SIZE && Legal(Start(buf), actions)
    ensures var s := Run(Start(buf), actions);
      && WakeOk(s)
      && s.drained + s.dev.tx + Unsent(s) == Stream(s.finished) + Submitted(s.writer)
      && MappingOk(s)
      && (s.queued <==> InFlight(s) || StageOf(s).Lighting? || StageOf(s).Issuing?)
      && (StageOf(s).Copying? ==> !InFlight(s) && s.maps == 0)
      && (s.drained + s.dev.tx != [] ==> s.gets >= (|s.drained + s.dev.tx| - 1) / CAPACITY)
  {
    StartOk(buf);
    RunKeepsInv(Start(buf), actions);
  }

  /**
   * In every reachable state the host has or can see the returned writes in lock order, then a prefix of
   * the current payload. Of a returned write it is the whole payload if nothing failed in the write,
   * and otherwise the prefix the write has counted.
   */
  lemma EveryStateIsAtomic(buf: seq<byte>, actions: seq<Action>)
    requires |buf| == DMA_BUFFER_SIZE && Legal(Start(buf), actions)
    ensures var s := Run(Start(buf), actions);
      && Stream(s.finished) <= s.drained + s.dev.tx
      && (if s.writer.None? then s.drained + s.dev.tx == Stream(s.finished)
          else (s.drained + s.dev.tx)[|Stream(s.finished)|..] <= s.writer.value.payload)
      && forall d :: d in s.finished ==>
           && Sent(d) <= d.payload
           && (d.clean ==> Sent(d) == d.payload)
  {
    StartOk(buf);
    RunKeepsInv(Start(buf), actions);
    var s := Run(Start(buf), actions);
    StreamIsAtomic(s);
    forall d | d in s.finished
      ensures Sent(d) <= d.payload && (d.clean ==> Sent(d) == d.payload)
    {
      var i :| 0 <= i < |s.finished| && s.finished[i] == d;
      assert d.clean ==> d.count == |d.payload|;
    }
  }

  /**
   * A run without map or prepare failures that stops with room in the FIFO has returned every write
   * in full, each exactly once, and the host has or will take their payloads whole.
   */
  lemma EveryWriteCompletes(buf: seq<byte>, actions: seq<Action>)
    requires |buf| == DMA_BUFFER_SIZE && Legal(Start(buf), actions)
    requires var s := Run(Start(buf), actions);
      && Stuck(s) && |s.dev.tx| < CAPACITY
      && forall i :: 0 <= i < |s.finished| ==> s.finished[i].clean
    ensures var s := Run(Start(buf), actions);
      && AllComplete(s.finished)
      && multiset(Payloads(s.finished)) == s.arrived
      && s.drained + s.dev.tx == Concat(Payloads(s.finished))
  {
    StartOk(buf);
    RunKeepsInv(Start(buf), actions);
    var s := Run(Start(buf), actions);
    StuckMeansDoneOrFull(s);
    StreamIsAtomic(s);
    CompleteStream(s.finished);
  }
}
