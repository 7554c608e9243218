/** The byte-at-a-time system never runs on without the host, and never stops short of a full FIFO. */
module PioProgress {
  import opened Registers
  import opened Words
  import opened DeviceSpec
  import opened WaitQueue
  import opened Writes
  import opened PioSystem
  import opened PioSafety

  // ---- A measure every internal step lowers ----------------------------------------------------

  const BYTE := 12          // a byte still to be written
  const WRITE := 6          // a write still to get the lock

  function Waiting(payloads: seq<seq<byte>>): nat {
    Outstanding(payloads, BYTE, WRITE)
  }

  function WriterWork(w: Option<Writer>): int {
    if w.None? then 0 else
    BYTE * (|w.value.payload| - w.value.written - w.value.i) + if AtTop(w.value) then 5 else Rank(w.value.wait)
  }

  /** Whether the interrupt will still be pending once the handler has toggled it. */
  predicate TxAhead(s: State) {
    s.dev.ris.tx != s.handler.AckTx?
  }

  predicate RxAhead(s: State) {
    s.dev.ris.rx != s.handler.AckRx?
  }

  function HandlerWork(s: State): nat {
    (if TxAhead(s) then 7 else 0) + (if RxAhead(s) then 8 else 0) +
    match s.handler
    case Resting => if s.dev.irq then 2 else 0
    case Entered => 1
    case AckTx => 7
    case WakeTx => 6
    case AckRx => 8
    case ScheduleRx => 7
  }

  function WorkerWork(s: State): nat {
    (if s.workPending then 4 else 0) + 10 * |s.dev.rx| +
    match s.worker
    case Idle => 0
    case Locking => 3
    case Testing(_) => 2
    case Reading(_) => 1
  }

  function Measure(s: State): int {
    Waiting(s.waiting) + WriterWork(s.writer) + HandlerWork(s) + WorkerWork(s)
  }

  /** A copy of no byte at all makes no progress, and the source retries it for ever. */
  predicate Stalls(a: Action) {
    a == Copies(0)
  }

  lemma WorkNatural(s: State)
    requires Inv(s)
    ensures WriterWork(s.writer) >= 0
  {
  }

  lemma WriterDescends(s: State, a: Action)
    requires Inv(s) && Enabled(s, a) && !Stalls(a)
    requires a.Copies? || a.Finishes? || a.Waits?
    ensures WriterWork(Step(s, a).writer) < WriterWork(s.writer)
  {
    if a.Waits? {
      AdvanceDescends(s.writer.value.wait, !s.dev.flag.txff);
    }
  }

  lemma LineMeans(s: State)
    requires DeviceOk(s)
    ensures s.dev.irq <==> s.dev.ris.tx || s.dev.ris.rx
  {
    MeetThree(s.dev.ris, s.dev.imsc);
  }

  /** What a data register write can cost the handler: the interrupt it clears may be toggled back on. */
  lemma PutHandlerWork(s: State)
    requires DeviceOk(s) && Enabled(s, Puts)
    ensures HandlerWork(Step(s, Puts)) <= HandlerWork(s) + 7
  {
    KeepsDevice(s, Puts);
    LineMeans(s);
    LineMeans(Step(s, Puts));
  }

  lemma PutDescends(s: State)
    requires Inv(s) && Enabled(s, Puts)
    ensures Measure(Step(s, Puts)) < Measure(s)
  {
    hide Meet, HandlerWork, Waiting, WakeOk, StreamOk, ArrivedOk;
    KeepsWriterPut(s.writer.value);
    PutHandlerWork(s);
    assert WorkerWork(Step(s, Puts)) == WorkerWork(s);
  }

  /** What a handler step hands over: a wake-up, or work for the bottom half. */
  function HandsOver(h: Handler): nat {
    match h
    case WakeTx => 3
    case ScheduleRx => 4
    case _ => 0
  }

  lemma HandlerWorkDescends(s: State)
    requires DeviceOk(s) && Enabled(s, HandlerSteps)
    ensures HandlerWork(HandlerStep(s)) + HandsOver(s.handler) < HandlerWork(s)
  {
    AcknowledgeEffect(s);
    LineMeans(s);
  }

  lemma HandlerElsewhere(s: State)
    requires Enabled(s, HandlerSteps)
    ensures HandlerStep(s).waiting == s.waiting
    ensures WriterWork(HandlerStep(s).writer) <= WriterWork(s.writer) + if s.handler.WakeTx? then 3 else 0
    ensures WorkerWork(HandlerStep(s)) <= WorkerWork(s) + if s.handler.ScheduleRx? then 4 else 0
  {
    if s.writer.Some? && Runnable(s.writer.value.wait) {
      AdvanceDescends(s.writer.value.wait, true);
    }
  }

  lemma HandlerDescends(s: State)
    requires DeviceOk(s) && Enabled(s, HandlerSteps)
    ensures Measure(HandlerStep(s)) < Measure(s)
  {
    HandlerWorkDescends(s);
    HandlerElsewhere(s);
  }

  /** Taking a byte pays for the bottom half's next test, and for an interrupt toggled back on. */
  lemma ReadHandlerWork(s: State)
    requires DeviceOk(s) && s.worker.Reading?
    ensures HandlerWork(WorkerStep(s)) <= HandlerWork(s) + 8
  {
    KeepsDevice(s, WorkerSteps);
    LineMeans(s);
    LineMeans(WorkerStep(s));
  }

  lemma WorkerDescends(s: State)
    requires DeviceOk(s) && ProcessesOk(s) && Enabled(s, WorkerSteps)
    ensures Measure(WorkerStep(s)) < Measure(s)
  {
    if s.worker.Reading? {
      ReadHandlerWork(s);
    } else {
      assert HandlerWork(WorkerStep(s)) == HandlerWork(s);
    }
  }

  lemma AcquireDescends(s: State, k: nat)
    requires Enabled(s, Acquires(k)) && LockOk(s)
    ensures Measure(Step(s, Acquires(k))) < Measure(s)
  {
    OutstandingRemove(s.waiting, k, BYTE, WRITE);
    assert HandlerWork(Step(s, Acquires(k))) == HandlerWork(s);
  }

  lemma WriterElsewhere(s: State, a: Action)
    requires Enabled(s, a) && (a.Copies? || a.Finishes? || a.Waits?)
    ensures var t := Step(s, a);
      && t.dev == s.dev && t.handler == s.handler && t.worker == s.worker
      && t.workPending == s.workPending && t.waiting == s.waiting
  {
  }

  lemma WriterMeasureDescends(s: State, a: Action)
    requires Inv(s) && Enabled(s, a) && !Stalls(a)
    requires a.Copies? || a.Finishes? || a.Waits?
    ensures Measure(Step(s, a)) < Measure(s)
  {
    hide Step, Inv, WriterWork, Waiting, Enabled;
    WriterDescends(s, a);
    WriterElsewhere(s, a);
    assert HandlerWork(Step(s, a)) == HandlerWork(s);
  }

  /** Every internal step that copies something lowers the measure. */
  lemma InternalDescends(s: State, a: Action)
    requires Inv(s) && Enabled(s, a) && Internal(a) && !Stalls(a)
    ensures Measure(Step(s, a)) < Measure(s)
  {
    match a
    case Acquires(k) => AcquireDescends(s, k);
    case Puts => PutDescends(s);
    case HandlerSteps => HandlerDescends(s);
    case WorkerSteps => WorkerDescends(s);
    case _ => WriterMeasureDescends(s, a);
  }

  /** What the environment can add to the measure. */
  function Budget(a: Action): nat {
    match a
    case HostGets => 9
    case HostSets(_) => 320
    case Arrives(payload) => BYTE * |payload| + WRITE
    case _ => 0
  }

  lemma ArrivalAdds(s: State, payload: seq<byte>)
    ensures Measure(Step(s, Arrives(payload))) == Measure(s) + Budget(Arrives(payload))
  {
    OutstandingAppend(s.waiting, payload, BYTE, WRITE);
    assert HandlerWork(Step(s, Arrives(payload))) == HandlerWork(s);
  }

  lemma EnvironmentAdds(s: State, a: Action)
    requires DeviceOk(s) && Enabled(s, a) && !Internal(a)
    ensures Measure(Step(s, a)) <= Measure(s) + Budget(a)
  {
    match a
    case Arrives(payload) => ArrivalAdds(s, payload);
    case _ => HostHandlerWork(s, a);
  }

  lemma HostHandlerWork(s: State, a: Action)
    requires DeviceOk(s) && Enabled(s, a) && (a.HostGets? || a.HostSets?)
    ensures HandlerWork(Step(s, a)) <= HandlerWork(s) + if a.HostGets? then 9 else 10
  {
  }

  // ---- Whole runs --------------------------------------------------------------------------------

  /** The actions can be taken one after the other. */
  predicate Legal(s: State, actions: seq<Action>)
    decreases |actions|
  {
    actions == [] || (Enabled(s, actions[0]) && Legal(Step(s, actions[0]), actions[1..]))
  }

  function Run(s: State, actions: seq<Action>): State
    requires Legal(s, actions)
    decreases |actions|
  {
    if actions == [] then s else Run(Step(s, actions[0]), actions[1..])
  }

  function Internals(actions: seq<Action>): nat {
    if actions == [] then 0 else (if Internal(actions[0]) then 1 else 0) + Internals(actions[1..])
  }

  function Budgets(actions: seq<Action>): nat {
    if actions == [] then 0 else Budget(actions[0]) + Budgets(actions[1..])
  }

  lemma {:induction false} RunKeepsInv(s: State, actions: seq<Action>)
    requires Inv(s) && Legal(s, actions)
    ensures Inv(Run(s, actions))
    decreases |actions|
  {
    if actions != [] {
      StepKeepsInv(s, actions[0]);
      RunKeepsInv(Step(s, actions[0]), actions[1..]);
    }
  }

  lemma {:induction false} InternalsBounded(s: State, actions: seq<Action>)
    requires Inv(s) && Legal(s, actions)
    requires forall i :: 0 <= i < |actions| ==> !Stalls(actions[i])
    ensures Internals(actions) <= Measure(s) + Budgets(actions)
    decreases |actions|
  {
    WorkNatural(s);
    if actions != [] {
      var a := actions[0];
      StepKeepsInv(s, a);
      InternalsBounded(Step(s, a), actions[1..]);
      if Internal(a) {
        InternalDescends(s, a);
      } else {
        EnvironmentAdds(s, a);
      }
    }
  }

  /**
   * No livelock: however the processes interleave, the driver takes at most 9 steps per drain, 320
   * per offer, and 12 per byte and 6 more per write. In particular every run ends without the host.
   */
  lemma NoLivelock(actions: seq<Action>)
    requires Legal(Start(), actions)
    requires forall i :: 0 <= i < |actions| ==> !Stalls(actions[i])
    ensures Internals(actions) <= Budgets(actions)
  {
    StartOk();
    InternalsBounded(Start(), actions);
  }

  // ---- Where runs stop ---------------------------------------------------------------------------

  /** Only the environment can move, but for copies of nothing. */
  ghost predicate Stuck(s: State) {
    forall a :: Internal(a) && !Stalls(a) ==> !Enabled(s, a)
  }

  /** Every write has returned, or a writer sleeps on a full FIFO. */
  predicate DoneOrFull(s: State) {
    || (s.writer.None? && s.waiting == [])
    || (s.writer.Some? && s.writer.value.wait.Sleeping? && |s.dev.tx| == CAPACITY)
  }

  lemma SomeoneCanMove(s: State)
    requires DeviceOk(s) && LockOk(s) && ProcessesOk(s) && WakeOk(s)
    requires !DoneOrFull(s) || s.dev.irq
    ensures !Stuck(s)
  {
    LineMeans(s);
    if s.dev.irq || !s.handler.Resting? {
      assert Enabled(s, HandlerSteps);
    } else if s.writer.None? {
      assert Enabled(s, Acquires(0)) || Enabled(s, WorkerSteps);
    } else {
      var n := if Left(s.writer.value) > 0 then 1 else 0;
      assert Enabled(s, Copies(n)) || Enabled(s, Finishes) || Enabled(s, Waits) || Enabled(s, Puts);
    }
  }

  /**
   * No deadlock: when only the environment can move, every write has returned, or a writer sleeps on
   * a full FIFO; and nothing is left to receive, or the bottom half waits for that writer's lock. A
   * sleeping writer with room always has a wake-up on its way, and received bytes a bottom half.
   */
  lemma StuckMeansDoneOrFull(s: State)
    requires Inv(s) && Stuck(s)
    ensures DoneOrFull(s) && !s.dev.irq
    ensures s.dev.rx == [] || (s.worker.Locking? && s.lock.ByWriter? && |s.dev.tx| == CAPACITY)
  {
    if !DoneOrFull(s) || s.dev.irq {
      SomeoneCanMove(s);
    }
    if s.dev.rx != [] {
      StuckReceive(s);
    }
  }

  lemma StuckReceive(s: State)
    requires DeviceOk(s) && LockOk(s) && ArrivalSeen(s) && s.dev.rx != [] && Stuck(s)
    ensures s.worker.Locking? && s.lock.ByWriter?
  {
    LineMeans(s);
    assert !Enabled(s, HandlerSteps) && !Enabled(s, WorkerSteps);
  }

  /**
   * A run that stops with room in the FIFO has returned every write in full, each exactly once, and
   * the host has or will take their payloads whole, one after the other.
   */
  lemma EveryWriteCompletes(actions: seq<Action>)
    requires Legal(Start(), actions)
    requires Stuck(Run(Start(), actions)) && |Run(Start(), actions).dev.tx| < CAPACITY
    ensures var s := Run(Start(), actions);
      && AllComplete(s.finished)
      && multiset(Payloads(s.finished)) == s.arrived
      && s.drained + s.dev.tx == Concat(Payloads(s.finished))
  {
    StartOk();
    RunKeepsInv(Start(), actions);
    var s := Run(Start(), actions);
    StuckMeansDoneOrFull(s);
    CompleteStream(s.finished);
    assert Stream(s.finished) + [] == Stream(s.finished);
  }

  /**
   * In every reachable state: no lost wake-up, no received byte that nobody will look at, no
   * interleaving, and enough drains behind the bytes.
   */
  lemma EveryStateIsSafe(actions: seq<Action>)
    requires Legal(Start(), actions)
    ensures var s := Run(Start(), actions);
      && WakeOk(s) && ArrivalSeen(s)
      && s.drained + s.dev.tx == Concat(Payloads(s.finished)) + Progress(s.writer)
      && (s.drained + s.dev.tx != [] ==> s.gets >= (|s.drained + s.dev.tx| - 1) / CAPACITY)
  {
    StartOk();
    RunKeepsInv(Start(), actions);
    CompleteStream(Run(Start(), actions).finished);
  }

  // ---- How soon a sleeper wakes --------------------------------------------------------------------

  predicate Sleeper(s: State) {
    s.writer.Some? && Committed(s.writer.value.wait)
  }

  /** How many steps of the handler alone can pass before it wakes the writer. */
  function Turns(h: Handler): nat {
    match h
    case AckRx => 6
    case ScheduleRx => 5
    case Resting => 4
    case Entered => 3
    case AckTx => 2
    case WakeTx => 1
  }

  function HandlerAlone(s: State, n: nat): State
    decreases n
  {
    if n == 0 || !Enabled(s, HandlerSteps) then s else HandlerAlone(HandlerStep(s), n - 1)
  }

  /** The writer sleeps though there is room, and its wake-up is on its way. */
  predicate AwaitsWake(s: State) {
    DeviceOk(s) && Sleeper(s) && !s.dev.flag.txff && (s.dev.ris.tx || s.handler.WakeTx?)
  }

  lemma HandlerApproaches(s: State)
    requires AwaitsWake(s)
    ensures Enabled(s, HandlerSteps)
    ensures s.handler.WakeTx? ==> !Sleeper(HandlerStep(s))
    ensures !s.handler.WakeTx? ==> AwaitsWake(HandlerStep(s)) && Turns(HandlerStep(s).handler) == Turns(s.handler) - 1
  {
    hide DevInv, Meet, Toggle;
    LineMeans(s);
    AcknowledgeEffect(s);
    KeepsDevice(s, HandlerSteps);
  }

  lemma {:induction false} AwaitedWakeComes(s: State, n: nat)
    requires AwaitsWake(s) && n <= Turns(s.handler)
    ensures Sleeper(HandlerAlone(s, n)) <==> n < Turns(s.handler)
    decreases n
  {
    if n > 0 {
      HandlerApproaches(s);
      if s.handler.WakeTx? {
        assert HandlerAlone(HandlerStep(s), 0) == HandlerStep(s);
      } else {
        AwaitedWakeComes(HandlerStep(s), n - 1);
      }
    }
  }

  /**
   * Once there is room, the handler alone wakes the sleeping writer after exactly as many steps as
   * its program counter is away from the wake-up: six at most.
   */
  lemma SleeperWakes(s: State, n: nat)
    requires Inv(s) && Sleeper(s) && !s.dev.flag.txff && n <= Turns(s.handler)
    ensures Sleeper(HandlerAlone(s, n)) <==> n < Turns(s.handler) <= 6
  {
    AwaitedWakeComes(s, n);
  }
}
