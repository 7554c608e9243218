/** One hand-over of received bytes by the byte-at-a-time driver, at the grain of register accesses. */
module PioReceive {
  import opened Registers
  import opened Words
  import opened DeviceSpec
  import opened PioSystem
  import opened PioSafety
  import opened PioProgress

  predicate HandlerOffRx(s: State) {
    !s.handler.AckRx? && !s.handler.ScheduleRx?
  }

  /** Nothing is left to receive and no part of the receive path is under way. */
  predicate Quiet(s: State) {
    && DeviceOk(s) && |s.rxBuf| == FIFO_SIZE
    && s.dev.rx == [] && !s.dev.ris.rx && HandlerOffRx(s) && !s.workPending && s.worker.Idle?
  }

  predicate Delivered(s: State, q: seq<byte>) {
    Quiet(s) && s.rxSize == |q| && |q| <= |s.rxBuf| && s.rxBuf[..|q|] == q
  }

  /** The interrupt is pending, or seen, or acknowledged. */
  predicate Announced(s: State, q: seq<byte>) {
    && s.dev.rx == q && !s.workPending && s.worker.Idle?
    && (if s.handler.ScheduleRx? then !s.dev.ris.rx else s.dev.ris.rx)
  }

  /** The bottom half is scheduled or at work: what it has got and what is left make up the offer. */
  predicate Draining(s: State, q: seq<byte>) {
    && !s.dev.ris.rx && HandlerOffRx(s)
    && match s.worker
       case Idle => s.workPending && s.dev.rx == q
       case Locking => !s.workPending && s.dev.rx == q
       case Testing(i) => !s.workPending && i <= |s.rxBuf| && s.rxBuf[..i] + s.dev.rx == q
       case Reading(i) => !s.workPending && i <= |s.rxBuf| && s.rxBuf[..i] + s.dev.rx == q && s.dev.rx != []
  }

  predicate HandOver(s: State, q: seq<byte>) {
    && DeviceOk(s) && |s.rxBuf| == FIFO_SIZE && q != [] && |q| <= CAPACITY
    && (Announced(s, q) || Draining(s, q) || Delivered(s, q))
  }

  predicate IsReceiveStep(s: State, a: Action) {
    || a.WorkerSteps?
    || (a.HandlerSteps? && (s.handler.AckRx? || s.handler.ScheduleRx?
                            || (s.handler.Entered? && !s.dev.ris.tx && s.dev.ris.rx)))
  }

  /** How many receive steps are still to come. */
  function Ahead(s: State, q: seq<byte>): int {
    if s.handler.ScheduleRx? then 2 * |q| + 4
    else if s.dev.ris.rx then 2 * |q| + if s.handler.AckRx? then 5 else 6
    else if s.workPending then 2 * |q| + 3
    else match s.worker
      case Idle => 0
      case Locking => 2 * |q| + 2
      case Testing(_) => 2 * |s.dev.rx| + 1
      case Reading(_) => 2 * |s.dev.rx|
  }

  lemma OfferStarts(s: State, v: seq<byte>)
    requires Quiet(s) && v != []
    ensures var q := Fitting(v, 0); var t := Step(s, HostSets(v));
      HandOver(t, q) && Ahead(t, q) == 2 * |q| + 6
  {
    SetDataKeepsInv(s.dev, v);
    assert [] + Fitting(v, 0) == Fitting(v, 0);
  }

  lemma HandlerAnnounces(s: State, q: seq<byte>)
    requires DeviceOk(s) && Announced(s, q) && q != [] && |q| <= CAPACITY && Enabled(s, HandlerSteps)
    ensures var t := HandlerStep(s);
      && (Announced(t, q) || Draining(t, q))
      && Ahead(t, q) == Ahead(s, q) - if IsReceiveStep(s, HandlerSteps) then 1 else 0
  {
    hide DevInv;
    AcknowledgeEffect(s);
  }

  lemma HandlerStandsBy(s: State, q: seq<byte>)
    requires DeviceOk(s) && (Draining(s, q) || Delivered(s, q)) && Enabled(s, HandlerSteps)
    ensures var t := HandlerStep(s);
      && (Draining(s, q) ==> Draining(t, q))
      && (Delivered(s, q) && DeviceOk(t) ==> Delivered(t, q))
      && Ahead(t, q) == Ahead(s, q) && !IsReceiveStep(s, HandlerSteps)
  {
    hide DevInv, Meet, Toggle;
    AcknowledgeEffect(s);
  }

  lemma HandlerAdvances(s: State, q: seq<byte>)
    requires HandOver(s, q) && Enabled(s, HandlerSteps)
    ensures var t := HandlerStep(s);
      HandOver(t, q) && Ahead(t, q) == Ahead(s, q) - if IsReceiveStep(s, HandlerSteps) then 1 else 0
  {
    KeepsDevice(s, HandlerSteps);
    if Announced(s, q) {
      HandlerAnnounces(s, q);
    } else {
      HandlerStandsBy(s, q);
    }
  }

  lemma ReadingAdvances(s: State, q: seq<byte>)
    requires HandOver(s, q) && s.worker.Reading?
    ensures var t := WorkerStep(s);
      && t.worker == Testing(s.worker.i + 1) && |t.rxBuf| == FIFO_SIZE && s.worker.i < FIFO_SIZE
      && t.rxBuf[..t.worker.i] + t.dev.rx == q && t.workPending == s.workPending && t.handler == s.handler
      && |t.dev.rx| == |s.dev.rx| - 1 && !t.dev.ris.rx
  {
    hide Meet, FlagInv, BusyInv;
    var i, rx := s.worker.i, s.dev.rx;
    assert WorkerStep(s).rxBuf[..i + 1] == s.rxBuf[..i] + [rx[0]];
    assert (s.rxBuf[..i] + [rx[0]]) + rx[1..] == s.rxBuf[..i] + rx;
  }

  lemma WorkerAdvances(s: State, q: seq<byte>)
    requires HandOver(s, q) && Enabled(s, WorkerSteps)
    ensures var t := WorkerStep(s); HandOver(t, q) && Ahead(t, q) == Ahead(s, q) - 1
  {
    KeepsDevice(s, WorkerSteps);
    if s.worker.Reading? {
      ReadingAdvances(s, q);
    } else if s.worker.Locking? {
      assert s.rxBuf[..0] + q == q;
    } else if s.worker.Testing? && s.dev.rx == [] {
      assert s.rxBuf[..s.worker.i] + [] == s.rxBuf[..s.worker.i];
    }
  }

  /** Writers and the host's drains do not touch receiving. */
  lemma OthersStandBy(s: State, q: seq<byte>, a: Action)
    requires HandOver(s, q) && Enabled(s, a) && !a.HostSets? && !a.HandlerSteps? && !a.WorkerSteps?
    ensures HandOver(Step(s, a), q) && Ahead(Step(s, a), q) == Ahead(s, q)
  {
    KeepsDevice(s, a);
    var t := Step(s, a);
    assert t.dev.rx == s.dev.rx && t.dev.ris.rx == s.dev.ris.rx;
    assert t.handler == s.handler && t.worker == s.worker && t.workPending == s.workPending;
    assert t.rxBuf == s.rxBuf && t.rxSize == s.rxSize;
  }

  lemma HandOverStep(s: State, q: seq<byte>, a: Action)
    requires HandOver(s, q) && Enabled(s, a) && !a.HostSets?
    ensures HandOver(Step(s, a), q)
    ensures Ahead(Step(s, a), q) == Ahead(s, q) - if IsReceiveStep(s, a) then 1 else 0
  {
    match a
    case HandlerSteps => HandlerAdvances(s, q);
    case WorkerSteps => WorkerAdvances(s, q);
    case _ => OthersStandBy(s, q, a);
  }

  function ReceiveSteps(s: State, actions: seq<Action>): nat
    requires Legal(s, actions)
    decreases |actions|
  {
    if actions == [] then 0 else
    (if IsReceiveStep(s, actions[0]) then 1 else 0) + ReceiveSteps(Step(s, actions[0]), actions[1..])
  }

  lemma {:induction false} HandOverRun(s: State, q: seq<byte>, actions: seq<Action>)
    requires HandOver(s, q) && Legal(s, actions)
    requires forall i :: 0 <= i < |actions| ==> !actions[i].HostSets?
    ensures HandOver(Run(s, actions), q)
    ensures Ahead(Run(s, actions), q) + ReceiveSteps(s, actions) == Ahead(s, q)
    decreases |actions|
  {
    if actions != [] {
      HandOverStep(s, q, actions[0]);
      HandOverRun(Step(s, actions[0]), q, actions[1..]);
    }
  }

  lemma AheadOfDelivery(s: State, q: seq<byte>)
    requires HandOver(s, q)
    ensures Ahead(s, q) >= 0
    ensures Ahead(s, q) == 0 <==> Delivered(s, q)
  {
  }

  /**
   * From a quiet receive path, one offer v is in the reader's buffer after exactly 2 min(|v|, 31) + 6
   * receive steps, however these interleave with writers, transmit interrupts and drains. A run
   * that stops earlier has a writer sitting on the lock before a full FIFO.
   */
  lemma OneOfferIsDelivered(s: State, v: seq<byte>, actions: seq<Action>)
    requires Inv(s) && Quiet(s) && v != [] && Legal(Step(s, HostSets(v)), actions)
    requires forall i :: 0 <= i < |actions| ==> !actions[i].HostSets?
    ensures var t := Run(Step(s, HostSets(v)), actions);
            var steps := ReceiveSteps(Step(s, HostSets(v)), actions);
            var n := if |v| <= CAPACITY then |v| else CAPACITY;
      && |t.rxBuf| == FIFO_SIZE && steps <= 2 * n + 6
      && (steps == 2 * n + 6 <==> Quiet(t) && t.rxSize == n && t.rxBuf[..n] == v[..n])
      && (steps < 2 * n + 6 && Stuck(t) ==> t.lock.ByWriter? && |t.dev.tx| == CAPACITY)
  {
    var first := Step(s, HostSets(v));
    hide Inv, Step, HandOver, Ahead, Quiet, Stuck;
    OfferStarts(s, v);
    var q := Fitting(v, 0);
    assert q == v[..|q|];
    HandOverRun(first, q, actions);
    var t := Run(first, actions);
    HandOverShows(t, q);
    StepKeepsInv(s, HostSets(v));
    RunKeepsInv(first, actions);
    if Ahead(t, q) > 0 && Stuck(t) {
      HandOverStuck(t, q);
    }
  }

  lemma HandOverShows(t: State, q: seq<byte>)
    requires HandOver(t, q)
    ensures |t.rxBuf| == FIFO_SIZE && |q| <= CAPACITY && Ahead(t, q) >= 0
    ensures Ahead(t, q) == 0 <==> Quiet(t) && t.rxSize == |q| && t.rxBuf[..|q|] == q
  {
    AheadOfDelivery(t, q);
  }

  lemma HandOverStuck(t: State, q: seq<byte>)
    requires Inv(t) && HandOver(t, q) && Stuck(t) && Ahead(t, q) > 0
    ensures t.lock.ByWriter? && |t.dev.tx| == CAPACITY
  {
    hide HandOver, Ahead, Stuck, WakeOk, StreamOk, ArrivedOk;
    StuckMeansDoneOrFull(t);
    StuckReceiver(t, q);
  }

  /** When only the environment can move, an unfinished bottom half waits for the lock. */
  lemma StuckReceiver(s: State, q: seq<byte>)
    requires HandOver(s, q) && LockOk(s) && Stuck(s) && Ahead(s, q) > 0
    ensures s.lock.ByWriter?
  {
    LineMeans(s);
    assert !Enabled(s, HandlerSteps) && !Enabled(s, WorkerSteps);
  }

  /**
   * A bottom half that runs once more over an empty FIFO leaves the reader nothing, whatever was in the
   * buffer. `PioReceiveRuns.SecondOfferForgets` gets there by a second offer.
   */
  lemma EmptyRunForgets(s: State)
    requires DeviceOk(s) && s.workPending && s.worker.Idle? && s.lock.Free? && s.dev.rx == []
    ensures var run := [WorkerSteps, WorkerSteps, WorkerSteps];
            Legal(s, run) && Run(s, run).rxSize == 0
  {
    var s1 := Step(s, WorkerSteps);
    var s2 := Step(s1, WorkerSteps);
    var s3 := Step(s2, WorkerSteps);
    assert s3.rxSize == 0;
    assert Legal(s3, []) && Run(s3, []) == s3;
    assert Legal(s2, [WorkerSteps]) && Run(s2, [WorkerSteps]) == s3;
    assert [WorkerSteps, WorkerSteps][1..] == [WorkerSteps];
    assert Legal(s1, [WorkerSteps, WorkerSteps]) && Run(s1, [WorkerSteps, WorkerSteps]) == s3;
    assert [WorkerSteps, WorkerSteps, WorkerSteps][1..] == [WorkerSteps, WorkerSteps];
  }
}
