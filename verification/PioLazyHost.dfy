/** A host that drains only when nothing else can move still gets every write of the PIO system done. */
module PioLazyHost {
  import opened Registers
  import opened Words
  import opened Writes
  import opened PioSystem
  import opened PioSafety
  import opened PioProgress

  predicate Finished(s: State) {
    s.writer.None? && s.waiting == []
  }

  /** A driver step that is no empty copy, or a drain when nothing else is left to do. */
  ghost predicate IsLazyStep(s: State, a: Action) {
    && Enabled(s, a)
    && (if Internal(a) then !Stalls(a) else a.HostGets? && Stuck(s) && !Finished(s))
  }

  ghost predicate Lazy(s: State, run: seq<Action>)
    decreases |run|
  {
    run == [] || (IsLazyStep(s, run[0]) && Lazy(Step(s, run[0]), run[1..]))
  }

  lemma {:induction false} LazyIsLegal(s: State, run: seq<Action>)
    requires Lazy(s, run)
    ensures Legal(s, run)
    decreases |run|
  {
    if run != [] {
      LazyIsLegal(Step(s, run[0]), run[1..]);
    }
  }

  function Unwritten(w: Option<Writer>): int {
    if w.Some? then |w.value.payload| - w.value.written - w.value.i else 0
  }

  /** The bytes still to go to the host: in the FIFO, in the current write, and in the waiting ones. */
  function InPipe(s: State): int {
    |s.dev.tx| + Unwritten(s.writer) + Outstanding(s.waiting, 1, 0)
  }

  lemma PipeNatural(s: State)
    requires Inv(s)
    ensures InPipe(s) >= |s.dev.tx|
  {
  }

  lemma PutKeepsPipe(s: State)
    requires DeviceOk(s) && ProcessesOk(s) && Enabled(s, Puts)
    ensures InPipe(Step(s, Puts)) == InPipe(s)
  {
    KeepsWriterPut(s.writer.value);
  }

  /** The handler and the bottom half leave the transmit side alone, but for a wake-up. */
  lemma HandlerKeepsPipe(s: State)
    requires Enabled(s, HandlerSteps)
    ensures InPipe(HandlerStep(s)) == InPipe(s)
  {
    hide Outstanding, Meet, Toggle, And;
  }

  lemma WorkerKeepsPipe(s: State)
    requires Enabled(s, WorkerSteps)
    ensures InPipe(WorkerStep(s)) == InPipe(s)
  {
    hide Outstanding, Meet;
  }

  lemma WriterKeepsPipe(s: State, a: Action)
    requires s.writer.Some? ==> WriterOk(s.writer.value)
    requires Enabled(s, a) && (a.Copies? || a.Finishes? || a.Waits?)
    ensures InPipe(Step(s, a)) == InPipe(s)
  {
    hide Outstanding;
  }

  lemma InternalKeepsPipe(s: State, a: Action)
    requires Inv(s) && Enabled(s, a) && Internal(a)
    ensures InPipe(Step(s, a)) == InPipe(s)
  {
    hide DeviceOk, WakeOk, StreamOk, ArrivedOk, InPipe, HandlerStep, WorkerStep;
    match a
    case Acquires(k) => AcquireKeepsPipe(s, k);
    case Puts => PutKeepsPipe(s);
    case HandlerSteps => HandlerKeepsPipe(s);
    case WorkerSteps => WorkerKeepsPipe(s);
    case _ => WriterKeepsPipe(s, a);
  }

  lemma AcquireKeepsPipe(s: State, k: nat)
    requires LockOk(s) && Enabled(s, Acquires(k))
    ensures InPipe(Step(s, Acquires(k))) == InPipe(s)
  {
    OutstandingRemove(s.waiting, k, 1, 0);
  }

  /** A lazy drain finds the FIFO full, and a byte kept back by it. */
  lemma LazyDrain(s: State)
    requires Inv(s) && IsLazyStep(s, HostGets)
    ensures InPipe(Step(s, HostGets)) == InPipe(s) - CAPACITY > 0
  {
    StuckMeansDoneOrFull(s);
  }

  function Drains(run: seq<Action>): nat {
    if run == [] then 0 else (if run[0].HostGets? then 1 else 0) + Drains(run[1..])
  }

  /** How many drains it takes to have the last of `n` bytes in the FIFO. */
  function Needed(n: int): int {
    if n <= 0 then 0 else (n - 1) / CAPACITY
  }

  lemma NeededIs(n: int, drains: nat)
    requires CAPACITY * drains <= n <= CAPACITY * drains + CAPACITY && (drains > 0 ==> CAPACITY * drains < n)
    ensures drains == Needed(n)
  {
  }

  lemma {:induction false} LazyIsBounded(s: State, run: seq<Action>)
    requires Inv(s) && Lazy(s, run)
    ensures Drains(run) > 0 ==> CAPACITY * Drains(run) < InPipe(s)
    ensures |run| <= Measure(s) + 10 * Drains(run)
    decreases |run|
  {
    PipeNatural(s);
    WorkNatural(s);
    if run != [] {
      var a := run[0];
      StepKeepsInv(s, a);
      LazyIsBounded(Step(s, a), run[1..]);
      if Internal(a) {
        InternalKeepsPipe(s, a);
        InternalDescends(s, a);
      } else {
        LazyDrain(s);
        EnvironmentAdds(s, a);
      }
    }
  }

  lemma {:induction false} LazyPipe(s: State, run: seq<Action>)
    requires Inv(s) && Lazy(s, run) && Legal(s, run)
    ensures InPipe(Run(s, run)) == InPipe(s) - CAPACITY * Drains(run)
    decreases |run|
  {
    if run != [] {
      var a := run[0];
      StepKeepsInv(s, a);
      if Internal(a) {
        InternalKeepsPipe(s, a);
      } else {
        LazyDrain(s);
      }
      LazyPipe(Step(s, a), run[1..]);
    }
  }

  lemma FinishedPipe(s: State)
    requires Inv(s) && Finished(s)
    ensures InPipe(s) == |s.dev.tx| <= CAPACITY
  {
  }

  lemma {:induction false} WaitingWork(payloads: seq<seq<byte>>)
    ensures Outstanding(payloads, BYTE, WRITE) == BYTE * Outstanding(payloads, 1, 0) + WRITE * |payloads|
  {
    if payloads != [] {
      WaitingWork(payloads[..|payloads| - 1]);
    }
  }

  lemma MeasureBound(s: State)
    requires Inv(s)
    ensures Measure(s) <= BYTE * InPipe(s) + WRITE * |s.waiting| + 345
  {
    WaitingWork(s.waiting);
    assert HandlerWork(s) <= 23;
    assert WorkerWork(s) <= 317;
  }

  /** Without a lazy step to take, everything is done. */
  lemma LazyEnds(s: State)
    requires Inv(s) && forall a :: !IsLazyStep(s, a)
    ensures Finished(s)
  {
    if !Finished(s) {
      assert !IsLazyStep(s, HostGets);
      var a :| Internal(a) && !Stalls(a) && Enabled(s, a);
      assert IsLazyStep(s, a);
    }
  }

  /** Everything is done: each write has returned once and in full. */
  predicate AllReturned(s: State) {
    && multiset(Payloads(s.finished)) == s.arrived && AllComplete(s.finished)
    && s.drained + s.dev.tx == Concat(Payloads(s.finished))
  }

  lemma FinishedReturned(s: State)
    requires Inv(s) && Finished(s)
    ensures AllReturned(s)
  {
    CompleteStream(s.finished);
    assert Stream(s.finished) + [] == Stream(s.finished);
  }

  /** A lazy run that cannot go on has drained exactly what was needed. */
  lemma LazyRunEnds(s: State, run: seq<Action>)
    requires Inv(s) && Lazy(s, run) && Legal(s, run)
    ensures (exists a :: IsLazyStep(Run(s, run), a))
         || (AllReturned(Run(s, run)) && Drains(run) == Needed(InPipe(s)))
  {
    hide AllReturned, InPipe, Measure, Inv, IsLazyStep;
    LazyIsBounded(s, run);
    PioProgress.RunKeepsInv(s, run);
    var t := Run(s, run);
    if forall a :: !IsLazyStep(t, a) {
      LazyEnds(t);
      LazyPipe(s, run);
      FinishedPipe(t);
      NeededIs(InPipe(s), Drains(run));
      FinishedReturned(t);
    }
  }

  /**
   * From every reachable state a host that drains only when the system is stuck takes at most
   * floor((n - 1) / 31) drains for the n bytes still to go, the run is bounded by those bytes and the
   * waiting writes, and it can always go on until every write has returned in full and the host has
   * or can see it; then the drains were exactly that many.
   */
  lemma LazyHostSuffices(before: seq<Action>, run: seq<Action>)
    requires Legal(Start(), before) && Lazy(Run(Start(), before), run)
    ensures var s := Run(Start(), before);
      && Drains(run) <= Needed(InPipe(s))
      && |run| <= BYTE * InPipe(s) + WRITE * |s.waiting| + 345 + 10 * Needed(InPipe(s))
    ensures Legal(Run(Start(), before), run)
    ensures var s := Run(Start(), before);
            var t := Run(s, run);
      (exists a :: IsLazyStep(t, a)) || (AllReturned(t) && Drains(run) == Needed(InPipe(s)))
  {
    hide AllReturned, InPipe, Measure, Inv, IsLazyStep;
    var s := Run(Start(), before);
    StartOk();
    PioProgress.RunKeepsInv(Start(), before);
    PipeNatural(s);
    LazyIsBounded(s, run);
    MeasureBound(s);
    LazyIsLegal(s, run);
    LazyRunEnds(s, run);
  }

  /** And such a run exists. */
  lemma {:induction false} LazyRunExists(s: State) returns (run: seq<Action>)
    requires Inv(s)
    ensures Lazy(s, run) && Legal(s, run) && Finished(Run(s, run))
    decreases InPipe(s), Measure(s)
  {
    PipeNatural(s);
    WorkNatural(s);
    if a :| IsLazyStep(s, a) {
      StepKeepsInv(s, a);
      PipeNatural(Step(s, a));
      WorkNatural(Step(s, a));
      if Internal(a) {
        InternalKeepsPipe(s, a);
        InternalDescends(s, a);
      } else {
        LazyDrain(s);
      }
      var rest := LazyRunExists(Step(s, a));
      run := [a] + rest;
      assert run[1..] == rest;
      LazyIsLegal(s, run);
    } else {
      LazyEnds(s);
      run := [];
    }
  }
}
