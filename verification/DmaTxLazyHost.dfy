/** A host that drains only when nothing else can move still gets every write of the DMA path done. */
module DmaTxLazyHost {
  import opened Registers
  import opened DeviceSpec
  import opened Writes
  import opened DmaTxSystem
  import opened DmaTxSafety
  import opened DmaTxProgress

  predicate Finished(s: State) {
    s.writer.None? && !s.receiving && s.waiting == [] && s.maps == 0 && !s.queued
  }

  /** A step of driver or engine that is no empty copy, or a drain when nothing else is left to do. */
  ghost predicate IsLazyStep(s: State, a: Action) {
    && Enabled(s, a)
    && (if Internal(a) then !Stalls(a) else a.HostGets? && Stuck(s) && !Finished(s))
  }

  ghost predicate Lazy(s: State, run: seq<Action>)
    decreases |run|
  {
    run == [] || (IsLazyStep(s, run[0]) && Lazy(Step(s, run[0]), run[1..]))
  }

  lemma {:induction false} LazyIsLegal(s: State, run: seq<Action>)
    requires Lazy(s, run)
    ensures Legal(s, run)
    decreases |run|
  {
    if run != [] {
      LazyIsLegal(Step(s, run[0]), run[1..]);
    }
  }

  function Unsubmitted(w: Option<Writer>): int {
    if w.Some? then Left(w.value) else 0
  }

  /** The bytes still to go to the host: in the FIFO, in the mapped buffer, in this write and the waiting ones. */
  function InPipe(s: State): int {
    |s.dev.tx| + |Unsent(s)| + Unsubmitted(s.writer) + Outstanding(s.waiting, 1, 0)
  }

  /** The bytes that nothing can keep from the host any more. */
  function Flight(s: State): nat {
    |s.dev.tx| + |Unsent(s)|
  }

  lemma InternalKeepsFlight(s: State, a: Action)
    requires Inv(s) && Enabled(s, a) && Internal(a)
    ensures Flight(Step(s, a)) >= Flight(s)
  {
    hide Step, MappingOk, WakeOk, StreamOk, CountOk, ArrivedOk;
    if Steers(s, a) {
      SteeringFrame(s, a);
    } else if a.ReceiverUnlocks? {
      OutsideFrame(s, a);
    } else if a.Moves? {
      MoveEffect(s);
    } else if a.Issues? {
      IssueEffect(s);
    } else if a.Waits? {
      ReturnKeepsFlight(s);
    } else {
      RestKeepsStream(s, a);
    }
  }

  lemma ReturnKeepsFlight(s: State)
    requires Enabled(s, Waits) && Step(s, Waits).writer.None?
    ensures Step(s, Waits).dev == s.dev && Unsent(Step(s, Waits)) == Unsent(s)
  {
  }

  lemma InternalKeepsDrained(s: State, a: Action)
    requires Enabled(s, a) && Internal(a)
    ensures Step(s, a).drained == s.drained
  {
    hide GetData, SetData, ReadDr, WriteDr, WriteIcr;
  }

  lemma PipeNatural(s: State)
    requires BufferOk(s)
    ensures InPipe(s) >= |s.dev.tx|
  {
  }

  lemma SteeringKeepsPipe(s: State, a: Action)
    requires Enabled(s, a) && Steers(s, a)
    ensures InPipe(Step(s, a)) == InPipe(s)
  {
    hide Step, Outstanding;
    SteeringFrame(s, a);
  }

  lemma MoveKeepsPipe(s: State)
    requires DeviceOk(s) && BufferOk(s) && ControlOk(s) && Enabled(s, Moves)
    ensures InPipe(Step(s, Moves)) == InPipe(s)
  {
    hide Step, Unsent, DeviceOk, BufferOk, ControlOk, Outstanding;
    MoveEffect(s);
  }

  lemma IssueKeepsPipe(s: State)
    requires BufferOk(s) && ControlOk(s) && Enabled(s, Issues)
    ensures InPipe(Step(s, Issues)) == InPipe(s)
  {
    hide Outstanding, Unsent, Submitted;
    IssueEffect(s);
    IssueSubmits(s);
  }

  lemma IssueSubmits(s: State)
    requires BufferOk(s) && Enabled(s, Issues)
    ensures var t := Step(s, Issues);
      |Submitted(t.writer)| - |Submitted(s.writer)| == Unsubmitted(s.writer) - Unsubmitted(t.writer)
  {
  }

  lemma AcquireKeepsPipe(s: State, k: nat)
    requires ControlOk(s) && Enabled(s, Acquires(k))
    ensures InPipe(Step(s, Acquires(k))) == InPipe(s)
  {
    OutstandingRemove(s.waiting, k, 1, 0);
  }

  /** A write that returns takes with it what it failed to submit. */
  lemma RestKeepsPipe(s: State, a: Action)
    requires ControlOk(s) && BufferOk(s) && Enabled(s, a)
    requires a.Copies? || a.Completes? || a.ReceiverUnlocks? || (a.Waits? && Step(s, a).writer.None?)
    ensures InPipe(Step(s, a)) <= InPipe(s)
  {
    hide Outstanding, WakeWriter;
  }

  lemma InternalKeepsPipe(s: State, a: Action)
    requires Inv(s) && Enabled(s, a) && Internal(a)
    ensures InPipe(Step(s, a)) <= InPipe(s)
  {
    hide Step, InPipe, DeviceOk, ControlOk, MappingOk, BufferOk, WakeOk, StreamOk, CountOk, ArrivedOk;
    if Steers(s, a) {
      SteeringKeepsPipe(s, a);
    } else if a.Moves? {
      MoveKeepsPipe(s);
    } else if a.Issues? {
      IssueKeepsPipe(s);
    } else if a.Acquires? {
      AcquireKeepsPipe(s, a.k);
    } else {
      RestKeepsPipe(s, a);
    }
  }

  /** A lazy drain finds the FIFO full, and a byte kept back by it. */
  lemma LazyDrain(s: State)
    requires Inv(s) && IsLazyStep(s, HostGets)
    ensures InPipe(Step(s, HostGets)) == InPipe(s) - CAPACITY > 0
    ensures |s.dev.tx| == CAPACITY && Flight(Step(s, HostGets)) > 0
  {
    hide Outstanding;
    StuckMeansDoneOrFull(s);
  }

  function Drains(run: seq<Action>): nat {
    if run == [] then 0 else (if run[0].HostGets? then 1 else 0) + Drains(run[1..])
  }

  /** How many drains it takes to have the last of `n` bytes in the FIFO. */
  function Needed(n: int): int {
    if n <= 0 then 0 else (n - 1) / CAPACITY
  }

  lemma NeededIs(n: int, drains: nat)
    requires CAPACITY * drains <= n <= CAPACITY * drains + CAPACITY && (drains > 0 ==> CAPACITY * drains < n)
    ensures drains == Needed(n)
  {
  }

  lemma {:induction false} LazyIsBounded(s: State, run: seq<Action>)
    requires Inv(s) && Proper(s) && Lazy(s, run)
    ensures Drains(run) > 0 ==> CAPACITY * Drains(run) < InPipe(s)
    ensures |run| <= Measure(s) + Drains(run)
    decreases |run|
  {
    hide InPipe, Measure, Proper, DeviceOk, MappingOk, WakeOk, StreamOk, CountOk, ArrivedOk;
    PipeNatural(s);
    MeasureNatural(s);
    if run != [] {
      var a := run[0];
      StepKeepsInv(s, a);
      if Internal(a) {
        InternalKeepsPipe(s, a);
        InternalDescends(s, a);
      } else {
        LazyDrain(s);
        EnvironmentAdds(s, a);
      }
      LazyIsBounded(Step(s, a), run[1..]);
    }
  }

  /** Each lazy drain takes a full queue, and leaves a byte that will follow. */
  lemma {:induction false} LazyDrained(s: State, run: seq<Action>)
    requires Inv(s) && Lazy(s, run) && Legal(s, run)
    ensures |Run(s, run).drained| == |s.drained| + CAPACITY * Drains(run)
    ensures Drains(run) > 0 || Flight(s) > 0 ==> Flight(Run(s, run)) > 0
    decreases |run|
  {
    hide InPipe, Flight, DeviceOk, MappingOk, WakeOk, StreamOk, CountOk, ArrivedOk;
    if run != [] {
      var a := run[0];
      StepKeepsInv(s, a);
      if Internal(a) {
        InternalKeepsFlight(s, a);
        InternalKeepsDrained(s, a);
      } else {
        LazyDrain(s);
      }
      LazyDrained(Step(s, a), run[1..]);
    }
  }

  lemma FinishedFlight(s: State)
    requires Inv(s) && Finished(s)
    ensures Flight(s) == |s.dev.tx| <= CAPACITY
  {
  }

  lemma {:induction false} WaitingWork(payloads: seq<seq<byte>>)
    ensures Outstanding(payloads, BYTE, WRITE) == BYTE * Outstanding(payloads, 1, 0) + WRITE * |payloads|
  {
    if payloads != [] {
      WaitingWork(payloads[..|payloads| - 1]);
    }
  }

  lemma MeasureBound(s: State)
    requires ControlOk(s) && BufferOk(s)
    ensures Measure(s) <= BYTE * InPipe(s) + WRITE * |s.waiting| + 38
  {
    WaitingWork(s.waiting);
    if s.writer.Some? {
      assert StageWork(s.writer.value.stage) <= 20;
    }
    assert EngineWork(s) <= 9 + |Unsent(s)|;
  }

  /** Without a lazy step to take, everything is done. */
  lemma LazyEnds(s: State)
    requires Inv(s) && forall a :: !IsLazyStep(s, a)
    ensures Finished(s)
  {
    if !Finished(s) {
      assert !IsLazyStep(s, HostGets);
      var a :| Internal(a) && !Stalls(a) && Enabled(s, a);
      assert IsLazyStep(s, a);
    }
  }

  lemma {:induction false} RunKeepsProper(s: State, run: seq<Action>)
    requires Inv(s) && Proper(s) && Legal(s, run)
    requires forall i :: 0 <= i < |run| ==> !Stalls(run[i])
    ensures Inv(Run(s, run)) && Proper(Run(s, run))
    decreases |run|
  {
    hide Proper, Measure, DeviceOk, MappingOk, WakeOk, StreamOk, CountOk, ArrivedOk;
    if run != [] {
      var a := run[0];
      StepKeepsInv(s, a);
      if Internal(a) {
        InternalDescends(s, a);
      } else {
        EnvironmentAdds(s, a);
      }
      RunKeepsProper(Step(s, a), run[1..]);
    }
  }

  /** Everything is done: each write has returned once, those without failures in full. */
  predicate AllReturned(s: State) {
    && multiset(Payloads(s.finished)) == s.arrived && CleanIsComplete(s.finished)
    && s.drained + s.dev.tx == Stream(s.finished)
  }

  lemma FinishedReturned(s: State)
    requires Inv(s) && Finished(s)
    ensures AllReturned(s)
  {
    StreamIsAtomic(s);
  }

  /**
   * From every reachable state a host that drains only when the system is stuck takes at most
   * floor((n - 1) / 31) drains for the n bytes still to go, the run is bounded by those bytes and the
   * waiting writes, and it can always go on until every write has returned and the host has or can
   * see what they sent; then the drains were exactly that many for the bytes that came.
   */
  lemma LazyHostSuffices(buf: seq<byte>, before: seq<Action>, run: seq<Action>)
    requires |buf| == DMA_BUFFER_SIZE && Legal(Start(buf), before) && Lazy(Run(Start(buf), before), run)
    requires forall i :: 0 <= i < |before| ==> !Stalls(before[i])
    ensures var s := Run(Start(buf), before);
      && Drains(run) <= Needed(InPipe(s))
      && |run| <= BYTE * InPipe(s) + WRITE * |s.waiting| + 38 + Needed(InPipe(s))
    ensures Legal(Run(Start(buf), before), run)
    ensures var s := Run(Start(buf), before);
            var t := Run(s, run);
      || (exists a :: IsLazyStep(t, a))
      || (AllReturned(t) && Drains(run) == Needed(|t.drained + t.dev.tx| - |s.drained|))
  {
    hide AllReturned, InPipe, Flight, Measure, Proper;
    hide DeviceOk, ControlOk, MappingOk, WakeOk, StreamOk, CountOk, ArrivedOk;
    var s := Run(Start(buf), before);
    StartOk(buf);
    StartProper(buf);
    RunKeepsProper(Start(buf), before);
    LazyIsBounded(s, run);
    MeasureBound(s);
    LazyIsLegal(s, run);
    DmaTxProgress.RunKeepsInv(s, run);
    var t := Run(s, run);
    if forall a :: !IsLazyStep(t, a) {
      LazyEnds(t);
      LazyDrained(s, run);
      FinishedFlight(t);
      NeededIs(|t.drained + t.dev.tx| - |s.drained|, Drains(run));
      FinishedReturned(t);
    }
  }

  lemma StartProper(buf: seq<byte>)
    ensures Proper(Start(buf))
  {
  }

  /** And such a run exists. */
  lemma {:induction false} LazyRunExists(s: State) returns (run: seq<Action>)
    requires Inv(s) && Proper(s)
    ensures Lazy(s, run) && Legal(s, run) && Finished(Run(s, run))
    decreases InPipe(s), Measure(s)
  {
    hide InPipe, Measure, Proper, DeviceOk, MappingOk, WakeOk, StreamOk, CountOk, ArrivedOk;
    PipeNatural(s);
    MeasureNatural(s);
    if a :| IsLazyStep(s, a) {
      StepKeepsInv(s, a);
      PipeNatural(Step(s, a));
      if Internal(a) {
        InternalKeepsPipe(s, a);
        InternalDescends(s, a);
      } else {
        LazyDrain(s);
        EnvironmentAdds(s, a);
      }
      MeasureNatural(Step(s, a));
      var rest := LazyRunExists(Step(s, a));
      run := [a] + rest;
      assert run[1..] == rest;
      LazyIsLegal(s, run);
    } else {
      LazyEnds(s);
      run := [];
    }
  }
}
