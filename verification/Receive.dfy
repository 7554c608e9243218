/** One hand-over of received bytes by DMA, from the host's offer to the reader's buffer. */
module Receive {
  import opened Registers
  import opened Words
  import opened DeviceSpec
  import opened Interrupts
  import opened DriverSpec

  /** No receive interrupt, bottom half or transfer is pending, and nothing is left to receive. */
  predicate Quiet(s: Drv) {
    && Inv(s)
    && s.dev.rx == [] && !s.dev.ris.rx && !s.dev.ris.rxEmpty
    && !s.rxWork && !s.rxDmaWork && !s.rxQueued
  }

  /** The bytes are in the reader's buffer, and the driver is as quiet as before. */
  predicate Delivered(s: Drv, q: seq<byte>) {
    Quiet(s) && s.rxSize == |q| && |q| <= |s.rxBuf| && s.rxBuf[..|q|] == q
  }

  predicate Announced(s: Drv, q: seq<byte>) {
    s.dev.ris.rx && s.dev.rx == q && !s.rxWork && !s.rxDmaWork && !s.rxQueued
  }

  predicate Scheduled(s: Drv, q: seq<byte>) {
    !s.dev.ris.rx && !s.dev.ris.rxEmpty && s.dev.rx == q && s.rxWork && !s.rxDmaWork && !s.rxQueued
  }

  /** The engine is `moved` bytes into the offer; the interrupt comes with the last of them. */
  predicate Receiving(s: Drv, q: seq<byte>) {
    && !s.dev.ris.rx && !s.rxWork && !s.rxDmaWork
    && s.rx.Active? && s.rx.moved <= |q| <= |s.rxBuf|
    && s.dev.rx == q[s.rx.moved..]
    && s.rxBuf[..s.rx.moved] == q[..s.rx.moved]
    && s.dev.ris.rxEmpty == (s.rx.moved == |q|)
  }

  predicate Stopping(s: Drv, q: seq<byte>) {
    && !s.dev.ris.rx && !s.dev.ris.rxEmpty && !s.rxWork && s.rxDmaWork
    && s.rx == Active(|q|) && |q| <= |s.rxBuf| && s.dev.rx == [] && s.rxBuf[..|q|] == q
  }

  predicate HandOver(s: Drv, q: seq<byte>) {
    && Inv(s) && 0 < |q| < DMA_BUFFER_SIZE
    && (Announced(s, q) || Scheduled(s, q) || Receiving(s, q) || Stopping(s, q) || Delivered(s, q))
  }

  /** Anything but another offer, the button, or a failing map or prepare call for receiving. */
  predicate Undisturbed(e: Step) {
    !e.HostSets? && !e.Button? && (e.StartRx? ==> e.mapOk && e.prepOk)
  }

  /** The steps that belong to receiving. */
  predicate IsReceiveStep(s: Drv, e: Step) {
    e.StartRx? || e.MoveRx? || e.CompleteRx? || e.StopRx?
    || (e.Interrupt? && (Served(s.dev).Receive? || Served(s.dev).ReceiveEmpty?))
  }

  /** How many receive steps are still to come. */
  function Ahead(s: Drv, q: seq<byte>): int {
    if s.dev.ris.rx then |q| + 4
    else if s.rxWork then |q| + 3
    else if s.rxDmaWork then 1
    else if s.rx.Active? then |q| - s.rx.moved + 2
    else 0
  }

  lemma OfferStarts(s: Drv, v: seq<byte>)
    requires Quiet(s) && v != []
    ensures var q := Fitting(v, 0); var t := Take(s, HostSets(v));
      HandOver(t, q) && Announced(t, q) && Ahead(t, q) == |q| + 4
  {
    StepKeepsInv(s, HostSets(v));
    assert [] + Fitting(v, 0) == Fitting(v, 0);
  }

  lemma InterruptStep(s: Drv, q: seq<byte>)
    requires HandOver(s, q) && Enabled(s, Interrupt)
    ensures var t := Take(s, Interrupt);
      && HandOver(t, q)
      && Ahead(t, q) == Ahead(s, q) - if IsReceiveStep(s, Interrupt) then 1 else 0
  {
    StepKeepsInv(s, Interrupt);
    HandleOnlyClears(s.dev);
  }

  lemma StartStep(s: Drv, q: seq<byte>)
    requires HandOver(s, q) && Enabled(s, StartRx(true, true))
    ensures HandOver(Take(s, StartRx(true, true)), q)
    ensures Ahead(Take(s, StartRx(true, true)), q) == Ahead(s, q) - 1
  {
    StepKeepsInv(s, StartRx(true, true));
    assert q[0..] == q;
  }

  lemma MoveStep(s: Drv, q: seq<byte>)
    requires HandOver(s, q) && Enabled(s, MoveRx)
    ensures HandOver(Take(s, MoveRx), q)
    ensures Ahead(Take(s, MoveRx), q) == Ahead(s, q) - 1
  {
    StepKeepsInv(s, MoveRx);
    var t := Take(s, MoveRx);
    var m := s.rx.moved;
    assert s.dev.rx != [];
    assert Receiving(s, q);
    assert q[m..][0] == q[m] && q[m..][1..] == q[m + 1..];
    assert t.rxBuf[..m + 1] == s.rxBuf[..m] + [q[m]] == q[..m + 1];
  }

  lemma StopStep(s: Drv, q: seq<byte>, residue: nat)
    requires HandOver(s, q) && Enabled(s, StopRx(residue))
    ensures HandOver(Take(s, StopRx(residue)), q)
    ensures Ahead(Take(s, StopRx(residue)), q) == Ahead(s, q) - 1
  {
    StepKeepsInv(s, StopRx(residue));
  }

  /** The transmit side and the host's drains do not touch receiving. */
  lemma OtherStep(s: Drv, q: seq<byte>, e: Step)
    requires HandOver(s, q) && Enabled(s, e)
    requires e.HostGets? || e.SubmitTx? || e.MoveTx? || e.CompleteTx?
    ensures HandOver(Take(s, e), q) && Ahead(Take(s, e), q) == Ahead(s, q)
  {
    StepKeepsInv(s, e);
    var t := Take(s, e);
    assert t.rx == s.rx && t.rxBuf == s.rxBuf && t.dev.rx == s.dev.rx && t.rxSize == s.rxSize;
  }

  lemma HandOverStep(s: Drv, q: seq<byte>, e: Step)
    requires HandOver(s, q) && Enabled(s, e) && Undisturbed(e)
    ensures HandOver(Take(s, e), q)
    ensures Ahead(Take(s, e), q) == Ahead(s, q) - if IsReceiveStep(s, e) then 1 else 0
  {
    match e
    case Interrupt => InterruptStep(s, q);
    case StartRx(mapOk, prepOk) => StartStep(s, q);
    case MoveRx => MoveStep(s, q);
    case StopRx(residue) => StopStep(s, q, residue);
    case _ => OtherStep(s, q, e);
  }

  /** The receive path can always go on until the bytes are delivered. */
  lemma AheadIsReachable(s: Drv, q: seq<byte>)
    requires HandOver(s, q)
    ensures Ahead(s, q) >= 0
    ensures Ahead(s, q) == 0 <==> Delivered(s, q)
    ensures Ahead(s, q) > 0 ==>
      || Enabled(s, Interrupt) || Enabled(s, StartRx(true, true)) || Enabled(s, MoveRx)
      || Enabled(s, StopRx(DMA_BUFFER_SIZE - |q|))
  {
    MeetThree(s.dev.ris, s.dev.imsc);
  }

  function ReceiveSteps(s: Drv, run: seq<Step>): nat
    requires Legal(s, run)
    decreases |run|
  {
    if run == [] then 0 else
    (if IsReceiveStep(s, run[0]) then 1 else 0) + ReceiveSteps(Take(s, run[0]), run[1..])
  }

  lemma {:induction false} HandOverRun(s: Drv, q: seq<byte>, run: seq<Step>)
    requires HandOver(s, q) && Legal(s, run)
    requires forall i :: 0 <= i < |run| ==> Undisturbed(run[i])
    ensures HandOver(Run(s, run), q)
    ensures Ahead(Run(s, run), q) + ReceiveSteps(s, run) == Ahead(s, q)
    decreases |run|
  {
    if run != [] {
      HandOverStep(s, q, run[0]);
      HandOverRun(Take(s, run[0]), q, run[1..]);
    }
  }

  /**
   * From a quiet driver, one offer v is handed over in exactly min(|v|, 31) + 4 receive steps, however
   * they interleave with transmitting: before that a receive step can be taken, and after that
   * the reader's buffer holds exactly the accepted bytes, the FIFO is empty, the mapping released,
   * and no receive interrupt pending.
   */
  lemma OneOfferIsDelivered(s: Drv, v: seq<byte>, run: seq<Step>)
    requires Quiet(s) && v != []
    requires Legal(Take(s, HostSets(v)), run)
    requires forall i :: 0 <= i < |run| ==> Undisturbed(run[i])
    ensures var t := Run(Take(s, HostSets(v)), run);
            var steps := ReceiveSteps(Take(s, HostSets(v)), run);
            var n := if |v| <= CAPACITY then |v| else CAPACITY;
      && |t.rxBuf| == DMA_BUFFER_SIZE && steps <= n + 4
      && (steps == n + 4 <==> t.rxSize == n && t.rxBuf[..n] == v[..n] && Quiet(t))
      && (steps == n + 4 ==> t.rxMaps == 0 && !t.led1 && t.led2)
      && (steps < n + 4 ==>
            || Enabled(t, Interrupt) || Enabled(t, StartRx(true, true)) || Enabled(t, MoveRx)
            || Enabled(t, StopRx(DMA_BUFFER_SIZE - n)))
  {
    OfferStarts(s, v);
    var q := Fitting(v, 0);
    HandOverRun(Take(s, HostSets(v)), q, run);
    var t := Run(Take(s, HostSets(v)), run);
    AheadIsReachable(t, q);
  }

  /**
   * A second offer while the first is being moved, with handler and bottom half running at once: the
   * transfer restarts at the front of the buffer. What is handed over from there on is the unmoved
   * rest and the new bytes. `ReceiveRuns` has every other schedule, and says when a byte is lost.
   */
  lemma SecondOfferRestarts(s: Drv, q: seq<byte>, w: seq<byte>)
    requires HandOver(s, q) && Receiving(s, q) && !s.dev.ris.tx && w != []
    ensures var rest := q[s.rx.moved..];
            var q' := rest + Fitting(w, |rest|);
            var s1 := Take(s, HostSets(w));
      && Enabled(s1, Interrupt)
      && var s2 := Take(s1, Interrupt);
         Enabled(s2, StartRx(true, true)) &&
         var t := Take(s2, StartRx(true, true));
      && HandOver(t, q') && Receiving(t, q') && t.rx.moved == 0
  {
    var rest := q[s.rx.moved..];
    var q' := rest + Fitting(w, |rest|);
    StepKeepsInv(s, HostSets(w));
    var s1 := Take(s, HostSets(w));
    assert s1.dev.rx == q';
    MeetThree(s1.dev.ris, s1.dev.imsc);
    SecondInterrupt(s1, q');
  }

  lemma SecondInterrupt(s: Drv, q: seq<byte>)
    requires Inv(s) && s.dev.ris.rx && !s.dev.ris.tx && !s.rxDmaWork && s.dev.rx == q != [] && Enabled(s, Interrupt)
    ensures var s2 := Take(s, Interrupt);
      && Enabled(s2, StartRx(true, true))
      && var t := Take(s2, StartRx(true, true));
         HandOver(t, q) && Receiving(t, q) && t.rx.moved == 0
  {
    HandleOnlyClears(s.dev);
    StepKeepsInv(s, Interrupt);
    StepKeepsInv(Take(s, Interrupt), StartRx(true, true));
    assert q[0..] == q;
  }
}
