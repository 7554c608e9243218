/** When received bytes are left in the FIFO of the DMA driver with nobody to come for them. */
module Stranding {
  import opened Registers
  import opened Words
  import opened DeviceSpec
  import opened Interrupts
  import opened DriverSpec
  import opened Receive
  import opened ReceiveRuns

  /** Bytes to receive, and no interrupt, bottom half or transfer that would. */
  predicate Stranded(s: Drv) {
    s.dev.rx != [] && !s.dev.ris.rx && !s.rxWork && s.rx.Idle?
  }

  /** A transfer that is alone with the bytes in the FIFO started when they were there already. */
  predicate ShortOk(s: Drv) {
    s.dev.rx != [] && !s.dev.ris.rx && !s.rxWork && s.rx.Active? ==> s.rx.moved + |s.dev.rx| <= CAPACITY
  }

  /**
   * Over bytes that no interrupt announces any more: the RX_EMPTY bottom half runs and the one of RX is
   * not scheduled, or that one fails to start a transfer.
   */
  predicate Strands(s: Drv, e: Step) {
    && s.dev.rx != [] && !s.dev.ris.rx
    && ((e.StopRx? && !s.rxWork) || (e.StartRx? && !(e.mapOk && e.prepOk)))
  }

  lemma StartStrands(s: Drv, mapOk: bool, prepOk: bool)
    requires |s.dev.rx| <= CAPACITY && MappingOk(s)
    ensures var t := Begin(s, mapOk, prepOk);
      ShortOk(t) && (Stranded(t) <==> s.dev.rx != [] && !s.dev.ris.rx && !(mapOk && prepOk))
  {
  }

  lemma StopStrands(s: Drv, residue: nat)
    requires MappingOk(s) && !Stranded(s)
    ensures var t := Stop(s, residue);
      ShortOk(t) && (Stranded(t) <==> s.dev.rx != [] && !s.dev.ris.rx && !s.rxWork)
  {
  }

  lemma CompleteStrands(s: Drv)
    requires MappingOk(s) && ShortOk(s) && Enabled(s, CompleteRx)
    ensures ShortOk(Take(s, CompleteRx)) && !Stranded(Take(s, CompleteRx))
  {
  }

  lemma EndStrands(s: Drv, e: Step)
    requires Inv(s) && ShortOk(s) && !Stranded(s) && Enabled(s, e) && IsEnd(e)
    ensures ShortOk(Take(s, e)) && (Stranded(Take(s, e)) <==> Strands(s, e))
  {
    hide DevInv, IntInv, LedsOk, LineOk, ShortOk, Stranded, Begin, Stop;
    FifoBound(s);
    match e
    case StartRx(mapOk, prepOk) => StartStrands(s, mapOk, prepOk);
    case StopRx(residue) => StopStrands(s, residue);
    case CompleteRx => CompleteStrands(s);
  }

  lemma FifoBound(s: Drv)
    requires Inv(s)
    ensures |s.dev.rx| <= CAPACITY
  {
  }

  lemma MoveStrands(s: Drv)
    requires Inv(s) && ShortOk(s) && !Stranded(s) && Enabled(s, MoveRx)
    ensures ShortOk(Take(s, MoveRx)) && !Stranded(Take(s, MoveRx))
  {
    hide Meet;
  }

  lemma OfferStrands(s: Drv, bytes: seq<byte>)
    requires Inv(s) && ShortOk(s) && !Stranded(s)
    ensures ShortOk(Take(s, HostSets(bytes))) && !Stranded(Take(s, HostSets(bytes)))
  {
    hide Meet;
  }

  lemma InterruptStrands(s: Drv)
    requires Inv(s) && ShortOk(s) && !Stranded(s) && Enabled(s, Interrupt)
    ensures ShortOk(Take(s, Interrupt)) && !Stranded(Take(s, Interrupt))
  {
    hide Meet, Toggle;
    HandleOnlyClears(s.dev);
  }

  lemma OtherStrands(s: Drv, e: Step)
    requires Enabled(s, e) && (e.HostGets? || e.SubmitTx? || e.MoveTx? || e.CompleteTx? || e.Button?)
    ensures var t := Take(s, e);
      && t.dev.rx == s.dev.rx && t.dev.ris.rx == s.dev.ris.rx && t.rxWork == s.rxWork && t.rx == s.rx
  {
    hide Meet;
  }

  lemma StepStrands(s: Drv, e: Step)
    requires Inv(s) && ShortOk(s) && !Stranded(s) && Enabled(s, e)
    ensures ShortOk(Take(s, e)) && (Stranded(Take(s, e)) <==> Strands(s, e))
  {
    hide Inv, Take, Enabled;
    match e
    case MoveRx => MoveStrands(s);
    case HostSets(bytes) => OfferStrands(s, bytes);
    case Interrupt => InterruptStrands(s);
    case StartRx(_, _) => EndStrands(s, e);
    case StopRx(_) => EndStrands(s, e);
    case CompleteRx => EndStrands(s, e);
    case _ => OtherStrands(s, e);
  }

  /** Only the next offer helps. */
  lemma StrandedUntilOffer(s: Drv, e: Step)
    requires Inv(s) && Stranded(s) && Enabled(s, e)
    ensures Stranded(Take(s, e)) <==> !(e.HostSets? && e.bytes != [])
  {
    hide Meet, Toggle;
    match e
    case Interrupt => HandleOnlyClears(s.dev);
    case HostGets => OtherStrands(s, e);
    case SubmitTx(_, _, _) => OtherStrands(s, e);
    case MoveTx => OtherStrands(s, e);
    case CompleteTx => OtherStrands(s, e);
    case _ =>
  }

  // ---- Runs --------------------------------------------------------------------------------------

  predicate EverStranded(s: Drv, run: seq<Step>)
    requires Legal(s, run)
    decreases |run|
  {
    Stranded(s) || (run != [] && EverStranded(Take(s, run[0]), run[1..]))
  }

  predicate HasStranding(s: Drv, run: seq<Step>)
    requires Legal(s, run)
    decreases |run|
  {
    run != [] && (Strands(s, run[0]) || HasStranding(Take(s, run[0]), run[1..]))
  }

  lemma {:induction false} StrandedWhen(s: Drv, run: seq<Step>)
    requires Inv(s) && ShortOk(s) && !Stranded(s) && Legal(s, run)
    ensures EverStranded(s, run) <==> HasStranding(s, run)
    decreases |run|
  {
    hide Inv, Take, ShortOk, Stranded, Strands;
    if run != [] {
      StepKeepsInv(s, run[0]);
      StepStrands(s, run[0]);
      if !Strands(s, run[0]) {
        StrandedWhen(Take(s, run[0]), run[1..]);
      } else {
        StrandedNow(Take(s, run[0]), run[1..]);
      }
    }
  }

  lemma StrandedNow(s: Drv, run: seq<Step>)
    requires Stranded(s) && Legal(s, run)
    ensures EverStranded(s, run)
  {
  }

  /**
   * Over every run from probe, received bytes are at some time left with nobody to come for them if and
   * only if, over bytes that are in the FIFO with RX not pending, the RX_EMPTY bottom half runs while
   * that of RX is not scheduled, or that of RX fails to map or prepare.
   */
  lemma StrandedIff(txBuf: seq<byte>, rxBuf: seq<byte>, run: seq<Step>)
    requires |txBuf| == |rxBuf| == DMA_BUFFER_SIZE && Legal(Start(txBuf, rxBuf), run)
    ensures EverStranded(Start(txBuf, rxBuf), run) <==> HasStranding(Start(txBuf, rxBuf), run)
  {
    StartOk(txBuf, rxBuf);
    StrandedWhen(Start(txBuf, rxBuf), run);
  }

  /** A second offer comes between the RX_EMPTY interrupt and its bottom half, and is started first. */
  lemma LateOffer(s: Drv, q: seq<byte>, b: byte)
    requires HandOver(s, q) && Stopping(s, q) && !s.dev.ris.tx
    ensures var s1 := Take(s, HostSets([b]));
      && Enabled(s1, Interrupt)
      && var s2 := Take(s1, Interrupt);
      && Enabled(s2, StartRx(true, true))
      && var s3 := Take(s2, StartRx(true, true));
      && Enabled(s3, StopRx(DMA_BUFFER_SIZE))
      && var s4 := Take(s3, StopRx(DMA_BUFFER_SIZE));
      Stranded(s4) && s4.dev.rx == [b] && !s4.rxDmaWork && !s4.dev.irq
  {
    StepKeepsInv(s, HostSets([b]));
    var s1 := Take(s, HostSets([b]));
    assert s1.dev.rx == [] + [b] == [b];
    MeetThree(s1.dev.ris, s1.dev.imsc);
    LateStart(s1, b);
  }

  lemma LateStart(s1: Drv, b: byte)
    requires Inv(s1) && s1.dev.rx == [b] && s1.dev.ris.rx && !s1.dev.ris.tx && !s1.dev.ris.rxEmpty
    requires s1.rxDmaWork && Enabled(s1, Interrupt)
    ensures var s2 := Take(s1, Interrupt);
      && Enabled(s2, StartRx(true, true))
      && var s3 := Take(s2, StartRx(true, true));
      && Enabled(s3, StopRx(DMA_BUFFER_SIZE))
      && var s4 := Take(s3, StopRx(DMA_BUFFER_SIZE));
      Stranded(s4) && s4.dev.rx == [b] && !s4.rxDmaWork && !s4.dev.irq
  {
    HandleOnlyClears(s1.dev);
    StepKeepsInv(s1, Interrupt);
    var s2 := Take(s1, Interrupt);
    MeetThree(s2.dev.ris, s2.dev.imsc);
  }

  /** From probe, for any two bytes: the second is stranded, with the line down and nothing scheduled. */
  lemma StrandingIsReachable(txBuf: seq<byte>, rxBuf: seq<byte>, a: byte, b: byte) returns (r: Drv)
    requires |txBuf| == |rxBuf| == DMA_BUFFER_SIZE
    ensures Reaches(Start(txBuf, rxBuf), r) && Stranded(r) && r.dev.rx == [b] && !r.rxDmaWork && !r.dev.irq
  {
    var s := Start(txBuf, rxBuf);
    r := ReachStopping(txBuf, rxBuf, a);
    hide Reaches, Stranded, HandOver, Stopping;
    LateOffer(r, [a], b);
    r := Reach(s, r, HostSets([b]));
    r := Reach(s, r, Interrupt);
    r := Reach(s, r, StartRx(true, true));
    r := Reach(s, r, StopRx(DMA_BUFFER_SIZE));
  }
}
