/** Receiving by DMA over whole runs: any number of offers, restarts, failures and button presses. */
module ReceiveRuns {
  import opened Registers
  import opened Words
  import opened DeviceSpec
  import opened Interrupts
  import opened DriverSpec
  import opened Receive
  import DeviceRuns

  /** What the running transfer has put into the buffer. */
  function Got(s: Drv): seq<byte> {
    if s.rx.Active? && s.rx.moved <= |s.rxBuf| then s.rxBuf[..s.rx.moved] else []
  }

  /** What a step adds to the receive FIFO. */
  function Entering(s: Drv, e: Step): seq<byte>
    requires Inv(s)
  {
    if e.HostSets? then Fitting(e.bytes, |s.dev.rx|) else []
  }

  /** The steps that end a transfer. */
  predicate IsEnd(e: Step) {
    e.StartRx? || e.StopRx? || e.CompleteRx?
  }

  lemma MoveKeepsBytes(s: Drv)
    requires Inv(s) && Enabled(s, MoveRx)
    ensures Got(Take(s, MoveRx)) + Take(s, MoveRx).dev.rx == Got(s) + s.dev.rx
  {
    var t := Take(s, MoveRx);
    var m := s.rx.moved;
    assert s.dev.rx != [];
    assert t.rxBuf[..m + 1] == s.rxBuf[..m] + [s.dev.rx[0]];
    assert s.dev.rx == [s.dev.rx[0]] + s.dev.rx[1..];
    assert (s.rxBuf[..m] + [s.dev.rx[0]]) + s.dev.rx[1..] == s.rxBuf[..m] + ([s.dev.rx[0]] + s.dev.rx[1..]);
  }

  lemma OfferKeepsBytes(s: Drv, bytes: seq<byte>)
    requires Inv(s)
    ensures var t := Take(s, HostSets(bytes));
      Got(t) == Got(s) && t.dev.rx == s.dev.rx + Fitting(bytes, |s.dev.rx|)
  {
  }

  lemma RestKeepsBytes(s: Drv, e: Step)
    requires Inv(s) && Enabled(s, e) && !IsEnd(e) && !e.MoveRx? && !e.HostSets?
    ensures Got(Take(s, e)) == Got(s) && Take(s, e).dev.rx == s.dev.rx
  {
    hide DeviceOk, MappingOk, LedsOk, LineOk, Meet, Toggle, And;
  }

  /** Between the ends of transfers, bytes only pass from the host through the FIFO to the buffer. */
  lemma StepKeepsBytes(s: Drv, e: Step)
    requires Inv(s) && Enabled(s, e) && !IsEnd(e)
    ensures Got(Take(s, e)) + Take(s, e).dev.rx == Got(s) + s.dev.rx + Entering(s, e)
  {
    hide Take, Got, DeviceOk, MappingOk, LedsOk, SizesOk, LineOk;
    if e.MoveRx? {
      MoveKeepsBytes(s);
    } else if e.HostSets? {
      OfferKeepsBytes(s, e.bytes);
      assert Got(s) + (s.dev.rx + Entering(s, e)) == Got(s) + s.dev.rx + Entering(s, e);
    } else {
      RestKeepsBytes(s, e);
    }
    assert Got(s) + s.dev.rx + [] == Got(s) + s.dev.rx;
  }

  /** After an end the next transfer has nothing yet, and the FIFO is as it was. */
  lemma EndLeavesFifo(s: Drv, e: Step)
    requires Inv(s) && Enabled(s, e) && IsEnd(e)
    ensures Got(Take(s, e)) == [] && Take(s, e).dev.rx == s.dev.rx
  {
  }

  /** What the reader can read of the buffer. */
  function Readable(s: Drv): seq<byte> {
    if 0 <= s.rxSize <= |s.rxBuf| then s.rxBuf[..s.rxSize] else []
  }

  /**
   * The bottom half of RX_EMPTY hands over exactly what the transfer it stops has got. With none to
   * stop it runs all the same, and the reader's size is whatever the resting channel reports.
   */
  lemma StopHandsOver(s: Drv, residue: nat)
    requires Inv(s) && Enabled(s, StopRx(residue))
    ensures var t := Take(s, StopRx(residue));
      && |t.rxBuf| == DMA_BUFFER_SIZE && t.rxBuf == s.rxBuf
      && if s.rx.Active? then t.rxSize == |Got(s)| && Readable(t) == Got(s) else t.rxSize == DMA_BUFFER_SIZE - residue
  {
  }

  /** So the size is that of what was got, whatever the residue, if and only if there is one to stop. */
  lemma StopSizeIsRightIff(s: Drv)
    requires Inv(s) && s.rxDmaWork
    ensures (forall residue: nat :: Enabled(s, StopRx(residue)) ==> Take(s, StopRx(residue)).rxSize == |Got(s)|)
       <==> s.rx.Active?
  {
    if !s.rx.Active? {
      assert Enabled(s, StopRx(0));
      StopHandsOver(s, 0);
    }
  }

  /** The reader's data changes only by a received byte, a hand-over, or the button. */
  lemma ReaderKeepsData(s: Drv, e: Step)
    requires Enabled(s, e) && !e.MoveRx? && !e.StopRx? && !e.Button?
    ensures Take(s, e).rxSize == s.rxSize && Take(s, e).rxBuf == s.rxBuf
  {
    hide Handle, Served, GetData, SetData, WriteDr, Begin, Submit;
    match e
    case StartRx(mapOk, prepOk) => BeginKeepsData(s, mapOk, prepOk);
    case SubmitTx(data, mapOk, prepOk) => SubmitKeepsData(s, data, mapOk, prepOk);
    case _ =>
  }

  lemma BeginKeepsData(s: Drv, mapOk: bool, prepOk: bool)
    ensures Begin(s, mapOk, prepOk).rxSize == s.rxSize && Begin(s, mapOk, prepOk).rxBuf == s.rxBuf
  {
  }

  lemma SubmitKeepsData(s: Drv, data: seq<byte>, mapOk: bool, prepOk: bool)
    requires |data| <= |s.txBuf|
    ensures Submit(s, data, mapOk, prepOk).rxSize == s.rxSize && Submit(s, data, mapOk, prepOk).rxBuf == s.rxBuf
  {
  }

  // ---- Runs --------------------------------------------------------------------------------------

  function Next(s: Drv, e: Step): (t: Drv)
    requires Inv(s) && Enabled(s, e)
    ensures Inv(t) && t == Take(s, e)
  {
    StepKeepsInv(s, e);
    Take(s, e)
  }

  /** Everything the host offered that found room. */
  function Accepted(s: Drv, run: seq<Step>): seq<byte>
    requires Inv(s) && Legal(s, run)
    decreases |run|
  {
    if run == [] then [] else Entering(s, run[0]) + Accepted(Next(s, run[0]), run[1..])
  }

  /** What the transfers got that were stopped by the RX_EMPTY bottom half, or filled the buffer. */
  function Ended(s: Drv, run: seq<Step>): seq<byte>
    requires Inv(s) && Legal(s, run)
    decreases |run|
  {
    if run == [] then [] else
    (if run[0].StopRx? || run[0].CompleteRx? then Got(s) else []) + Ended(Next(s, run[0]), run[1..])
  }

  /** How many bytes the restarted transfers had got. */
  function Dropped(s: Drv, run: seq<Step>): nat
    requires Inv(s) && Legal(s, run)
    decreases |run|
  {
    if run == [] then 0 else (if run[0].StartRx? then |Got(s)| else 0) + Dropped(Next(s, run[0]), run[1..])
  }

  /** The RX bottom half finds a transfer that has moved something. */
  predicate Restarts(s: Drv, e: Step) {
    e.StartRx? && s.rx.Active? && s.rx.moved > 0
  }

  predicate HasRestart(s: Drv, run: seq<Step>)
    requires Inv(s) && Legal(s, run)
    decreases |run|
  {
    run != [] && (Restarts(s, run[0]) || HasRestart(Next(s, run[0]), run[1..]))
  }

  lemma {:induction false} DroppedIff(s: Drv, run: seq<Step>)
    requires Inv(s) && Legal(s, run)
    ensures Dropped(s, run) > 0 <==> HasRestart(s, run)
    decreases |run|
  {
    if run != [] {
      DroppedIff(Next(s, run[0]), run[1..]);
    }
  }

  lemma {:induction false} EveryByteCounts(s: Drv, run: seq<Step>)
    requires Inv(s) && Legal(s, run)
    ensures var t := Run(s, run);
      |Ended(s, run)| + Dropped(s, run) + |Got(t) + t.dev.rx| == |Got(s) + s.dev.rx| + |Accepted(s, run)|
    decreases |run|
  {
    hide Inv, Take, Got, Entering;
    if run != [] {
      var e := run[0];
      EveryByteCounts(Next(s, e), run[1..]);
      StepCounts(s, e);
    }
  }

  lemma StepCounts(s: Drv, e: Step)
    requires Inv(s) && Enabled(s, e)
    ensures (if IsEnd(e) then |Got(s)| else 0) + |Got(Next(s, e)) + Next(s, e).dev.rx|
         == |Got(s) + s.dev.rx| + |Entering(s, e)|
  {
    hide Inv, Take, Got;
    if IsEnd(e) {
      EndLeavesFifo(s, e);
    } else {
      StepKeepsBytes(s, e);
    }
  }

  lemma StepOrder(s: Drv, e: Step)
    requires Inv(s) && Enabled(s, e) && !Restarts(s, e)
    ensures (if e.StopRx? || e.CompleteRx? then Got(s) else []) + (Got(Next(s, e)) + Next(s, e).dev.rx)
         == (Got(s) + s.dev.rx) + Entering(s, e)
  {
    hide Inv, Take;
    if IsEnd(e) {
      EndLeavesFifo(s, e);
      if e.StartRx? {
        assert Got(s) == [];
      }
      assert [] + s.dev.rx == s.dev.rx;
    } else {
      StepKeepsBytes(s, e);
    }
  }

  lemma {:induction false} InOrder(s: Drv, run: seq<Step>)
    requires Inv(s) && Legal(s, run) && !HasRestart(s, run)
    ensures Ended(s, run) + (Got(Run(s, run)) + Run(s, run).dev.rx) == (Got(s) + s.dev.rx) + Accepted(s, run)
    decreases |run|
  {
    hide Inv, Take, Got, Entering, Restarts;
    if run != [] {
      var e := run[0];
      var t, u := Next(s, e), Run(s, run);
      InOrder(t, run[1..]);
      StepOrder(s, e);
      DeviceRuns.Chain(if e.StopRx? || e.CompleteRx? then Got(s) else [], Ended(t, run[1..]),
                       Got(s) + s.dev.rx, Got(t) + t.dev.rx, Got(u) + u.dev.rx,
                       Entering(s, e), Accepted(t, run[1..]));
    }
  }

  /**
   * Over every run, with any number of offers: what transfers had when they were not restarted but
   * ended, what the running one has got and what is in the FIFO make up everything accepted, in order,
   * if and only if the RX bottom half never found a transfer that had moved something. Whether the
   * reader gets to see it is `DmaReader.BytesAreKeptIff`.
   */
  lemma RestartsDropIff(s: Drv, run: seq<Step>)
    requires Inv(s) && Legal(s, run)
    ensures Ended(s, run) + (Got(Run(s, run)) + Run(s, run).dev.rx) == (Got(s) + s.dev.rx) + Accepted(s, run)
       <==> !HasRestart(s, run)
  {
    hide Inv, Got;
    DroppedIff(s, run);
    if HasRestart(s, run) {
      EveryByteCounts(s, run);
    } else {
      InOrder(s, run);
    }
  }

  predicate HasEnd(run: seq<Step>) {
    exists i :: 0 <= i < |run| && IsEnd(run[i])
  }

  lemma {:induction false} NoEndKeeps(s: Drv, run: seq<Step>)
    requires Inv(s) && Legal(s, run) && !HasEnd(run)
    ensures var t := Run(s, run);
      Inv(t) && Got(t) + t.dev.rx == Got(s) + s.dev.rx + Accepted(s, run)
    decreases |run|
  {
    hide Inv, Take, Got, Entering, IsEnd;
    var q := Got(s) + s.dev.rx;
    if run != [] {
      var e, t := run[0], Next(s, run[0]);
      assert forall i :: 0 <= i < |run| - 1 ==> run[1..][i] == run[i + 1];
      NoEndKeeps(t, run[1..]);
      StepKeepsBytes(s, e);
      assert q + Entering(s, e) + Accepted(t, run[1..]) == q + (Entering(s, e) + Accepted(t, run[1..]));
    } else {
      assert q + [] == q;
    }
  }

  /**
   * From the start of a transfer to the RX_EMPTY bottom half that stops it, however many offers come:
   * what the reader can read afterwards and what is left in the FIFO are exactly what was in the FIFO
   * at the start and what was accepted since, in order.
   */
  lemma EachStopHandsOverWhatCame(s: Drv, run: seq<Step>, residue: nat)
    requires Inv(s) && Got(s) == [] && Legal(s, run) && !HasEnd(run)
    requires Run(s, run).rx.Active? && Enabled(Run(s, run), StopRx(residue))
    ensures var t := Take(Run(s, run), StopRx(residue));
      Readable(t) + t.dev.rx == s.dev.rx + Accepted(s, run)
  {
    hide Inv, Take, Readable;
    NoEndKeeps(s, run);
    StopHandsOver(Run(s, run), residue);
    EndLeavesFifo(Run(s, run), StopRx(residue));
    assert [] + s.dev.rx == s.dev.rx;
  }

  // ---- A second offer that costs nothing, and one that costs a byte ----------------------------

  function Moves(n: nat): seq<Step> {
    if n == 0 then [] else [MoveRx] + Moves(n - 1)
  }

  /** The engine takes a second offer along, its interrupt still pending. */
  predicate Absorbing(s: Drv, q: seq<byte>) {
    && Inv(s) && !s.rxWork && !s.rxDmaWork && s.dev.ris.rx && !s.dev.ris.rxEmpty
    && s.rx.Active? && s.rx.moved < |q| < DMA_BUFFER_SIZE
    && s.dev.rx == q[s.rx.moved..] && s.rxBuf[..s.rx.moved] == q[..s.rx.moved]
  }

  lemma AbsorbStep(s: Drv, q: seq<byte>)
    requires Absorbing(s, q)
    ensures Enabled(s, MoveRx)
    ensures var t := Take(s, MoveRx);
      && t.rx == Active(s.rx.moved + 1)
      && if t.rx.moved < |q| then Absorbing(t, q) else HandOver(t, q) && Receiving(t, q)
  {
    StepKeepsInv(s, MoveRx);
    var t := Take(s, MoveRx);
    var m := s.rx.moved;
    assert q[m..][0] == q[m] && q[m..][1..] == q[m + 1..];
    assert t.rxBuf[..m + 1] == s.rxBuf[..m] + [q[m]] == q[..m + 1];
  }

  lemma {:induction false} AbsorbRun(s: Drv, q: seq<byte>)
    requires Absorbing(s, q)
    ensures var run := Moves(|q| - s.rx.moved);
      && Legal(s, run)
      && HandOver(Run(s, run), q) && Receiving(Run(s, run), q) && Run(s, run).rx.moved == |q|
    decreases |q| - s.rx.moved
  {
    hide Absorbing, HandOver, Receiving, Take;
    AbsorbBounds(s, q);
    var n := |q| - s.rx.moved;
    AbsorbStep(s, q);
    var t := Take(s, MoveRx);
    assert Moves(n)[1..] == Moves(n - 1) && Moves(n)[0] == MoveRx;
    if n > 1 {
      AbsorbRun(t, q);
    } else {
      assert Moves(0) == [];
      assert Legal(t, []) && Run(t, []) == t;
    }
  }

  lemma AbsorbBounds(s: Drv, q: seq<byte>)
    requires Absorbing(s, q)
    ensures s.rx.Active? && s.rx.moved < |q|
  {
  }

  /** The first offer and what fits of the second behind what is still in the FIFO. */
  function Together(s: Drv, q: seq<byte>, w: seq<byte>): seq<byte>
    requires s.rx.Active? && 0 <= |q| - s.rx.moved <= CAPACITY
  {
    q + Fitting(w, |q| - s.rx.moved)
  }

  lemma AbsorbStart(s: Drv, q: seq<byte>, w: seq<byte>)
    requires HandOver(s, q) && Receiving(s, q) && w != [] && |q| + |w| < DMA_BUFFER_SIZE
    ensures s.rx.Active? && 0 <= |q| - s.rx.moved <= CAPACITY && |s.dev.rx| <= CAPACITY
    ensures Take(s, HostSets(w)).rx == s.rx && Absorbing(Take(s, HostSets(w)), Together(s, q, w))
  {
    var m := s.rx.moved;
    var q' := q + Fitting(w, |q| - m);
    StepKeepsInv(s, HostSets(w));
    assert q'[m..] == q[m..] + Fitting(w, |q| - m) && q'[..m] == q[..m];
  }

  /**
   * If the engine empties the FIFO before the handler runs, a second offer costs nothing: it is handed
   * over together with the first.
   */
  lemma SecondOfferAbsorbed(s: Drv, q: seq<byte>, w: seq<byte>) returns (all: seq<byte>, t: Drv, run: seq<Step>)
    requires HandOver(s, q) && Receiving(s, q) && w != [] && |q| + |w| < DMA_BUFFER_SIZE
    ensures s.rx.Active? && 0 <= |q| - s.rx.moved <= CAPACITY && all == q + Fitting(w, |q| - s.rx.moved)
    ensures Enabled(s, HostSets(w)) && t == Take(s, HostSets(w))
    ensures |all| >= s.rx.moved && run == Moves(|all| - s.rx.moved) && Legal(t, run)
    ensures HandOver(Run(t, run), all) && Receiving(Run(t, run), all) && Run(t, run).rx.moved == |all|
  {
    AbsorbStart(s, q, w);
    all := Together(s, q, w);
    t := Take(s, HostSets(w));
    hide Absorbing, HandOver, Receiving, Take, Legal, Run, Moves;
    AbsorbBounds(t, all);
    run := Moves(|all| - s.rx.moved);
    AbsorbRun(t, all);
  }

  lemma Prepend(s: Drv, e: Step, rest: seq<Step>)
    requires Inv(s) && Enabled(s, e) && Legal(Next(s, e), rest)
    ensures Legal(s, [e] + rest) && Run(s, [e] + rest) == Run(Next(s, e), rest)
    ensures HasRestart(s, [e] + rest) <==> Restarts(s, e) || HasRestart(Next(s, e), rest)
  {
    assert ([e] + rest)[1..] == rest;
  }

  /** Interrupt and restart at once, from a transfer that has moved something. */
  lemma RestartAtOnce(s: Drv, q: seq<byte>, w: seq<byte>) returns (run: seq<Step>)
    requires HandOver(s, q) && Receiving(s, q) && !s.dev.ris.tx && w != [] && s.rx.moved > 0
    ensures Legal(s, run) && HasRestart(s, run)
  {
    SecondOfferRestarts(s, q, w);
    var s1 := Next(s, HostSets(w));
    var s2 := Next(s1, Interrupt);
    assert s2.rx == s.rx;
    hide Inv, Take;
    Prepend(s2, StartRx(true, true), []);
    Prepend(s1, Interrupt, [StartRx(true, true)] + []);
    run := [Interrupt] + ([StartRx(true, true)] + []);
    Prepend(s, HostSets(w), run);
    run := [HostSets(w)] + run;
  }

  lemma FirstByte(s: Drv, v: seq<byte>)
    requires Quiet(s) && !s.dev.ris.tx && 2 <= |v| <= CAPACITY
    ensures var s1 := Take(s, HostSets(v));
      && Inv(s1) && Enabled(s1, Interrupt)
      && var s2 := Take(s1, Interrupt);
      && Inv(s2) && Enabled(s2, StartRx(true, true))
      && var s3 := Take(s2, StartRx(true, true));
      && Inv(s3) && Enabled(s3, MoveRx)
      && var s4 := Take(s3, MoveRx);
         HandOver(s4, v) && Receiving(s4, v) && !s4.dev.ris.tx && s4.rx.moved == 1
  {
    hide Inv;
    OfferStarts(s, v);
    var s1 := Take(s, HostSets(v));
    AnnouncedMoves(s1, v);
  }

  lemma AnnouncedMoves(s1: Drv, v: seq<byte>)
    requires HandOver(s1, v) && Announced(s1, v) && !s1.dev.ris.tx && |v| >= 2
    ensures Inv(s1) && Enabled(s1, Interrupt)
    ensures var s2 := Take(s1, Interrupt);
      && Inv(s2) && Enabled(s2, StartRx(true, true))
      && var s3 := Take(s2, StartRx(true, true));
      && Inv(s3) && Enabled(s3, MoveRx)
      && var s4 := Take(s3, MoveRx);
         HandOver(s4, v) && Receiving(s4, v) && !s4.dev.ris.tx && s4.rx.moved == 1
  {
    MeetThree(s1.dev.ris, s1.dev.imsc);
    SecondInterrupt(s1, v);
    StepKeepsInv(s1, Interrupt);
    var s3 := Take(Take(s1, Interrupt), StartRx(true, true));
    HandleOnlyClears(s1.dev);
    MoveStep(s3, v);
  }

  /** From probe, two offers of which the second comes in the middle of the first cost a byte. */
  lemma LossIsReachable(txBuf: seq<byte>, rxBuf: seq<byte>, v: seq<byte>, w: seq<byte>) returns (run: seq<Step>)
    requires |txBuf| == |rxBuf| == DMA_BUFFER_SIZE && 2 <= |v| <= CAPACITY && w != []
    ensures Inv(Start(txBuf, rxBuf)) && Legal(Start(txBuf, rxBuf), run) && HasRestart(Start(txBuf, rxBuf), run)
  {
    StartOk(txBuf, rxBuf);
    var s := Start(txBuf, rxBuf);
    FirstByte(s, v);
    hide Inv, Take, HandOver, Receiving;
    var s1 := Next(s, HostSets(v));
    var s2 := Next(s1, Interrupt);
    var s3 := Next(s2, StartRx(true, true));
    var s4 := Next(s3, MoveRx);
    run := RestartAtOnce(s4, v, w);
    Prepend(s3, MoveRx, run);
    run := [MoveRx] + run;
    Prepend(s2, StartRx(true, true), run);
    run := [StartRx(true, true)] + run;
    Prepend(s1, Interrupt, run);
    run := [Interrupt] + run;
    Prepend(s, HostSets(v), run);
    run := [HostSets(v)] + run;
  }

  // ---- Reaching states -----------------------------------------------------------------------------

  ghost predicate Reaches(s: Drv, t: Drv) {
    exists run :: Legal(s, run) && Run(s, run) == t
  }

  lemma {:induction false} Extend(s: Drv, run: seq<Step>, e: Step)
    requires Legal(s, run) && Enabled(Run(s, run), e)
    ensures Legal(s, run + [e]) && Run(s, run + [e]) == Take(Run(s, run), e)
    decreases |run|
  {
    if run == [] {
      assert run + [e] == [e] && [e][1..] == [];
      assert Legal(Take(s, e), []);
    } else {
      assert (run + [e])[1..] == run[1..] + [e];
      Extend(Take(s, run[0]), run[1..], e);
    }
  }

  lemma Reach(s: Drv, t: Drv, e: Step) returns (r: Drv)
    requires Reaches(s, t) && Enabled(t, e)
    ensures r == Take(t, e) && Reaches(s, r)
  {
    var run :| Legal(s, run) && Run(s, run) == t;
    Extend(s, run, e);
    r := Take(t, e);
  }

  lemma ReachesItself(s: Drv)
    ensures Reaches(s, s)
  {
    assert Legal(s, []) && Run(s, []) == s;
  }

  /** From an announced byte to a transfer that is about to be stopped after it. */
  lemma StopIsNear(s: Drv, a: byte)
    requires HandOver(s, [a]) && Announced(s, [a]) && !s.dev.ris.tx
    ensures Enabled(s, Interrupt)
    ensures var s1 := Take(s, Interrupt);
      && Enabled(s1, StartRx(true, true))
      && var s2 := Take(s1, StartRx(true, true));
      && Enabled(s2, MoveRx)
      && var s3 := Take(s2, MoveRx);
      HandOver(s3, [a]) && Receiving(s3, [a]) && s3.dev.ris.rxEmpty && !s3.dev.ris.tx
  {
    MeetThree(s.dev.ris, s.dev.imsc);
    SecondInterrupt(s, [a]);
    HandleOnlyClears(s.dev);
    MoveStep(Take(Take(s, Interrupt), StartRx(true, true)), [a]);
  }

  lemma StopIsScheduled(s: Drv, q: seq<byte>)
    requires HandOver(s, q) && Receiving(s, q) && s.dev.ris.rxEmpty && !s.dev.ris.tx
    ensures Enabled(s, Interrupt)
    ensures var t := Take(s, Interrupt); HandOver(t, q) && Stopping(t, q) && !t.dev.ris.tx
  {
    MeetThree(s.dev.ris, s.dev.imsc);
    HandleOnlyClears(s.dev);
    InterruptStep(s, q);
  }

  /** From probe: one byte received, and the RX_EMPTY bottom half scheduled. */
  lemma ReachStopping(txBuf: seq<byte>, rxBuf: seq<byte>, a: byte) returns (r: Drv)
    requires |txBuf| == |rxBuf| == DMA_BUFFER_SIZE
    ensures Reaches(Start(txBuf, rxBuf), r) && HandOver(r, [a]) && Stopping(r, [a]) && !r.dev.ris.tx
  {
    var s := Start(txBuf, rxBuf);
    StartOk(txBuf, rxBuf);
    OfferStarts(s, [a]);
    ReachesItself(s);
    StopIsNear(Take(s, HostSets([a])), a);
    hide Reaches, HandOver, Receiving, Stopping;
    r := Reach(s, s, HostSets([a]));
    r := Reach(s, r, Interrupt);
    r := Reach(s, r, StartRx(true, true));
    r := Reach(s, r, MoveRx);
    StopIsScheduled(r, [a]);
    r := Reach(s, r, Interrupt);
  }
}
