/**
 * What a reader of the DMA driver gets, over whole runs. The reader reads everything there is to read,
 * once after each RX_EMPTY bottom half, at any time.
 */
module DmaReader {
  import opened Registers
  import opened Words
  import opened DriverSpec
  import opened Receive
  import opened ReceiveRuns
  import DeviceRuns

  /** `isNew` until what the last bottom half left has been read; `collected` is all the reader got. */
  datatype View = View(drv: Drv, isNew: bool, collected: seq<byte>)

  datatype Turn = Drives(e: Step) | Reads

  predicate Possible(v: View, t: Turn) {
    t.Drives? ==> Enabled(v.drv, t.e)
  }

  function Unread(v: View): seq<byte> {
    if v.isNew then Readable(v.drv) else []
  }

  function Turned(v: View, t: Turn): (w: View)
    requires Inv(v.drv) && Possible(v, t)
    ensures Inv(w.drv)
  {
    match t
    case Drives(e) => View(Next(v.drv, e), v.isNew || e.StopRx?, v.collected)
    case Reads => View(v.drv, false, v.collected + Unread(v))
  }

  /** Everything on its way to the reader: with the reader, unread, in the running transfer, in the FIFO. */
  function Held(v: View): seq<byte> {
    v.collected + (Unread(v) + (Got(v.drv) + v.drv.dev.rx))
  }

  function Coming(v: View, t: Turn): seq<byte>
    requires Inv(v.drv)
  {
    if t.Drives? then Entering(v.drv, t.e) else []
  }

  /** The engine moves a byte over an unread one that is not the same. */
  predicate Overwrites(v: View) {
    && v.drv.rx.Active? && v.drv.dev.rx != []
    && v.drv.rx.moved < |Unread(v)| && Unread(v)[v.drv.rx.moved] != v.drv.dev.rx[0]
  }

  /** The turns that cost the reader something, or show it something else. */
  predicate Loses(v: View, t: Turn) {
    t.Drives? &&
    match t.e
    case MoveRx => Overwrites(v)
    case StartRx(_, _) => v.drv.rx.Active? && v.drv.rx.moved > 0
    case CompleteRx => true
    case StopRx(residue) =>
      if v.drv.rx.Active? then Unread(v) != [] else residue + |Unread(v)| != DMA_BUFFER_SIZE
    case Button => Unread(v) != []
    case _ => false
  }

  lemma Sizes(s: Drv)
    requires Inv(s)
    ensures |s.rxBuf| == DMA_BUFFER_SIZE && 0 <= s.rxSize <= DMA_BUFFER_SIZE && |Readable(s)| == s.rxSize
    ensures s.rx.Active? ==> |Got(s)| == s.rx.moved
    ensures s.rx.Idle? ==> Got(s) == []
  {
  }

  /** What a byte moved into the buffer does to it. */
  lemma MoveEffect(s: Drv)
    requires Inv(s) && Enabled(s, MoveRx)
    ensures s.rx.Active? && s.rx.moved < DMA_BUFFER_SIZE && s.dev.rx != []
    ensures var t := Take(s, MoveRx);
      t.rxSize == s.rxSize && t.rxBuf == s.rxBuf[s.rx.moved := s.dev.rx[0]]
  {
  }

  lemma MoveHolds(v: View)
    requires Inv(v.drv) && Enabled(v.drv, MoveRx)
    ensures Held(Turned(v, Drives(MoveRx))) == Held(v) + [] <==> !Loses(v, Drives(MoveRx))
  {
    var s, w := v.drv, Turned(v, Drives(MoveRx));
    MoveEffect(s);
    MoveKeepsBytes(s);
    Sizes(s);
    Sizes(w.drv);
    hide Inv, Take, Got;
    assert Held(v) + [] == Held(v);
    var m, x := s.rx.moved, s.dev.rx[0];
    var was, now := Unread(v), Unread(w);
    if m < |was| {
      assert now == was[m := x];
      assert was[m] == x ==> now == was;
      assert now[m] == x;
    } else {
      assert now == was;
    }
    DeviceRuns.SameEnds(v.collected, was, now, Got(s) + s.dev.rx);
  }

  lemma StartHolds(v: View, e: Step)
    requires Inv(v.drv) && Enabled(v.drv, e) && e.StartRx?
    ensures Held(Turned(v, Drives(e))) == Held(v) + [] <==> !Loses(v, Drives(e))
  {
    ReaderKeepsData(v.drv, e);
    EndLeavesFifo(v.drv, e);
    Sizes(v.drv);
    hide Inv, Take, Got;
    assert Held(v) + [] == Held(v);
    assert Got(v.drv) == [] ==> Got(v.drv) + v.drv.dev.rx == [] + v.drv.dev.rx;
  }

  lemma CompleteHolds(v: View)
    requires Inv(v.drv) && Enabled(v.drv, CompleteRx)
    ensures Held(Turned(v, Drives(CompleteRx))) != Held(v) + []
  {
    ReaderKeepsData(v.drv, CompleteRx);
    EndLeavesFifo(v.drv, CompleteRx);
    Sizes(v.drv);
    hide Inv, Take, Got;
    assert |Held(Turned(v, Drives(CompleteRx)))| < |Held(v)|;
  }

  lemma StopHolds(v: View, residue: nat)
    requires Inv(v.drv) && Enabled(v.drv, StopRx(residue))
    ensures Held(Turned(v, Drives(StopRx(residue)))) == Held(v) + [] <==> !Loses(v, Drives(StopRx(residue)))
  {
    var s, e := v.drv, StopRx(residue);
    var w := Turned(v, Drives(e));
    StopHandsOver(s, residue);
    EndLeavesFifo(s, e);
    Sizes(s);
    Sizes(w.drv);
    hide Inv, Take, Got;
    assert Held(v) + [] == Held(v);
    var rx := s.dev.rx;
    assert [] + rx == rx;
    if s.rx.Active? {
      assert Held(w) == v.collected + (Got(s) + rx);
    } else {
      assert Held(w) == v.collected + (Unread(w) + rx) && Held(v) == v.collected + (Unread(v) + rx);
      assert |Unread(w)| == |Unread(v)| ==> Unread(w) == Unread(v);
    }
  }

  lemma ButtonHolds(v: View)
    requires Inv(v.drv)
    ensures Held(Turned(v, Drives(Button))) == Held(v) + [] <==> !Loses(v, Drives(Button))
  {
    RestKeepsBytes(v.drv, Button);
    ButtonEmpties(v.drv);
    hide Inv, Take, Got;
    assert Held(v) + [] == Held(v);
  }

  lemma ButtonEmpties(s: Drv)
    ensures Readable(Take(s, Button)) == []
  {
  }

  lemma Append(a: seq<byte>, b: seq<byte>, c: seq<byte>, d: seq<byte>)
    ensures a + (b + (c + d)) == a + (b + c) + d
  {
  }

  lemma OtherHolds(v: View, e: Step)
    requires Inv(v.drv) && Enabled(v.drv, e) && !IsEnd(e) && !e.MoveRx? && !e.Button?
    ensures Held(Turned(v, Drives(e))) == Held(v) + Coming(v, Drives(e)) && !Loses(v, Drives(e))
  {
    hide Inv, Take, Got, Enabled, Entering;
    ReaderKeepsData(v.drv, e);
    StepKeepsBytes(v.drv, e);
    Append(v.collected, Unread(v), Got(v.drv) + v.drv.dev.rx, Entering(v.drv, e));
  }

  /** One turn keeps what is held, and adds what the host offers, exactly when it is not one of those. */
  lemma TurnHolds(v: View, t: Turn)
    requires Inv(v.drv) && Possible(v, t)
    ensures Held(Turned(v, t)) == Held(v) + Coming(v, t) <==> !Loses(v, t)
  {
    hide Inv, Enabled, Held, Loses, Next;
    match t
    case Reads => ReadHolds(v);
    case Drives(e) =>
      match e
      case MoveRx => MoveHolds(v);
      case StartRx(_, _) => StartHolds(v, e);
      case CompleteRx => CompleteHolds(v);
        CompleteLoses(v);
      case StopRx(residue) => StopHolds(v, residue);
      case Button => ButtonHolds(v);
      case _ => OtherHolds(v, e);
  }

  lemma CompleteLoses(v: View)
    ensures Loses(v, Drives(CompleteRx))
  {
  }

  lemma ReadHolds(v: View)
    requires Inv(v.drv)
    ensures Held(Turned(v, Reads)) == Held(v) + Coming(v, Reads) && !Loses(v, Reads)
  {
    hide Inv, Got;
    var q := Got(v.drv) + v.drv.dev.rx;
    assert (v.collected + Unread(v)) + ([] + q) == v.collected + (Unread(v) + q) + [];
  }

  // ---- Runs --------------------------------------------------------------------------------------

  predicate AllPossible(v: View, run: seq<Turn>)
    requires Inv(v.drv)
    decreases |run|
  {
    run == [] || (Possible(v, run[0]) && AllPossible(Turned(v, run[0]), run[1..]))
  }

  function After(v: View, run: seq<Turn>): View
    requires Inv(v.drv) && AllPossible(v, run)
    decreases |run|
  {
    if run == [] then v else After(Turned(v, run[0]), run[1..])
  }

  function AllComing(v: View, run: seq<Turn>): seq<byte>
    requires Inv(v.drv) && AllPossible(v, run)
    decreases |run|
  {
    if run == [] then [] else Coming(v, run[0]) + AllComing(Turned(v, run[0]), run[1..])
  }

  predicate HasLoss(v: View, run: seq<Turn>)
    requires Inv(v.drv) && AllPossible(v, run)
    decreases |run|
  {
    run != [] && (Loses(v, run[0]) || HasLoss(Turned(v, run[0]), run[1..]))
  }

  /** In each state along the run, what is held is `all` and what has come since, in order. */
  predicate AlwaysHeld(v: View, run: seq<Turn>, all: seq<byte>)
    requires Inv(v.drv) && AllPossible(v, run)
    decreases |run|
  {
    Held(v) == all && (run == [] || AlwaysHeld(Turned(v, run[0]), run[1..], all + Coming(v, run[0])))
  }

  /**
   * Over every run, with any number of offers, reads, restarts, failures and button presses: everything
   * accepted is with the reader, unread, in the running transfer, or in the FIFO, in order and at all
   * times, if and only if none of the turns above is taken.
   */
  lemma {:induction false} BytesAreKeptIff(v: View, run: seq<Turn>)
    requires Inv(v.drv) && AllPossible(v, run)
    ensures AlwaysHeld(v, run, Held(v)) <==> !HasLoss(v, run)
    decreases |run|
  {
    hide Held, Turned, Loses, Inv, Coming;
    if run != [] {
      TurnHolds(v, run[0]);
      var w := Turned(v, run[0]);
      BytesAreKeptIff(w, run[1..]);
      if Loses(v, run[0]) {
        assert !AlwaysHeld(w, run[1..], Held(v) + Coming(v, run[0]));
      }
    }
  }

  lemma {:induction false} HeldAtTheEnd(v: View, run: seq<Turn>, all: seq<byte>)
    requires Inv(v.drv) && AllPossible(v, run) && AlwaysHeld(v, run, all)
    ensures Held(After(v, run)) == all + AllComing(v, run)
    decreases |run|
  {
    hide Held, Turned, Inv, Coming;
    if run != [] {
      var w := Turned(v, run[0]);
      HeldAtTheEnd(w, run[1..], all + Coming(v, run[0]));
      assert all + Coming(v, run[0]) + AllComing(w, run[1..]) == all + (Coming(v, run[0]) + AllComing(w, run[1..]));
    } else {
      assert all + [] == all;
    }
  }

  /** After probe, with nothing to read. */
  function Probed(txBuf: seq<byte>, rxBuf: seq<byte>): (v: View)
    requires |txBuf| == |rxBuf| == DMA_BUFFER_SIZE
    ensures Inv(v.drv) && Held(v) == []
  {
    StartOk(txBuf, rxBuf);
    View(Start(txBuf, rxBuf), false, [])
  }

  /** From probe, without such a turn: once nothing is on its way, the reader has exactly what was accepted. */
  lemma ReaderGetsEverything(txBuf: seq<byte>, rxBuf: seq<byte>, run: seq<Turn>)
    requires |txBuf| == |rxBuf| == DMA_BUFFER_SIZE
    requires AllPossible(Probed(txBuf, rxBuf), run) && !HasLoss(Probed(txBuf, rxBuf), run)
    ensures var v := After(Probed(txBuf, rxBuf), run);
            Unread(v) == [] && Got(v.drv) == [] && v.drv.dev.rx == [] ==>
              v.collected == AllComing(Probed(txBuf, rxBuf), run)
  {
    hide Inv, Probed;
    var first := Probed(txBuf, rxBuf);
    BytesAreKeptIff(first, run);
    HeldAtTheEnd(first, run, []);
    var v := After(first, run);
    if Unread(v) == [] && Got(v.drv) == [] && v.drv.dev.rx == [] {
      assert Held(v) == v.collected;
      assert [] + AllComing(first, run) == AllComing(first, run);
    }
  }

  // ---- A second bottom half that takes it all back -------------------------------------------------

  /** The engine moves one more byte before the bottom half that was already scheduled runs. */
  lemma LateByte(s: Drv, q: seq<byte>, b: byte)
    requires HandOver(s, q) && Stopping(s, q) && !s.dev.ris.tx && |q| + 1 < DMA_BUFFER_SIZE
    ensures var s1 := Take(s, HostSets([b]));
      && Enabled(s1, MoveRx)
      && var s2 := Take(s1, MoveRx);
      && Inv(s2) && s2.rx == Active(|q| + 1) && s2.rxDmaWork && Got(s2) == q + [b]
      && s2.dev.rx == [] && s2.dev.ris.rxEmpty && !s2.dev.ris.rx && !s2.dev.ris.tx
  {
    StepKeepsInv(s, HostSets([b]));
    var s1 := Take(s, HostSets([b]));
    assert s1.dev.rx == [] + [b] == [b];
    StepKeepsInv(s1, MoveRx);
    var s2 := Take(s1, MoveRx);
    assert s2.rxBuf[..|q| + 1] == s1.rxBuf[..|q|] + [b];
  }

  /** That byte raises RX_EMPTY again, so that a second bottom half runs with no transfer to stop. */
  lemma StopTwice(s: Drv, residue: nat)
    requires Inv(s) && s.rx.Active? && s.rxDmaWork && residue <= DMA_BUFFER_SIZE
    requires s.dev.ris.rxEmpty && !s.dev.ris.rx && !s.dev.ris.tx
    ensures s.rx.moved <= DMA_BUFFER_SIZE && Enabled(s, StopRx(DMA_BUFFER_SIZE - s.rx.moved))
    ensures var s1 := Take(s, StopRx(DMA_BUFFER_SIZE - s.rx.moved));
      && Readable(s1) == Got(s) && s1.rx.Idle? && Enabled(s1, Interrupt)
      && var s2 := Take(s1, Interrupt);
      && Enabled(s2, StopRx(residue)) && s2.rx.Idle?
      && Take(s2, StopRx(residue)).rxSize == DMA_BUFFER_SIZE - residue
  {
    var stop := StopRx(DMA_BUFFER_SIZE - s.rx.moved);
    StopHandsOver(s, DMA_BUFFER_SIZE - s.rx.moved);
    StepKeepsInv(s, stop);
    MeetThree(s.dev.ris, s.dev.imsc);
  }

  /**
   * From probe, two bytes, the second offered after the first has been moved. The reader can read both;
   * then, with no restart and no button, the second bottom half leaves it 4096 less the residue that
   * the channel at rest reports, whatever that is.
   */
  lemma SecondStopTakesBack(txBuf: seq<byte>, rxBuf: seq<byte>, a: byte, b: byte, residue: nat)
    returns (s: Drv, t: Drv, u: Drv)
    requires |txBuf| == |rxBuf| == DMA_BUFFER_SIZE && residue <= DMA_BUFFER_SIZE
    ensures Reaches(Start(txBuf, rxBuf), s) && Readable(s) == [a, b]
    ensures Enabled(s, Interrupt) && t == Take(s, Interrupt) && t.rx.Idle?
    ensures Enabled(t, StopRx(residue)) && u == Take(t, StopRx(residue)) && u.rxSize == DMA_BUFFER_SIZE - residue
  {
    var first := Start(txBuf, rxBuf);
    s := ReachStopping(txBuf, rxBuf, a);
    hide Reaches, Inv, HandOver, Stopping;
    LateByte(s, [a], b);
    s := Reach(first, s, HostSets([b]));
    s := Reach(first, s, MoveRx);
    assert [a] + [b] == [a, b];
    StopTwice(s, residue);
    s := Reach(first, s, StopRx(DMA_BUFFER_SIZE - s.rx.moved));
    t := Take(s, Interrupt);
    u := Take(t, StopRx(residue));
  }
}
