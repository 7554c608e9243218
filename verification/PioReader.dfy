/**
 * What a reader of the byte-at-a-time driver gets, over whole runs. The reader reads everything there is
 * to read, once after each bottom half, whenever the lock lets it.
 */
module PioReader {
  import opened Registers
  import opened PioSystem
  import opened PioSafety
  import opened PioReceiveRuns
  import DeviceRuns

  /** `isNew` until what the last bottom half left has been read; `collected` is all the reader got. */
  datatype View = View(sys: State, isNew: bool, collected: seq<byte>)

  datatype Turn = Drives(a: Action) | Reads

  predicate Possible(v: View, t: Turn) {
    if t.Drives? then Enabled(v.sys, t.a) else v.sys.lock.Free?
  }

  function Unread(v: View): seq<byte> {
    if v.isNew then Readable(v.sys) else []
  }

  function Take(v: View, t: Turn): (w: View)
    requires Inv(v.sys) && Possible(v, t)
    ensures Inv(w.sys)
  {
    match t
    case Drives(a) => View(Next(v.sys, a), v.isNew || IsEnd(v.sys, a), v.collected)
    case Reads => View(v.sys, false, v.collected + Unread(v))
  }

  /** Everything on its way to the reader: with the reader, unread, in the bottom half, in the FIFO. */
  function Held(v: View): seq<byte> {
    v.collected + (Unread(v) + (Got(v.sys) + v.sys.dev.rx))
  }

  function Coming(v: View, t: Turn): seq<byte>
    requires Inv(v.sys)
  {
    if t.Drives? then Entering(v.sys, t.a) else []
  }

  /** A byte is stored over an unread one that is not the same. */
  predicate Overwrites(v: View, a: Action) {
    && IsRead(v.sys, a) && !StoresPast(v.sys, a) && v.sys.dev.rx != []
    && Index(v.sys) < |Unread(v)| && Unread(v)[Index(v.sys)] != v.sys.dev.rx[0]
  }

  /** The turns that cost the reader something. */
  predicate Loses(v: View, t: Turn) {
    t.Drives? && (StoresPast(v.sys, t.a) || Overwrites(v, t.a) || (IsEnd(v.sys, t.a) && Unread(v) != []))
  }

  lemma StoreKeepsFront(slots: seq<byte>, i: nat, x: byte, n: nat)
    ensures |Front(Store(slots, i, x), n)| == |Front(slots, n)|
    ensures Front(Store(slots, i, x), n) == Front(slots, n)
       <==> !(i < |Front(slots, n)| && Front(slots, n)[i] != x)
  {
    var was, now := Front(slots, n), Front(Store(slots, i, x), n);
    if i < |was| {
      assert now[i] == x;
      assert now == was[i := x];
      assert was[i] == x ==> now == was;
    } else {
      assert now == was;
    }
  }

  lemma ReadHolds(v: View, a: Action)
    requires Inv(v.sys) && IsRead(v.sys, a)
    ensures Possible(v, Drives(a))
    ensures Held(Take(v, Drives(a))) == Held(v) + [] <==> !Loses(v, Drives(a))
  {
    var s, t := v.sys, Next(v.sys, a);
    var w := Take(v, Drives(a));
    ReadStores(s);
    StepKeepsBytes(s, a);
    BufferHas32(s);
    assert Held(v) + [] == Held(v);
    hide Inv, Step, Got, Next;
    if StoresPast(s, a) {
      assert |Held(w)| < |Held(v)|;
    } else {
      StoreKeepsFront(s.rxBuf, Index(s), s.dev.rx[0], s.rxSize);
      assert Got(s) + s.dev.rx + [] == Got(s) + s.dev.rx;
      DeviceRuns.SameEnds(v.collected, Unread(v), Unread(w), Got(s) + s.dev.rx);
    }
  }

  lemma EndHolds(v: View, a: Action)
    requires Inv(v.sys) && IsEnd(v.sys, a)
    ensures Possible(v, Drives(a))
    ensures Held(Take(v, Drives(a))) == Held(v) + [] <==> !Loses(v, Drives(a))
  {
    EndHandsOver(v.sys);
    var w := Take(v, Drives(a));
    assert Held(v) + [] == Held(v);
    hide Inv, Step, Got, Readable;
    var got := Got(v.sys);
    assert got + [] == got && [] + got == got;
    assert Held(w) == v.collected + got && Held(v) == v.collected + (Unread(v) + got);
  }

  lemma SameBuffer(s: State, t: State)
    requires t.rxBuf == s.rxBuf && t.rxSize == s.rxSize && Index(t) == Index(s)
    ensures Got(t) == Got(s) && Readable(t) == Readable(s)
  {
  }

  lemma Append(a: seq<byte>, b: seq<byte>, c: seq<byte>, d: seq<byte>, more: seq<byte>)
    ensures a + (b + (c + (d + more))) == a + (b + (c + d)) + more
  {
  }

  lemma OtherHolds(v: View, a: Action)
    requires Inv(v.sys) && Enabled(v.sys, a) && !IsEnd(v.sys, a) && !IsRead(v.sys, a)
    ensures Held(Take(v, Drives(a))) == Held(v) + Coming(v, Drives(a)) && !Loses(v, Drives(a))
  {
    hide Inv, Step, Enabled, IsEnd, IsRead, Got, Readable, Index, Entering;
    OthersAppend(v.sys, a);
    SameBuffer(v.sys, Next(v.sys, a));
    Append(v.collected, Unread(v), Got(v.sys), v.sys.dev.rx, Entering(v.sys, a));
  }

  /** One turn keeps what is held, and adds what the host offers, exactly when it is not one of those. */
  lemma TurnHolds(v: View, t: Turn)
    requires Inv(v.sys) && Possible(v, t)
    ensures Held(Take(v, t)) == Held(v) + Coming(v, t) <==> !Loses(v, t)
  {
    if t.Reads? {
      var q := Got(v.sys) + v.sys.dev.rx;
      assert (v.collected + Unread(v)) + ([] + q) == v.collected + (Unread(v) + q) + [];
    } else if IsRead(v.sys, t.a) {
      ReadHolds(v, t.a);
    } else if IsEnd(v.sys, t.a) {
      EndHolds(v, t.a);
    } else {
      OtherHolds(v, t.a);
    }
  }

  // ---- Runs --------------------------------------------------------------------------------------

  predicate AllPossible(v: View, run: seq<Turn>)
    requires Inv(v.sys)
    decreases |run|
  {
    run == [] || (Possible(v, run[0]) && AllPossible(Take(v, run[0]), run[1..]))
  }

  function After(v: View, run: seq<Turn>): View
    requires Inv(v.sys) && AllPossible(v, run)
    decreases |run|
  {
    if run == [] then v else After(Take(v, run[0]), run[1..])
  }

  function AllComing(v: View, run: seq<Turn>): seq<byte>
    requires Inv(v.sys) && AllPossible(v, run)
    decreases |run|
  {
    if run == [] then [] else Coming(v, run[0]) + AllComing(Take(v, run[0]), run[1..])
  }

  predicate HasLoss(v: View, run: seq<Turn>)
    requires Inv(v.sys) && AllPossible(v, run)
    decreases |run|
  {
    run != [] && (Loses(v, run[0]) || HasLoss(Take(v, run[0]), run[1..]))
  }

  /** In each state along the run, what is held is `all` and what has come since, in order. */
  predicate AlwaysHeld(v: View, run: seq<Turn>, all: seq<byte>)
    requires Inv(v.sys) && AllPossible(v, run)
    decreases |run|
  {
    Held(v) == all && (run == [] || AlwaysHeld(Take(v, run[0]), run[1..], all + Coming(v, run[0])))
  }

  /**
   * Over every run, with any number of offers and reads at any time: everything accepted is with the
   * reader, unread, with the bottom half, or in the FIFO, in order and at all times, if and only if
   * no byte is stored over a different unread one or past the buffer, and no bottom half ends over
   * unread bytes.
   */
  lemma {:induction false} BytesAreKeptIff(v: View, run: seq<Turn>)
    requires Inv(v.sys) && AllPossible(v, run)
    ensures AlwaysHeld(v, run, Held(v)) <==> !HasLoss(v, run)
    decreases |run|
  {
    hide Held, Take, Loses, Inv, Coming;
    if run != [] {
      TurnHolds(v, run[0]);
      var w := Take(v, run[0]);
      BytesAreKeptIff(w, run[1..]);
      if Loses(v, run[0]) {
        assert !AlwaysHeld(w, run[1..], Held(v) + Coming(v, run[0]));
      }
    }
  }

  lemma {:induction false} HeldAtTheEnd(v: View, run: seq<Turn>, all: seq<byte>)
    requires Inv(v.sys) && AllPossible(v, run) && AlwaysHeld(v, run, all)
    ensures Held(After(v, run)) == all + AllComing(v, run)
    decreases |run|
  {
    hide Held, Take, Inv, Coming;
    if run != [] {
      var w := Take(v, run[0]);
      HeldAtTheEnd(w, run[1..], all + Coming(v, run[0]));
      assert all + Coming(v, run[0]) + AllComing(w, run[1..]) == all + (Coming(v, run[0]) + AllComing(w, run[1..]));
    } else {
      assert all + [] == all;
    }
  }

  /** After probe, with nothing to read. */
  function Probed(): (v: View)
    ensures Inv(v.sys) && Held(v) == []
  {
    StartOk();
    View(Start(), false, [])
  }

  /** From probe, without such a turn: once nothing is on its way, the reader has exactly what was accepted. */
  lemma ReaderGetsEverything(run: seq<Turn>)
    requires AllPossible(Probed(), run) && !HasLoss(Probed(), run)
    ensures var v := After(Probed(), run);
            Unread(v) == [] && Got(v.sys) == [] && v.sys.dev.rx == [] ==> v.collected == AllComing(Probed(), run)
  {
    hide Inv, Probed;
    BytesAreKeptIff(Probed(), run);
    HeldAtTheEnd(Probed(), run, []);
    var v := After(Probed(), run);
    if Unread(v) == [] && Got(v.sys) == [] && v.sys.dev.rx == [] {
      assert Held(v) == v.collected;
      assert [] + AllComing(Probed(), run) == AllComing(Probed(), run);
    }
  }
}
