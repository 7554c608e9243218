/** Receiving byte by byte over whole runs: any number of offers, at any time. */
module PioReceiveRuns {
  import opened Registers
  import opened Words
  import opened DeviceSpec
  import opened PioSystem
  import opened PioSafety
  import opened PioProgress
  import DeviceRuns

  /** As much of `data` as the buffer has slots for. */
  function Cut(data: seq<byte>): (r: seq<byte>)
    ensures |r| <= FIFO_SIZE
  {
    if |data| <= FIFO_SIZE then data else data[..FIFO_SIZE]
  }

  /** The next index into the buffer. */
  function Index(s: State): nat {
    if s.worker.Testing? || s.worker.Reading? then s.worker.i else 0
  }

  function Front(slots: seq<byte>, n: nat): seq<byte> {
    if n <= |slots| then slots[..n] else slots
  }

  /** What the bottom half has put into the buffer since it got the lock. */
  function Got(s: State): seq<byte> {
    Front(s.rxBuf, Index(s))
  }

  /** What the reader can read of the buffer. */
  function Readable(s: State): seq<byte> {
    Front(s.rxBuf, s.rxSize)
  }

  /** The bottom half finds the FIFO empty, and leaves the reader what it has. */
  predicate IsEnd(s: State, a: Action) {
    a.WorkerSteps? && s.worker.Testing? && s.dev.flag.rxfe
  }

  predicate IsRead(s: State, a: Action) {
    a.WorkerSteps? && s.worker.Reading?
  }

  /** The bottom half stores at an index the 32-byte buffer does not have. */
  predicate StoresPast(s: State, a: Action) {
    IsRead(s, a) && s.worker.i >= FIFO_SIZE
  }

  /** What a step adds to the receive FIFO. */
  function Entering(s: State, a: Action): seq<byte>
    requires Inv(s)
  {
    if a.HostSets? then Fitting(a.bytes, |s.dev.rx|) else []
  }

  /** A read takes the oldest byte of the FIFO to its slot, or past the buffer. */
  lemma ReadStores(s: State)
    requires Inv(s) && IsRead(s, WorkerSteps)
    ensures var t := Step(s, WorkerSteps);
      && s.dev.rx != [] && t.dev.rx == s.dev.rx[1..]
      && Index(t) == Index(s) + 1 && t.rxBuf == Store(s.rxBuf, Index(s), s.dev.rx[0]) && t.rxSize == s.rxSize
  {
    hide Meet, DevInv, WakeOk, StreamOk, ArrivedOk;
  }

  lemma WorkerElsewhere(s: State)
    requires Enabled(s, WorkerSteps) && !IsEnd(s, WorkerSteps) && !IsRead(s, WorkerSteps)
    ensures var t := Step(s, WorkerSteps);
      t.rxBuf == s.rxBuf && t.rxSize == s.rxSize && Index(t) == Index(s) && t.dev.rx == s.dev.rx
  {
    hide Meet;
  }

  lemma RestKeepsBytes(s: State, a: Action)
    requires Enabled(s, a) && !a.WorkerSteps? && !a.HostSets?
    ensures var t := Step(s, a);
      t.rxBuf == s.rxBuf && t.rxSize == s.rxSize && Index(t) == Index(s) && t.dev.rx == s.dev.rx
  {
    hide Meet, Toggle, And, Put, WorkerStep;
  }

  lemma OfferAppends(s: State, bytes: seq<byte>)
    requires Inv(s)
    ensures var t := Step(s, HostSets(bytes));
      && t.rxBuf == s.rxBuf && t.rxSize == s.rxSize && Index(t) == Index(s)
      && t.dev.rx == s.dev.rx + Fitting(bytes, |s.dev.rx|)
  {
    hide Meet, WakeOk, StreamOk, ArrivedOk;
  }

  /** Everything but a read and an end leaves the buffer, and only adds an offer to the FIFO. */
  lemma OthersAppend(s: State, a: Action)
    requires Inv(s) && Enabled(s, a) && !IsEnd(s, a) && !IsRead(s, a)
    ensures var t := Step(s, a);
      && t.rxBuf == s.rxBuf && t.rxSize == s.rxSize && Index(t) == Index(s)
      && t.dev.rx == s.dev.rx + Entering(s, a)
  {
    hide Step, Index, IsEnd, IsRead, Inv;
    assert s.dev.rx + [] == s.dev.rx;
    if a.WorkerSteps? {
      WorkerElsewhere(s);
    } else if a.HostSets? {
      OfferAppends(s, a.bytes);
    } else {
      RestKeepsBytes(s, a);
    }
  }

  lemma BufferHas32(s: State)
    requires Inv(s)
    ensures |s.rxBuf| == FIFO_SIZE
  {
  }

  lemma StoreGrows(slots: seq<byte>, i: nat, x: byte, rx: seq<byte>)
    requires i < |slots|
    ensures Front(Store(slots, i, x), i + 1) + rx == Front(slots, i) + ([x] + rx)
  {
    assert slots[i := x][..i + 1] == slots[..i] + [x];
    assert (slots[..i] + [x]) + rx == slots[..i] + ([x] + rx);
  }

  /**
   * Until the bottom half ends, bytes only pass from the host through the FIFO to the buffer; one that
   * is stored past the buffer is gone.
   */
  lemma StepKeepsBytes(s: State, a: Action)
    requires Inv(s) && Enabled(s, a) && !IsEnd(s, a)
    ensures var t := Step(s, a);
      && t.rxSize == s.rxSize
      && if StoresPast(s, a) then s.dev.rx != [] && t.rxBuf == s.rxBuf && Got(t) + t.dev.rx == Got(s) + s.dev.rx[1..]
         else Got(t) + t.dev.rx == Got(s) + s.dev.rx + Entering(s, a)
  {
    hide Step, Index, IsEnd, Inv;
    BufferHas32(s);
    if IsRead(s, a) {
      ReadStores(s);
      ReadIndex(s, a);
      if !StoresPast(s, a) {
        StoreGrows(s.rxBuf, Index(s), s.dev.rx[0], s.dev.rx[1..]);
        assert [s.dev.rx[0]] + s.dev.rx[1..] == s.dev.rx;
        assert Got(s) + s.dev.rx + [] == Got(s) + s.dev.rx;
      }
    } else {
      OthersAppend(s, a);
      assert Got(s) + (s.dev.rx + Entering(s, a)) == Got(s) + s.dev.rx + Entering(s, a);
    }
  }

  lemma ReadIndex(s: State, a: Action)
    requires IsRead(s, a)
    ensures Index(s) == s.worker.i
  {
  }

  /** The end hands over exactly what is in the buffer of what was read, and leaves nothing behind. */
  lemma EndHandsOver(s: State)
    requires Inv(s) && IsEnd(s, WorkerSteps)
    ensures Enabled(s, WorkerSteps)
    ensures var t := Step(s, WorkerSteps);
      && t.rxSize == Index(s) && t.rxBuf == s.rxBuf && Readable(t) == Got(s) && Got(t) == []
      && s.dev.rx == [] && t.dev.rx == []
  {
  }

  // ---- Runs --------------------------------------------------------------------------------------

  function Next(s: State, a: Action): (t: State)
    requires Inv(s) && Enabled(s, a)
    ensures Inv(t) && t == Step(s, a)
  {
    StepKeepsInv(s, a);
    Step(s, a)
  }

  /** Everything the host offered that found room. */
  function Accepted(s: State, run: seq<Action>): seq<byte>
    requires Inv(s) && Legal(s, run)
    decreases |run|
  {
    if run == [] then [] else Entering(s, run[0]) + Accepted(Next(s, run[0]), run[1..])
  }

  /** Everything the bottom half read. */
  function BytesRead(s: State, run: seq<Action>): seq<byte>
    requires Inv(s) && Legal(s, run)
    decreases |run|
  {
    if run == [] then [] else
    (if IsRead(s, run[0]) && s.dev.rx != [] then [s.dev.rx[0]] else []) + BytesRead(Next(s, run[0]), run[1..])
  }

  predicate HasEnd(s: State, run: seq<Action>)
    requires Legal(s, run)
    decreases |run|
  {
    run != [] && (IsEnd(s, run[0]) || HasEnd(Step(s, run[0]), run[1..]))
  }

  lemma StepReads(s: State, a: Action)
    requires Inv(s) && Enabled(s, a)
    ensures (if IsRead(s, a) && s.dev.rx != [] then [s.dev.rx[0]] else []) + Next(s, a).dev.rx
         == s.dev.rx + Entering(s, a)
  {
    hide Inv, Step;
    if IsRead(s, a) {
      ReadStores(s);
    } else if IsEnd(s, a) {
      EndHandsOver(s);
    } else {
      OthersAppend(s, a);
    }
  }

  /** What was accepted is read in order. */
  lemma {:induction false} ReadsInOrder(s: State, run: seq<Action>)
    requires Inv(s) && Legal(s, run)
    ensures BytesRead(s, run) + Run(s, run).dev.rx == s.dev.rx + Accepted(s, run)
    decreases |run|
  {
    hide Inv, Step, Entering, IsRead;
    if run != [] {
      var a, t, u := run[0], Next(s, run[0]), Run(s, run);
      ReadsInOrder(t, run[1..]);
      StepReads(s, a);
      DeviceRuns.Chain(if IsRead(s, a) && s.dev.rx != [] then [s.dev.rx[0]] else [], BytesRead(t, run[1..]),
                       s.dev.rx, t.dev.rx, u.dev.rx, Entering(s, a), Accepted(t, run[1..]));
    }
  }

  /** The slots after bytes were stored one after the other from index `i` on. */
  function Placed(slots: seq<byte>, i: nat, data: seq<byte>): (r: seq<byte>)
    ensures |r| == |slots|
    decreases |data|
  {
    if data == [] then slots else Placed(Store(slots, i, data[0]), i + 1, data[1..])
  }

  lemma {:induction false} PlacedAt(slots: seq<byte>, i: nat, data: seq<byte>, k: nat)
    requires k < |slots|
    ensures Placed(slots, i, data)[k] == if i <= k < i + |data| then data[k - i] else slots[k]
    decreases |data|
  {
    if data != [] {
      PlacedAt(Store(slots, i, data[0]), i + 1, data[1..], k);
    }
  }

  lemma PlacedFromFront(slots: seq<byte>, data: seq<byte>)
    requires |slots| == FIFO_SIZE
    ensures Front(Placed(slots, 0, data), |data|) == Cut(data)
  {
    var all := Placed(slots, 0, data);
    forall k | 0 <= k < |Cut(data)|
      ensures all[k] == data[k]
    {
      PlacedAt(slots, 0, data, k);
    }
    assert Front(all, |data|) == Cut(data);
  }

  /** Without an end, what was read stands in its slots, and the reader's count is untouched. */
  lemma {:induction false} NoEndPlaces(s: State, run: seq<Action>)
    requires Inv(s) && Legal(s, run) && !HasEnd(s, run)
    ensures var t := Run(s, run);
      && Inv(t) && t.rxSize == s.rxSize
      && Index(t) == Index(s) + |BytesRead(s, run)|
      && t.rxBuf == Placed(s.rxBuf, Index(s), BytesRead(s, run))
    decreases |run|
  {
    hide Inv, Step, IsEnd, IsRead, Index;
    if run != [] {
      var a, t := run[0], Next(s, run[0]);
      NoEndPlaces(t, run[1..]);
      if IsRead(s, a) {
        ReadIsWorker(s, a);
        ReadStores(s);
        assert BytesRead(s, run) == [s.dev.rx[0]] + BytesRead(t, run[1..]);
        assert BytesRead(s, run)[1..] == BytesRead(t, run[1..]);
      } else {
        OthersAppend(s, a);
        assert BytesRead(s, run) == BytesRead(t, run[1..]);
      }
    }
  }

  lemma ReadIsWorker(s: State, a: Action)
    requires IsRead(s, a)
    ensures a == WorkerSteps
  {
  }

  /**
   * From one end to the next, however many offers come: the reader's count stays as it is, and then is
   * the number of the bytes accepted in between; the buffer holds the first 32 of them, so the reader
   * has all of them if and only if there are at most 32.
   */
  lemma EachEndHandsOverWhatCame(s: State, run: seq<Action>)
    requires Inv(s) && Index(s) == 0 && s.dev.rx == [] && Legal(s, run) && !HasEnd(s, run)
    ensures Run(s, run).rxSize == s.rxSize
    ensures IsEnd(Run(s, run), WorkerSteps) ==>
              var t := Step(Run(s, run), WorkerSteps);
              && t.rxSize == |Accepted(s, run)|
              && Readable(t) == Cut(Accepted(s, run))
              && (Readable(t) == Accepted(s, run) <==> |Accepted(s, run)| <= FIFO_SIZE)
  {
    hide Inv, Step, IsEnd;
    NoEndPlaces(s, run);
    if IsEnd(Run(s, run), WorkerSteps) {
      EndHandsOver(Run(s, run));
      ReadsInOrder(s, run);
      assert BytesRead(s, run) == BytesRead(s, run) + [] == [] + Accepted(s, run) == Accepted(s, run);
      BufferHas32(s);
      PlacedFromFront(s.rxBuf, Accepted(s, run));
    }
  }

  // ---- The index into the buffer -------------------------------------------------------------------

  predicate Overruns(s: State, run: seq<Action>)
    requires Legal(s, run)
    decreases |run|
  {
    run != [] && (StoresPast(s, run[0]) || Overruns(Step(s, run[0]), run[1..]))
  }

  lemma StepStores(s: State, a: Action)
    requires Inv(s) && Enabled(s, a) && !IsEnd(s, a)
    ensures Index(Step(s, a)) == Index(s) + if IsRead(s, a) then 1 else 0
  {
    hide Inv, Step;
    if IsRead(s, a) {
      ReadStores(s);
    } else {
      OthersAppend(s, a);
    }
  }

  lemma {:induction false} OverrunsWhen(s: State, run: seq<Action>)
    requires Inv(s) && Legal(s, run) && !HasEnd(s, run) && Index(s) <= FIFO_SIZE
    ensures Overruns(s, run) <==> Index(Run(s, run)) > FIFO_SIZE
    decreases |run|
  {
    hide Inv, Step, IsEnd;
    if run != [] {
      StepStores(s, run[0]);
      if Index(Next(s, run[0])) <= FIFO_SIZE {
        OverrunsWhen(Next(s, run[0]), run[1..]);
      } else {
        NoEndPlaces(Next(s, run[0]), run[1..]);
      }
    }
  }

  /**
   * From the lock to its end, a bottom half stores only at indices below 32 if and only if the bytes it
   * found in the FIFO and those accepted while it was at work are 32 at most.
   */
  lemma StaysInBufferIff(s: State, run: seq<Action>)
    requires Inv(s) && s.worker == Testing(0) && Legal(s, run) && !HasEnd(s, run)
    requires IsEnd(Run(s, run), WorkerSteps)
    ensures !Overruns(s, run) <==> |s.dev.rx| + |Accepted(s, run)| <= FIFO_SIZE
  {
    hide Inv, Step;
    OverrunsWhen(s, run);
    NoEndPlaces(s, run);
    ReadsInOrder(s, run);
    EndHandsOver(Run(s, run));
    assert |BytesRead(s, run)| == |BytesRead(s, run) + []| == |s.dev.rx + Accepted(s, run)|;
  }

  // ---- Both happen ---------------------------------------------------------------------------------

  ghost predicate Reaches(s: State, t: State) {
    exists run :: Legal(s, run) && Run(s, run) == t
  }

  lemma {:induction false} Extend(s: State, run: seq<Action>, a: Action)
    requires Legal(s, run) && Enabled(Run(s, run), a)
    ensures Legal(s, run + [a]) && Run(s, run + [a]) == Step(Run(s, run), a)
    decreases |run|
  {
    if run == [] {
      assert run + [a] == [a] && [a][1..] == [];
      assert Legal(Step(s, a), []);
    } else {
      assert (run + [a])[1..] == run[1..] + [a];
      Extend(Step(s, run[0]), run[1..], a);
    }
  }

  lemma Reach(s: State, t: State, a: Action) returns (r: State)
    requires Reaches(s, t) && Enabled(t, a)
    ensures r == Step(t, a) && Reaches(s, r)
  {
    var run :| Legal(s, run) && Run(s, run) == t;
    Extend(s, run, a);
    r := Step(t, a);
  }

  lemma ReachesItself(s: State)
    ensures Reaches(s, s)
  {
    assert Legal(s, []) && Run(s, []) == s;
  }

  /** The handler turns a pending RX into scheduled work. */
  lemma Schedule(s: State, t: State) returns (r: State)
    requires Reaches(s, t) && DeviceOk(t) && t.handler.Resting? && t.dev.ris.rx && !t.dev.ris.tx
    ensures Reaches(s, r) && DeviceOk(r) && r == t.(dev := r.dev, workPending := true)
    ensures r.dev == t.dev.(ris := r.dev.ris, irq := r.dev.irq) && !r.dev.ris.rx && !r.dev.ris.tx
  {
    hide Reaches, DevInv;
    LineMeans(t);
    AcknowledgeEffect(t);
    r := Reach(s, t, HandlerSteps);
    r := Reach(s, r, HandlerSteps);
    assert r.handler.AckRx?;
    KeepsDevice(r, HandlerSteps);
    r := Reach(s, r, HandlerSteps);
    r := Reach(s, r, HandlerSteps);
  }

  /** The bottom half takes the lock. */
  lemma TakeLock(s: State, t: State) returns (r: State)
    requires Reaches(s, t) && t.workPending && t.worker.Idle? && t.lock.Free?
    ensures Reaches(s, r) && r == t.(workPending := false, worker := Testing(0), lock := ByWorker)
  {
    hide Reaches;
    r := Reach(s, t, WorkerSteps);
    r := Reach(s, r, WorkerSteps);
  }

  /** From probe: one byte offered, and a bottom half with the lock. */
  lemma FirstByte(a: byte) returns (r: State)
    ensures Reaches(Start(), r) && DeviceOk(r) && r.dev.rx == [a] && !r.dev.ris.tx && !r.dev.ris.rx
    ensures r.handler.Resting? && !r.workPending && r.worker == Testing(0) && r.lock.ByWorker?
    ensures |r.rxBuf| == FIFO_SIZE
  {
    var s := Start();
    ReachesItself(s);
    StartOk();
    hide Reaches, DevInv;
    KeepsDevice(s, HostSets([a]));
    r := Reach(s, s, HostSets([a]));
    assert r.dev.rx == [] + [a] == [a];
    r := Schedule(s, r);
    r := TakeLock(s, r);
  }

  /** The bottom half reads the first byte of the FIFO. */
  lemma ReadOne(s: State, t: State) returns (r: State)
    requires Reaches(s, t) && DeviceOk(t) && t.worker.Testing? && t.dev.rx != []
    ensures Reaches(s, r) && DeviceOk(r) && r == t.(dev := r.dev, rxBuf := r.rxBuf, worker := Testing(t.worker.i + 1))
    ensures r.rxBuf == Store(t.rxBuf, t.worker.i, t.dev.rx[0])
    ensures r.dev.rx == t.dev.rx[1..] && r.dev.ris.tx == t.dev.ris.tx
    ensures r.dev.ris.rx == (t.dev.ris.rx && r.dev.rx != [])
  {
    hide Reaches;
    r := Reach(s, t, WorkerSteps);
    assert r.worker.Reading?;
    KeepsDevice(r, WorkerSteps);
    r := Reach(s, r, WorkerSteps);
  }

  lemma EndDrain(s: State, t: State) returns (r: State)
    requires Reaches(s, t) && DeviceOk(t) && t.worker.Testing? && t.dev.rx == []
    ensures Reaches(s, r) && r == t.(rxSize := t.worker.i, lock := Free, worker := Idle)
  {
    hide Reaches;
    r := Reach(s, t, WorkerSteps);
  }

  lemma Offer(s: State, t: State, b: byte) returns (r: State)
    requires Reaches(s, t) && DeviceOk(t) && |t.dev.rx| < CAPACITY
    ensures Reaches(s, r) && DeviceOk(r) && r == t.(dev := r.dev) && r.dev.rx == t.dev.rx + [b]
    ensures r.dev.ris.rx && r.dev.ris.tx == t.dev.ris.tx
  {
    hide Reaches;
    KeepsDevice(t, HostSets([b]));
    r := Reach(s, t, HostSets([b]));
  }

  /**
   * Two offers, the second during the drain of the first. The bottom half reads both, and its second
   * run, which the second offer has scheduled, finds nothing and leaves the reader nothing.
   */
  lemma SecondOfferForgets(a: byte, b: byte) returns (r: State, t: State)
    ensures Reaches(Start(), r) && Readable(r) == [a, b]
    ensures Reaches(r, t) && Readable(t) == Got(t) == t.dev.rx == []
  {
    var s := Start();
    r := FirstByte(a);
    hide Reaches, DevInv;
    r := Offer(s, r, b);
    r := Schedule(s, r);
    r := ReadOne(s, r);
    r := ReadOne(s, r);
    r := EndDrain(s, r);
    assert r.rxSize == 2 && r.rxBuf[..2] == [a, b];
    ReachesItself(r);
    t := TakeLock(r, r);
    t := EndDrain(r, t);
  }

  /** If the host offers a byte for each the bottom half reads, the index reaches the end of the buffer. */
  lemma {:induction false} IndexReaches(n: nat, a: byte) returns (r: State)
    requires n <= FIFO_SIZE
    ensures Reaches(Start(), r) && DeviceOk(r) && r.worker.Testing? && r.worker.i == n && r.dev.rx == [a]
    decreases n
  {
    var s := Start();
    if n == 0 {
      r := FirstByte(a);
    } else {
      r := IndexReaches(n - 1, a);
      hide Reaches, DevInv;
      r := Offer(s, r, a);
      assert r.dev.rx == [a, a];
      r := ReadOne(s, r);
    }
  }

  /** So a run from probe can store past the buffer. */
  lemma OverrunIsReachable(a: byte) returns (r: State)
    ensures Reaches(Start(), r) && Enabled(r, WorkerSteps) && StoresPast(r, WorkerSteps)
  {
    r := IndexReaches(FIFO_SIZE, a);
    hide Reaches;
    r := Reach(Start(), r, WorkerSteps);
  }
}
