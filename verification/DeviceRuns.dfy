/** What holds over every run of bus and host accesses, from power-on. */
module DeviceRuns {
  import opened Registers
  import opened Words
  import opened DeviceSpec

  function Run(d: Dev, accesses: seq<Access>): Dev
    requires DevInv(d)
    decreases |accesses|
  {
    if accesses == [] then d else
    ApplyKeepsInv(d, accesses[0]);
    Run(Apply(d, accesses[0]), accesses[1..])
  }

  lemma {:induction false} RunKeepsInv(d: Dev, accesses: seq<Access>)
    requires DevInv(d)
    ensures DevInv(Run(d, accesses))
    decreases |accesses|
  {
    if accesses != [] {
      ApplyKeepsInv(d, accesses[0]);
      RunKeepsInv(Apply(d, accesses[0]), accesses[1..]);
    }
  }

  /** Flags, interrupt line and transmit back-pressure are right in every reachable state. */
  lemma EveryRunIsConsistent(variant: Variant, accesses: seq<Access>)
    ensures DevInv(Run(Init(variant), accesses))
  {
    RunKeepsInv(Init(variant), accesses);
  }

  /** The accesses after which the receive line means something. */
  predicate Primes(a: Access) {
    a == Read(DR) || (a.Set? && a.bytes != [])
  }

  predicate Primed(accesses: seq<Access>) {
    exists i :: 0 <= i < |accesses| && Primes(accesses[i])
  }

  lemma PrimedSplit(accesses: seq<Access>)
    requires accesses != []
    ensures Primed(accesses) <==> Primes(accesses[0]) || Primed(accesses[1..])
  {
    if i :| 0 <= i < |accesses| && Primes(accesses[i]) {
      assert i == 0 || Primes(accesses[1..][i - 1]);
    }
    if i :| 0 <= i < |accesses| - 1 && Primes(accesses[1..][i]) {
      assert Primes(accesses[i + 1]);
    }
  }

  lemma StepFaithful(d: Dev, a: Access)
    requires DevInv(d) && d.variant.Dma?
    ensures Apply(d, a).variant == d.variant
    ensures RxFaithful(Apply(d, a)) <==> RxFaithful(d) || Primes(a)
  {
    hide FlagInv, Meet, Toggle;
    match a
    case Read(offset) => ReadDrKeepsInv(d);
    case Write(offset, value) =>
    case Get =>
    case Set(bytes) => SetDataKeepsInv(d, bytes);
  }

  lemma {:induction false} FaithfulOnceReached(d: Dev, accesses: seq<Access>)
    requires DevInv(d) && d.variant.Dma?
    ensures RxFaithful(Run(d, accesses)) <==> RxFaithful(d) || Primed(accesses)
    decreases |accesses|
  {
    if accesses != [] {
      ApplyKeepsInv(d, accesses[0]);
      StepFaithful(d, accesses[0]);
      FaithfulOnceReached(Apply(d, accesses[0]), accesses[1..]);
      PrimedSplit(accesses);
    }
  }

  /**
   * The receive back-pressure line starts low over an empty queue, so it is high exactly when the
   * queue is empty if and only if the data register was read or bytes were offered before.
   */
  lemma RxLineExactOncePrimed(accesses: seq<Access>)
    ensures RxFaithful(Run(Init(Dma), accesses)) <==> Primed(accesses)
  {
    FaithfulOnceReached(Init(Dma), accesses);
  }

  // ---- The streams ---------------------------------------------------------------------------

  /** The bytes the host takes in a run. */
  function Taken(d: Dev, accesses: seq<Access>): seq<byte>
    requires DevInv(d)
    decreases |accesses|
  {
    if accesses == [] then [] else
    ApplyKeepsInv(d, accesses[0]);
    (if accesses[0].Get? then GetData(d).1 else []) + Taken(Apply(d, accesses[0]), accesses[1..])
  }

  /** The byte of a word that the data register takes: the remainder of the word by 256. */
  function Sent(value: word): byte {
    (value % 256) as byte
  }

  /** The low bytes of the words written to the data register in a run while there is room. */
  function Accepted(d: Dev, accesses: seq<Access>): seq<byte>
    requires DevInv(d)
    decreases |accesses|
  {
    if accesses == [] then [] else
    ApplyKeepsInv(d, accesses[0]);
    (if accesses[0].Write? && accesses[0].offset == DR && !d.flag.txff then [Sent(accesses[0].value)] else [])
    + Accepted(Apply(d, accesses[0]), accesses[1..])
  }

  /** The words that bus reads of the data register return while the receive FIFO is not empty. */
  function Delivered(d: Dev, accesses: seq<Access>): seq<word>
    requires DevInv(d)
    decreases |accesses|
  {
    if accesses == [] then [] else
    ApplyKeepsInv(d, accesses[0]);
    (if accesses[0] == Read(DR) && !d.flag.rxfe then [BusRead(d, DR).1] else [])
    + Delivered(Apply(d, accesses[0]), accesses[1..])
  }

  /** The bytes of the host that fit when it offers them. */
  function Offered(d: Dev, accesses: seq<Access>): seq<byte>
    requires DevInv(d)
    decreases |accesses|
  {
    if accesses == [] then [] else
    ApplyKeepsInv(d, accesses[0]);
    (if accesses[0].Set? then Fitting(accesses[0].bytes, |d.rx|) else [])
    + Offered(Apply(d, accesses[0]), accesses[1..])
  }

  function Gets(accesses: seq<Access>): nat {
    if accesses == [] then 0 else (if accesses[0].Get? then 1 else 0) + Gets(accesses[1..])
  }

  /** Two steps that each pass bytes through a queue pass them through it together. */
  lemma Chain<T>(out: seq<T>, out': seq<T>, q: seq<T>, q': seq<T>, q'': seq<T>, enter: seq<T>, enter': seq<T>)
    requires out + q' == q + enter
    requires out' + q'' == q' + enter'
    ensures (out + out') + q'' == q + (enter + enter')
  {
    assert (out + out') + q'' == out + (out' + q'');
    assert out + (q' + enter') == (out + q') + enter';
    assert (q + enter) + enter' == q + (enter + enter');
  }

  /** Between the same ends, sequences of one length make up the same only if they are the same. */
  lemma SameEnds(a: seq<byte>, b: seq<byte>, b': seq<byte>, c: seq<byte>)
    requires |b| == |b'|
    ensures a + (b + c) == a + (b' + c) <==> b == b'
  {
    if a + (b + c) == a + (b' + c) {
      assert b == (a + (b + c))[|a|..|a| + |b|];
      assert b' == (a + (b' + c))[|a|..|a| + |b|];
    }
  }

  lemma StepConservesTx(d: Dev, a: Access)
    requires DevInv(d)
    ensures (if a.Get? then GetData(d).1 else []) + Apply(d, a).tx ==
            d.tx + if a.Write? && a.offset == DR && !d.flag.txff then [Sent(a.value)] else []
  {
    hide Meet, Toggle, BusyInv;
  }

  /** Bytes as the words of the bus. */
  function AsWords(s: seq<byte>): (r: seq<word>)
    ensures |r| == |s| && forall i :: 0 <= i < |s| ==> r[i] == s[i] as nat
  {
    seq(|s|, i requires 0 <= i < |s| => s[i] as nat)
  }

  lemma AsWordsConcat(a: seq<byte>, b: seq<byte>)
    ensures AsWords(a + b) == AsWords(a) + AsWords(b)
  {
  }

  /** A read of the data register brings the oldest byte over the bus, and 0 when there is none. */
  lemma ReadBringsOldest(d: Dev)
    ensures BusRead(d, DR).1 == if d.rx == [] then 0 else d.rx[0] as nat
    ensures BusRead(d, DR).0.rx == if d.rx == [] then [] else d.rx[1..]
  {
    hide Meet;
  }

  /** Whatever the upper bits of the word, its low byte joins the queue if there is room. */
  lemma WriteSendsLowByte(d: Dev, x: byte, k: nat)
    requires DevInv(d) && 256 * k + x as nat < 0x1_0000_0000_0000_0000
    ensures BusWrite(d, DR, 256 * k + x as nat).tx == if |d.tx| < CAPACITY then d.tx + [x] else d.tx
  {
    hide Meet;
    assert (256 * k + x as nat) % 256 == x as nat;
  }

  lemma StepConservesRx(d: Dev, a: Access)
    requires DevInv(d)
    ensures (if a == Read(DR) && !d.flag.rxfe then [BusRead(d, DR).1] else []) + AsWords(Apply(d, a).rx) ==
            AsWords(d.rx) + AsWords(if a.Set? then Fitting(a.bytes, |d.rx|) else [])
  {
    hide AsWords;
    if a == Read(DR) {
      ReadBringsOldest(d);
      if d.rx != [] {
        assert d.rx == [d.rx[0]] + d.rx[1..];
        AsWordsConcat([d.rx[0]], d.rx[1..]);
      }
      assert d.rx + [] == d.rx;
    } else if a.Set? {
      SetAppends(d, a.bytes);
      AsWordsConcat(d.rx, Fitting(a.bytes, |d.rx|));
    } else {
      OthersLeaveRx(d, a);
    }
  }

  lemma SetAppends(d: Dev, bytes: seq<byte>)
    requires |d.rx| <= CAPACITY
    ensures SetData(d, bytes).rx == d.rx + Fitting(bytes, |d.rx|)
  {
    hide Meet;
  }

  lemma OthersLeaveRx(d: Dev, a: Access)
    requires |d.rx| <= CAPACITY && a != Read(DR) && !a.Set?
    ensures Apply(d, a).rx == d.rx
  {
    hide Meet, Toggle;
  }

  /** Nothing is lost, doubled or reordered on the way to the host. */
  lemma {:induction false} TransmitConserved(d: Dev, accesses: seq<Access>)
    requires DevInv(d)
    ensures Taken(d, accesses) + Run(d, accesses).tx == d.tx + Accepted(d, accesses)
    decreases |accesses|
  {
    if accesses != [] {
      var a, rest := accesses[0], accesses[1..];
      ApplyKeepsInv(d, a);
      var d' := Apply(d, a);
      TransmitConserved(d', rest);
      StepConservesTx(d, a);
      Chain(if a.Get? then GetData(d).1 else [], Taken(d', rest), d.tx, d'.tx, Run(d', rest).tx,
            if a.Write? && a.offset == DR && !d.flag.txff then [Sent(a.value)] else [], Accepted(d', rest));
    }
  }

  /** Nor on the way from it. */
  lemma {:induction false} ReceiveConserved(d: Dev, accesses: seq<Access>)
    requires DevInv(d)
    ensures Delivered(d, accesses) + AsWords(Run(d, accesses).rx) == AsWords(d.rx + Offered(d, accesses))
    decreases |accesses|
  {
    if accesses != [] {
      var a, rest := accesses[0], accesses[1..];
      ApplyKeepsInv(d, a);
      var d' := Apply(d, a);
      ReceiveConserved(d', rest);
      StepConservesRx(d, a);
      ReceiveChain(d, a, rest);
      assert [a] + rest == accesses;
    } else {
      assert d.rx + [] == d.rx;
    }
  }

  lemma ReceiveChain(d: Dev, a: Access, rest: seq<Access>)
    requires DevInv(d) && DevInv(Apply(d, a))
    requires var d' := Apply(d, a);
             Delivered(d', rest) + AsWords(Run(d', rest).rx) == AsWords(d'.rx + Offered(d', rest))
    requires (if a == Read(DR) && !d.flag.rxfe then [BusRead(d, DR).1] else []) + AsWords(Apply(d, a).rx) ==
             AsWords(d.rx) + AsWords(if a.Set? then Fitting(a.bytes, |d.rx|) else [])
    ensures Delivered(d, [a] + rest) + AsWords(Run(d, [a] + rest).rx) == AsWords(d.rx + Offered(d, [a] + rest))
  {
    hide Apply, AsWords, BusRead, BusyInv, Meet;
    var d' := Apply(d, a);
    var out := if a == Read(DR) && !d.flag.rxfe then [BusRead(d, DR).1] else [];
    var enter := if a.Set? then Fitting(a.bytes, |d.rx|) else [];
    assert ([a] + rest)[1..] == rest;
    AsWordsConcat(d'.rx, Offered(d', rest));
    AsWordsConcat(enter, Offered(d', rest));
    AsWordsConcat(d.rx, enter + Offered(d', rest));
    Chain(out, Delivered(d', rest), AsWords(d.rx), AsWords(d'.rx), AsWords(Run(d', rest).rx),
          AsWords(enter), AsWords(Offered(d', rest)));
  }

  lemma {:induction false} TakenBound(d: Dev, accesses: seq<Access>)
    requires DevInv(d)
    ensures |Taken(d, accesses)| <= CAPACITY * Gets(accesses)
    decreases |accesses|
  {
    if accesses != [] {
      ApplyKeepsInv(d, accesses[0]);
      TakenBound(Apply(d, accesses[0]), accesses[1..]);
    }
  }

  /** However the accesses interleave, n >= 1 bytes need floor((n - 1) / 31) drains to be accepted. */
  lemma DrainsNeeded(variant: Variant, accesses: seq<Access>)
    requires Accepted(Init(variant), accesses) != []
    ensures Gets(accesses) >= (|Accepted(Init(variant), accesses)| - 1) / CAPACITY
  {
    var d := Init(variant);
    TransmitConserved(d, accesses);
    TakenBound(d, accesses);
    RunKeepsInv(d, accesses);
    assert |Accepted(d, accesses)| == |d.tx + Accepted(d, accesses)|;
    assert |Accepted(d, accesses)| <= CAPACITY * Gets(accesses) + CAPACITY;
  }
}
