/**
 * What the registers show, told from the history of accesses alone: how many bytes are queued, and
 * which access last set, cleared or toggled a bit.
 */
module DeviceHistory {
  import opened Registers
  import opened Words
  import opened DeviceSpec
  import opened DeviceRuns

  /** What a word means in an interrupt register. */
  function Bits(value: word): Ints {
    IntsOf(Low32(value))
  }

  /** How many bytes the host has not taken yet. */
  function TxCount(history: seq<Access>): (n: nat)
    ensures n <= CAPACITY
  {
    if history == [] then 0 else
    var n, last := TxCount(history[..|history| - 1]), history[|history| - 1];
    match last
    case Get => 0
    case Write(offset, _) => if offset == DR && n < CAPACITY then n + 1 else n
    case _ => n
  }

  /** How many bytes the processor has not read yet. */
  function RxCount(history: seq<Access>): (n: nat)
    ensures n <= CAPACITY
  {
    if history == [] then 0 else
    var n, last := RxCount(history[..|history| - 1]), history[|history| - 1];
    match last
    case Set(bytes) => if n + |bytes| < CAPACITY then n + |bytes| else CAPACITY
    case Read(offset) => if offset == DR && n > 0 then n - 1 else n
    case _ => n
  }

  /** Set by every drain, cleared by the write that fills the FIFO, toggled by the clear register. */
  function TxPending(history: seq<Access>): bool {
    if history == [] then false else
    var front, last := history[..|history| - 1], history[|history| - 1];
    match last
    case Get => true
    case Write(offset, value) =>
      if offset == DR then TxPending(front) && TxCount(history) < CAPACITY
      else if offset == ICR then TxPending(front) != Bits(value).tx
      else TxPending(front)
    case _ => TxPending(front)
  }

  /** Set by every non-empty offer, cleared by the read that leaves the FIFO empty, toggled. */
  function RxPending(history: seq<Access>): bool {
    if history == [] then false else
    var front, last := history[..|history| - 1], history[|history| - 1];
    match last
    case Set(bytes) => bytes != [] || RxPending(front)
    case Read(offset) => RxPending(front) && !(offset == DR && RxCount(history) == 0)
    case Write(offset, value) =>
      if offset == ICR then RxPending(front) != Bits(value).rx else RxPending(front)
    case _ => RxPending(front)
  }

  /** The other way round, and only in the device with DMA lines. */
  function RxEmptyPending(variant: Variant, history: seq<Access>): bool {
    if history == [] then false else
    var front, last := history[..|history| - 1], history[|history| - 1];
    match last
    case Set(bytes) => RxEmptyPending(variant, front) && (bytes == [] || variant.Pio?)
    case Read(offset) => RxEmptyPending(variant, front) || (variant.Dma? && offset == DR && RxCount(history) == 0)
    case Write(offset, value) =>
      if offset == ICR then RxEmptyPending(variant, front) != Bits(value).rxEmpty else RxEmptyPending(variant, front)
    case _ => RxEmptyPending(variant, front)
  }

  /** The word last written to the mask register. */
  function LastMask(history: seq<Access>): word {
    if history == [] then 0 else
    var front, last := history[..|history| - 1], history[|history| - 1];
    if last.Write? && last.offset == IMSC then last.value else LastMask(front)
  }

  /** Whether the receive FIFO was full since it was last empty. */
  function WasFull(history: seq<Access>): bool {
    RxCount(history) == CAPACITY
    || (RxCount(history) > 0 && history != [] && WasFull(history[..|history| - 1]))
  }

  /** The device agrees with its history. */
  predicate Agrees(d: Dev, variant: Variant, history: seq<Access>) {
    && d.variant == variant
    && |d.tx| == TxCount(history) && |d.rx| == RxCount(history)
    && d.ris.tx == TxPending(history) && d.ris.rx == RxPending(history)
    && d.ris.rxEmpty == RxEmptyPending(variant, history)
    && d.imsc == Bits(LastMask(history))
    && d.flag.rxff == WasFull(history)
    && IsApart(d.ris)
  }

  lemma Last(history: seq<Access>, a: Access)
    ensures (history + [a])[..|history|] == history && (history + [a])[|history|] == a
  {
  }

  lemma UnfoldRead(variant: Variant, history: seq<Access>, offset: nat)
    ensures var all := history + [Read(offset)];
      && TxCount(all) == TxCount(history) && TxPending(all) == TxPending(history) && LastMask(all) == LastMask(history)
      && RxCount(all) == (if offset == DR && RxCount(history) > 0 then RxCount(history) - 1 else RxCount(history))
      && RxPending(all) == (RxPending(history) && !(offset == DR && RxCount(all) == 0))
      && RxEmptyPending(variant, all) ==
           (RxEmptyPending(variant, history) || (variant.Dma? && offset == DR && RxCount(all) == 0))
  {
    Last(history, Read(offset));
  }

  lemma FullBefore(history: seq<Access>)
    ensures WasFull(history) ==> RxCount(history) > 0
    ensures RxCount(history) == CAPACITY ==> WasFull(history)
  {
  }

  lemma UnfoldFullRead(history: seq<Access>, offset: nat)
    ensures WasFull(history + [Read(offset)]) == (WasFull(history) && RxCount(history + [Read(offset)]) > 0)
  {
    hide TxPending, RxPending, RxEmptyPending, TxCount, LastMask;
    Last(history, Read(offset));
    FullBefore(history);
  }

  lemma ReadAgrees(d: Dev, variant: Variant, history: seq<Access>, offset: nat)
    requires DevInv(d) && Agrees(d, variant, history)
    ensures Agrees(Apply(d, Read(offset)), variant, history + [Read(offset)])
  {
    hide Meet, IntsOf, Low32, Bits, Masked, RegisterAt, TxPending, RxPending, RxEmptyPending, RxCount, TxCount;
    hide LastMask, WasFull, BusyInv;
    UnfoldRead(variant, history, offset);
    UnfoldFullRead(history, offset);
    FullBefore(history);
  }

  lemma DataAgrees(d: Dev, variant: Variant, history: seq<Access>, value: word)
    requires DevInv(d) && Agrees(d, variant, history)
    ensures Agrees(Apply(d, Write(DR, value)), variant, history + [Write(DR, value)])
  {
    hide Meet, IntsOf, Low32, Low8, Bits, Masked, RxPending, RxEmptyPending, RxCount, WasFull, LastMask;
    Last(history, Write(DR, value));
    UnfoldWrite(variant, history, DR, value);
  }

  lemma UnfoldWrite(variant: Variant, history: seq<Access>, offset: nat, value: word)
    ensures var all := history + [Write(offset, value)];
      && RxCount(all) == RxCount(history) && WasFull(all) == WasFull(history)
      && (offset != ICR ==>
            RxPending(all) == RxPending(history) && RxEmptyPending(variant, all) == RxEmptyPending(variant, history))
      && (offset != IMSC ==> LastMask(all) == LastMask(history))
  {
    hide IntsOf, Low32, Bits, TxPending, TxCount;
    Last(history, Write(offset, value));
    assert WasFull(history) ==> RxCount(history) > 0;
  }

  lemma WriteAgrees(d: Dev, variant: Variant, history: seq<Access>, offset: nat, value: word)
    requires DevInv(d) && Agrees(d, variant, history) && offset != DR
    ensures Agrees(Apply(d, Write(offset, value)), variant, history + [Write(offset, value)])
  {
    hide Meet, IntsOf, Low32, Masked, WasFull, RxCount;
    Last(history, Write(offset, value));
    UnfoldWrite(variant, history, offset, value);
    WordIsApart(Low32(value));
    if offset == ICR {
      ToggleIsApart(d.ris, Bits(value));
    }
  }

  lemma GetAgrees(d: Dev, variant: Variant, history: seq<Access>)
    requires DevInv(d) && Agrees(d, variant, history)
    ensures Agrees(Apply(d, Get), variant, history + [Get])
  {
    hide Meet, IntsOf, Low32, Bits;
    Last(history, Get);
  }

  lemma SetAgrees(d: Dev, variant: Variant, history: seq<Access>, bytes: seq<byte>)
    requires DevInv(d) && Agrees(d, variant, history)
    ensures Agrees(Apply(d, Set(bytes)), variant, history + [Set(bytes)])
  {
    hide Meet, IntsOf, Low32, Bits;
    Last(history, Set(bytes));
  }

  lemma StartAgrees(variant: Variant)
    ensures Agrees(Init(variant), variant, [])
  {
    ZeroWord(Low32(0));
    assert Low32(0).bits == 0;
  }

  lemma {:induction false} RunAppend(d: Dev, accesses: seq<Access>, a: Access)
    requires DevInv(d)
    ensures DevInv(Run(d, accesses)) && Run(d, accesses + [a]) == Apply(Run(d, accesses), a)
    decreases |accesses|
  {
    hide Apply, DevInv;
    RunKeepsInv(d, accesses);
    Bound(Run(d, accesses));
    if accesses == [] {
      assert [] + [a] == [a] && [a][1..] == [];
      ApplyBound(d, a);
    } else {
      assert (accesses + [a])[1..] == accesses[1..] + [a];
      ApplyBound(d, accesses[0]);
      RunAppend(Apply(d, accesses[0]), accesses[1..], a);
    }
  }

  lemma Bound(d: Dev)
    requires DevInv(d)
    ensures |d.rx| <= CAPACITY
  {
  }

  lemma ApplyBound(d: Dev, a: Access)
    requires DevInv(d)
    ensures |d.rx| <= CAPACITY && DevInv(Apply(d, a))
  {
    ApplyKeepsInv(d, a);
  }

  lemma StepAgrees(d: Dev, variant: Variant, history: seq<Access>, a: Access)
    requires DevInv(d) && Agrees(d, variant, history)
    ensures Agrees(Apply(d, a), variant, history + [a])
  {
    hide Apply, Agrees;
    match a
    case Read(offset) => ReadAgrees(d, variant, history, offset);
    case Write(offset, value) =>
      if offset == DR {
        DataAgrees(d, variant, history, value);
      } else {
        WriteAgrees(d, variant, history, offset, value);
      }
    case Get => GetAgrees(d, variant, history);
    case Set(bytes) => SetAgrees(d, variant, history, bytes);
  }

  /** From power-on, after every history: queue lengths, pending interrupts, mask and RXFF are what it says. */
  lemma {:induction false} HistoryDecides(variant: Variant, history: seq<Access>)
    ensures Agrees(Run(Init(variant), history), variant, history)
    decreases |history|
  {
    hide Agrees, DevInv;
    if history == [] {
      StartAgrees(variant);
    } else {
      var front, a := history[..|history| - 1], history[|history| - 1];
      assert history == front + [a];
      HistoryDecides(variant, front);
      EveryRunIsConsistent(variant, front);
      EveryRunIsConsistent(variant, []);
      RunAppend(Init(variant), front, a);
      StepAgrees(Run(Init(variant), front), variant, front, a);
    }
  }

  // ---- From one access to the next -----------------------------------------------------------------

  /** Whatever was before, a drain raises INT_TX, and the line if it is unmasked. */
  lemma DrainRaises(d: Dev)
    ensures var t := GetData(d).0; t.ris.tx && (d.imsc.tx ==> t.irq) && t.ris == d.ris.(tx := true)
  {
  }

  /** A non-empty offer raises INT_RX, and takes RX_EMPTY back. */
  lemma OfferRaises(d: Dev, bytes: seq<byte>)
    requires |d.rx| <= CAPACITY && bytes != []
    ensures var t := SetData(d, bytes);
      && t.ris.rx && (d.imsc.rx ==> t.irq)
      && t.ris == d.ris.(rx := true, rxEmpty := d.ris.rxEmpty && d.variant.Pio?)
  {
  }

  /** The read that leaves the FIFO empty takes INT_RX back, and raises RX_EMPTY if the device has it. */
  lemma LastReadRaises(d: Dev)
    requires |d.rx| <= 1
    ensures var t := ReadDr(d).0;
      && !t.ris.rx && (d.variant.Dma? ==> t.ris.rxEmpty && (d.imsc.rxEmpty ==> t.irq))
      && t.ris == d.ris.(rx := false, rxEmpty := d.ris.rxEmpty || d.variant.Dma?)
  {
  }

  /** Neither fills the FIFO nor toggles INT_TX. */
  predicate SparesTx(history: seq<Access>, a: Access) {
    a.Write? ==>
      (a.offset == DR ==> TxCount(history + [a]) < CAPACITY) && (a.offset == ICR ==> !Bits(a.value).tx)
  }

  /** From a drain on INT_TX is pending until a write fills the FIFO or toggles it. */
  lemma {:induction false} PendingFromDrain(before: seq<Access>, after: seq<Access>)
    requires forall i :: 0 <= i < |after| ==> SparesTx(before + [Get] + after[..i], after[i])
    ensures TxPending(before + [Get] + after)
    decreases |after|
  {
    var all := before + [Get] + after;
    if after == [] {
      assert all[|all| - 1] == Get;
    } else {
      var n := |after| - 1;
      var front := before + [Get] + after[..n];
      assert forall i :: 0 <= i < n ==> after[..n][..i] == after[..i];
      PendingFromDrain(before, after[..n]);
      assert all == front + [after[n]];
      assert SparesTx(front, after[n]);
      Last(front, after[n]);
    }
  }

  // ---- As the processor sees it, at the offsets of the register map --------------------------------

  /**
   * The status registers on the bus: RIS shows the pending bits, IMSC the word last written to it, MIS
   * what they share. The line is up exactly when MIS is not zero.
   */
  lemma StatusOnTheBus(variant: Variant, history: seq<Access>)
    ensures var d := Run(Init(variant), history);
            var ris := Bits(BusRead(d, 0x08).1);
      && ris.tx == TxPending(history) && ris.rx == RxPending(history) && ris.rxEmpty == RxEmptyPending(variant, history)
      && BusRead(d, 0x10).1 == BusWord(Low32(LastMask(history)))
      && Low32(BusRead(d, 0x14).1) == MaskBits(Low32(BusRead(d, 0x08).1), Low32(BusRead(d, 0x10).1))
      && (d.irq <==> Low32(BusRead(d, 0x14).1).bits != 0)
  {
    HistoryDecides(variant, history);
    EveryRunIsConsistent(variant, history);
    StatusWords(Run(Init(variant), history), LastMask(history));
  }

  /** Whatever the upper half of the word that is written, its lower half reads back from the mask register. */
  lemma MaskReadsBack(d: Dev, r: Register, k: nat)
    requires k < 0x1_0000_0000
    ensures BusRead(BusWrite(d, 0x10, BusWord(r) + 0x1_0000_0000 * k), 0x10).1 == BusWord(r)
  {
    hide BusWord, IntsOf, IntWord, Meet;
    var value: word := BusWord(r) + 0x1_0000_0000 * k;
    assert Wrap32(value) == BusWord(r) == Wrap32(BusWord(r));
    LowWord(r);
    WordsRoundTrip(r);
  }

  lemma StatusWords(d: Dev, mask: word)
    requires d.irq == Meet(d.ris, d.imsc) && d.imsc == Bits(mask) && IsApart(d.ris)
    ensures Bits(BusRead(d, 0x08).1) == d.ris
    ensures BusRead(d, 0x10).1 == BusWord(Low32(mask))
    ensures Low32(BusRead(d, 0x14).1) == MaskBits(Low32(BusRead(d, 0x08).1), Low32(BusRead(d, 0x10).1))
    ensures d.irq <==> Low32(BusRead(d, 0x14).1).bits != 0
  {
    hide IntsOf, IntWord, Low32, BusWord, And, Meet, Masked, Toggle;
    var ris, imsc := IntWord(d.ris), Low32(mask);
    BitsRoundTrip(d.ris);
    WordsRoundTrip(imsc);
    LowWord(ris);
    LowWord(imsc);
    AndWords(ris, imsc);
    WordsRoundTrip(MaskBits(ris, imsc));
    LowWord(MaskBits(ris, imsc));
    MeetBits(d.ris, d.imsc);
    ZeroWord(MaskBits(ris, imsc));
  }

  /** The flag register on the bus, told from the queues alone. */
  lemma FlagsOnTheBus(variant: Variant, history: seq<Access>)
    ensures var d := Run(Init(variant), history);
            FlagsOf(Low32(BusRead(d, 0x04).1)) ==
              Flags(TxCount(history) == 0, TxCount(history) == CAPACITY, RxCount(history) == 0, WasFull(history))
  {
    hide FlagsOf, FlagWord, Low32, BusWord;
    HistoryDecides(variant, history);
    EveryRunIsConsistent(variant, history);
    var d := Run(Init(variant), history);
    LowWord(FlagWord(d.flag));
    FlagBitsRoundTrip(d.flag);
  }

  /** Nothing else is there: other offsets read as 0, and writes other than of DR, ICR and IMSC do nothing. */
  lemma NothingElse(d: Dev, offset: nat, value: word)
    ensures offset !in {0x00, 0x04, 0x08, 0x10, 0x14} && !(0xfe0 <= offset <= 0xfff) ==> BusRead(d, offset) == (d, 0)
    ensures offset != 0x00 ==> BusRead(d, offset).0 == d
    ensures offset !in {0x00, 0x0c, 0x10} ==> BusWrite(d, offset, value) == d
  {
  }

  /** The identification bytes, four words apart, make up the two identifiers, low byte first. */
  lemma Identification(d: Dev)
    ensures BusRead(d, 0xfe0).1 + 0x100 * BusRead(d, 0xfe4).1 + 0x1_0000 * BusRead(d, 0xfe8).1
            + 0x100_0000 * BusRead(d, 0xfec).1 == 0x001a_a001
    ensures BusRead(d, 0xff0).1 + 0x100 * BusRead(d, 0xff4).1 + 0x1_0000 * BusRead(d, 0xff8).1
            + 0x100_0000 * BusRead(d, 0xffc).1 == 0xb105_f00d
    ensures forall offset :: 0xfe0 <= offset <= 0xfff ==> BusRead(d, offset).1 == BusRead(d, offset - offset % 4).1
  {
  }
}
