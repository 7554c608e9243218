/** The 32-bit registers of the device, as words and bit by bit. */
module Words {

  /** Bits of the flag register. */
  const FLAG_TXFE: bv32 := 8
  const FLAG_TXFF: bv32 := 4
  const FLAG_RXFE: bv32 := 2
  const FLAG_RXFF: bv32 := 1
  const FLAG_BITS: bv32 := 15

  /** Bits of the interrupt registers. */
  const INT_RX_EMPTY: bv32 := 4
  const INT_TX: bv32 := 2
  const INT_RX: bv32 := 1
  const OTHER_BITS: bv32 := 0xffff_fff8

  /** A 32-bit register. */
  datatype Register = Register(bits: bv32)

  /** The flag register has no bit above the fourth. */
  predicate IsFlagWord(r: Register) {
    Masked(r.bits, !FLAG_BITS) == 0
  }

  function Masked(word: bv32, mask: bv32): bv32 {
    word & mask
  }

  predicate Has(word: bv32, bit: bv32) {
    Masked(word, bit) != 0
  }

  function ToggleBits(r: Register, value: Register): Register {
    Register(r.bits ^ value.bits)
  }

  function MaskBits(r: Register, mask: Register): Register {
    Register(r.bits & mask.bits)
  }

  datatype Flags = Flags(txfe: bool, txff: bool, rxfe: bool, rxff: bool)

  /** The three interrupt bits, and the other 29 bits, which only a register write can set. */
  datatype Ints = Ints(tx: bool, rx: bool, rxEmpty: bool, rest: bv32)

  const NONE := Ints(false, false, false, 0)
  const ONLY_TX := Ints(true, false, false, 0)
  const ONLY_RX := Ints(false, true, false, 0)
  const ONLY_RX_EMPTY := Ints(false, false, true, 0)

  /** Whether the two registers share a bit. */
  predicate Meet(a: Ints, b: Ints) {
    (a.tx && b.tx) || (a.rx && b.rx) || (a.rxEmpty && b.rxEmpty) || a.rest & b.rest != 0
  }

  function And(a: Ints, b: Ints): Ints {
    Ints(a.tx && b.tx, a.rx && b.rx, a.rxEmpty && b.rxEmpty, a.rest & b.rest)
  }

  function Toggle(a: Ints, b: Ints): Ints {
    Ints(a.tx != b.tx, a.rx != b.rx, a.rxEmpty != b.rxEmpty, a.rest ^ b.rest)
  }

  lemma ToggleNothing(rest: bv32)
    ensures rest ^ 0 == rest
  {
  }

  lemma ToggleOne(a: Ints, bit: Ints)
    requires bit.rest == 0
    ensures Toggle(a, bit) == Ints(a.tx != bit.tx, a.rx != bit.rx, a.rxEmpty != bit.rxEmpty, a.rest)
  {
    ToggleNothing(a.rest);
  }

  /** Without the other 29 bits, two registers meet in one of the three. */
  lemma MeetThree(a: Ints, b: Ints)
    requires a.rest == 0
    ensures Meet(a, b) <==> (a.tx && b.tx) || (a.rx && b.rx) || (a.rxEmpty && b.rxEmpty)
  {
    var rest := b.rest;
    assert 0 & rest == 0;
  }

  function FlagsOf(r: Register): Flags {
    Flags(Has(r.bits, FLAG_TXFE), Has(r.bits, FLAG_TXFF), Has(r.bits, FLAG_RXFE), Has(r.bits, FLAG_RXFF))
  }

  function IntsOf(r: Register): Ints {
    Ints(Has(r.bits, INT_TX), Has(r.bits, INT_RX), Has(r.bits, INT_RX_EMPTY), Masked(r.bits, OTHER_BITS))
  }

  function Bit(on: bool, bit: bv32): bv32 {
    if on then bit else 0
  }

  function FlagWord(f: Flags): Register {
    Register(Joined(Bit(f.txfe, FLAG_TXFE), Bit(f.txff, FLAG_TXFF), Bit(f.rxfe, FLAG_RXFE), Bit(f.rxff, FLAG_RXFF)))
  }

  function Joined(a: bv32, b: bv32, c: bv32, d: bv32): bv32 {
    a | b | c | d
  }

  function IntWord(i: Ints): Register {
    Register(Joined(Bit(i.tx, INT_TX), Bit(i.rx, INT_RX), Bit(i.rxEmpty, INT_RX_EMPTY), i.rest))
  }

  lemma BitOfWord(w: bv32, bit: bv32)
    requires bit == INT_TX || bit == INT_RX || bit == INT_RX_EMPTY
    ensures Bit(Has(w, bit), bit) == Masked(w, bit)
  {
  }

  lemma PiecesOfWord(w: bv32)
    ensures Joined(Masked(w, INT_TX), Masked(w, INT_RX), Masked(w, INT_RX_EMPTY), Masked(w, OTHER_BITS)) == w
  {
  }

  /** Reading a register bit by bit loses nothing. */
  lemma WordsRoundTrip(r: Register)
    ensures IntWord(IntsOf(r)) == r
  {
    hide Bit, Has, Masked, Joined;
    var w := r.bits;
    BitOfWord(w, INT_TX);
    BitOfWord(w, INT_RX);
    BitOfWord(w, INT_RX_EMPTY);
    PiecesOfWord(w);
  }

  /** Nor does reading a flag register. */
  lemma FlagsRoundTrip(r: Register)
    requires IsFlagWord(r)
    ensures FlagWord(FlagsOf(r)) == r
  {
    var w := r.bits;
    assert w & 1 == 0 || w & 1 == 1;
    assert w & 2 == 0 || w & 2 == 2;
    assert w & 4 == 0 || w & 4 == 4;
    assert w & 8 == 0 || w & 8 == 8;
  }

  /** Nothing stands in the place of the three interrupt bits but they. */
  predicate IsApart(i: Ints) {
    Masked(i.rest, !OTHER_BITS) == 0
  }

  lemma WordIsApart(r: Register)
    ensures IsApart(IntsOf(r))
  {
  }

  lemma ToggleIsApart(a: Ints, b: Ints)
    requires IsApart(a) && IsApart(b)
    ensures IsApart(Toggle(a, b))
  {
  }

  lemma JoinedHas(a: bool, b: bool, c: bool, rest: bv32)
    requires Masked(rest, !OTHER_BITS) == 0
    ensures var w := Joined(Bit(a, INT_TX), Bit(b, INT_RX), Bit(c, INT_RX_EMPTY), rest);
            (Has(w, INT_TX) <==> a) && (Has(w, INT_RX) <==> b) && (Has(w, INT_RX_EMPTY) <==> c)
  {
  }

  lemma JoinedRest(a: bool, b: bool, c: bool, rest: bv32)
    requires Masked(rest, !OTHER_BITS) == 0
    ensures Masked(Joined(Bit(a, INT_TX), Bit(b, INT_RX), Bit(c, INT_RX_EMPTY), rest), OTHER_BITS) == rest
  {
  }

  /** Nor does writing a register out lose anything. */
  lemma BitsRoundTrip(i: Ints)
    requires IsApart(i)
    ensures IntsOf(IntWord(i)) == i
  {
    hide Joined, Bit, Has, Masked;
    JoinedHas(i.tx, i.rx, i.rxEmpty, i.rest);
    JoinedRest(i.tx, i.rx, i.rxEmpty, i.rest);
  }

  lemma FlagBitsRoundTrip(f: Flags)
    ensures FlagsOf(FlagWord(f)) == f
  {
  }

  // The word operations the device uses, bit by bit.

  lemma AndWords(a: Register, b: Register)
    ensures IntsOf(MaskBits(a, b)) == And(IntsOf(a), IntsOf(b))
  {
  }

  lemma ZeroWord(r: Register)
    ensures r.bits == 0 <==> IntsOf(r) == NONE
  {
    if r.bits == 0 {
      assert IntsOf(Register(0)) == NONE;
    } else {
      WordsRoundTrip(r);
      assert IntWord(NONE).bits == 0;
    }
  }

  lemma MeetBits(a: Ints, b: Ints)
    ensures Meet(a, b) <==> And(a, b) != NONE
  {
  }

  /** Whether two registers share a bit, as the word operation has it. */
  predicate Share(a: Register, b: Register)
    ensures Share(a, b) <==> Meet(IntsOf(a), IntsOf(b))
  {
    AndWords(a, b);
    MeetBits(IntsOf(a), IntsOf(b));
    ZeroWord(MaskBits(a, b));
    Has(a.bits, b.bits)
  }

  lemma ToggleWords(a: Register, b: Register)
    ensures IntsOf(ToggleBits(a, b)) == Toggle(IntsOf(a), IntsOf(b))
  {
  }

  // One bit of a register set or cleared, as a word operation that touches no other bit.

  function WithBit(r: Register, bit: bv32, on: bool): Register {
    Register(if on then r.bits | bit else r.bits & !bit)
  }

  lemma WithBitHere(r: Register, bit: bv32, on: bool)
    requires bit != 0
    ensures Has(WithBit(r, bit, on).bits, bit) == on
  {
  }

  lemma SetElsewhere(w: bv32, bit: bv32, other: bv32)
    requires bit & other == 0
    ensures Masked(w | bit, other) == Masked(w, other)
  {
  }

  lemma ClearElsewhere(w: bv32, bit: bv32, other: bv32)
    requires bit & other == 0
    ensures Masked(w & !bit, other) == Masked(w, other)
  {
  }

  lemma WithBitElsewhere(r: Register, bit: bv32, on: bool, other: bv32)
    requires bit & other == 0
    ensures Masked(WithBit(r, bit, on).bits, other) == Masked(r.bits, other)
  {
    hide Masked;
    if on {
      SetElsewhere(r.bits, bit, other);
    } else {
      ClearElsewhere(r.bits, bit, other);
    }
  }

  lemma IntTxBit(r: Register, on: bool)
    ensures IntsOf(WithBit(r, INT_TX, on)) == IntsOf(r).(tx := on)
  {
    hide WithBit, Masked;
    WithBitHere(r, INT_TX, on);
    WithBitElsewhere(r, INT_TX, on, INT_RX);
    WithBitElsewhere(r, INT_TX, on, INT_RX_EMPTY);
    WithBitElsewhere(r, INT_TX, on, OTHER_BITS);
  }

  function WithIntTx(r: Register, on: bool): (s: Register)
    ensures IntsOf(s) == IntsOf(r).(tx := on)
  {
    IntTxBit(r, on);
    WithBit(r, INT_TX, on)
  }

  lemma IntRxBit(r: Register, on: bool)
    ensures IntsOf(WithBit(r, INT_RX, on)) == IntsOf(r).(rx := on)
  {
    hide WithBit, Masked;
    WithBitHere(r, INT_RX, on);
    WithBitElsewhere(r, INT_RX, on, INT_TX);
    WithBitElsewhere(r, INT_RX, on, INT_RX_EMPTY);
    WithBitElsewhere(r, INT_RX, on, OTHER_BITS);
  }

  function WithIntRx(r: Register, on: bool): (s: Register)
    ensures IntsOf(s) == IntsOf(r).(rx := on)
  {
    IntRxBit(r, on);
    WithBit(r, INT_RX, on)
  }

  lemma IntRxEmptyBit(r: Register, on: bool)
    ensures IntsOf(WithBit(r, INT_RX_EMPTY, on)) == IntsOf(r).(rxEmpty := on)
  {
    hide WithBit, Masked;
    WithBitHere(r, INT_RX_EMPTY, on);
    WithBitElsewhere(r, INT_RX_EMPTY, on, INT_TX);
    WithBitElsewhere(r, INT_RX_EMPTY, on, INT_RX);
    WithBitElsewhere(r, INT_RX_EMPTY, on, OTHER_BITS);
  }

  function WithIntRxEmpty(r: Register, on: bool): (s: Register)
    ensures IntsOf(s) == IntsOf(r).(rxEmpty := on)
  {
    IntRxEmptyBit(r, on);
    WithBit(r, INT_RX_EMPTY, on)
  }

  lemma TxfeBit(r: Register, on: bool)
    requires IsFlagWord(r)
    ensures IsFlagWord(WithBit(r, FLAG_TXFE, on)) && FlagsOf(WithBit(r, FLAG_TXFE, on)) == FlagsOf(r).(txfe := on)
  {
    hide WithBit, Masked;
    WithBitHere(r, FLAG_TXFE, on);
    WithBitElsewhere(r, FLAG_TXFE, on, FLAG_TXFF);
    WithBitElsewhere(r, FLAG_TXFE, on, FLAG_RXFE);
    WithBitElsewhere(r, FLAG_TXFE, on, FLAG_RXFF);
    WithBitElsewhere(r, FLAG_TXFE, on, !FLAG_BITS);
  }

  function WithTxfe(r: Register, on: bool): (s: Register)
    requires IsFlagWord(r)
    ensures IsFlagWord(s) && FlagsOf(s) == FlagsOf(r).(txfe := on)
  {
    TxfeBit(r, on);
    WithBit(r, FLAG_TXFE, on)
  }

  lemma TxffBit(r: Register, on: bool)
    requires IsFlagWord(r)
    ensures IsFlagWord(WithBit(r, FLAG_TXFF, on)) && FlagsOf(WithBit(r, FLAG_TXFF, on)) == FlagsOf(r).(txff := on)
  {
    hide WithBit, Masked;
    WithBitHere(r, FLAG_TXFF, on);
    WithBitElsewhere(r, FLAG_TXFF, on, FLAG_TXFE);
    WithBitElsewhere(r, FLAG_TXFF, on, FLAG_RXFE);
    WithBitElsewhere(r, FLAG_TXFF, on, FLAG_RXFF);
    WithBitElsewhere(r, FLAG_TXFF, on, !FLAG_BITS);
  }

  function WithTxff(r: Register, on: bool): (s: Register)
    requires IsFlagWord(r)
    ensures IsFlagWord(s) && FlagsOf(s) == FlagsOf(r).(txff := on)
  {
    TxffBit(r, on);
    WithBit(r, FLAG_TXFF, on)
  }

  lemma RxfeBit(r: Register, on: bool)
    requires IsFlagWord(r)
    ensures IsFlagWord(WithBit(r, FLAG_RXFE, on)) && FlagsOf(WithBit(r, FLAG_RXFE, on)) == FlagsOf(r).(rxfe := on)
  {
    hide WithBit, Masked;
    WithBitHere(r, FLAG_RXFE, on);
    WithBitElsewhere(r, FLAG_RXFE, on, FLAG_TXFE);
    WithBitElsewhere(r, FLAG_RXFE, on, FLAG_TXFF);
    WithBitElsewhere(r, FLAG_RXFE, on, FLAG_RXFF);
    WithBitElsewhere(r, FLAG_RXFE, on, !FLAG_BITS);
  }

  function WithRxfe(r: Register, on: bool): (s: Register)
    requires IsFlagWord(r)
    ensures IsFlagWord(s) && FlagsOf(s) == FlagsOf(r).(rxfe := on)
  {
    RxfeBit(r, on);
    WithBit(r, FLAG_RXFE, on)
  }

  lemma RxffBit(r: Register, on: bool)
    requires IsFlagWord(r)
    ensures IsFlagWord(WithBit(r, FLAG_RXFF, on)) && FlagsOf(WithBit(r, FLAG_RXFF, on)) == FlagsOf(r).(rxff := on)
  {
    hide WithBit, Masked;
    WithBitHere(r, FLAG_RXFF, on);
    WithBitElsewhere(r, FLAG_RXFF, on, FLAG_TXFE);
    WithBitElsewhere(r, FLAG_RXFF, on, FLAG_TXFF);
    WithBitElsewhere(r, FLAG_RXFF, on, FLAG_RXFE);
    WithBitElsewhere(r, FLAG_RXFF, on, !FLAG_BITS);
  }

  function WithRxff(r: Register, on: bool): (s: Register)
    requires IsFlagWord(r)
    ensures IsFlagWord(s) && FlagsOf(s) == FlagsOf(r).(rxff := on)
  {
    RxffBit(r, on);
    WithBit(r, FLAG_RXFF, on)
  }

  /** The registers at power-on. */
  function PowerOnFlags(): (r: Register)
    ensures IsFlagWord(r) && FlagsOf(r) == Flags(true, false, true, false)
  {
    Register(FLAG_TXFE | FLAG_RXFE)
  }

  function PowerOnInts(): (r: Register)
    ensures IntsOf(r) == NONE
  {
    Register(0)
  }
}
