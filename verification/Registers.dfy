/** The register map of the MMIO device, shared by the device and its drivers. */
module Registers {
  import opened Words

  newtype byte = x: int | 0 <= x < 256

  /** A bus word: 64 bits. */
  type word = x: nat | x < 0x1_0000_0000_0000_0000

  /** Register offsets. */
  const DR := 0x00
  const FR := 0x04
  const RIS := 0x08
  const ICR := 0x0c
  const IMSC := 0x10
  const MIS := 0x14
  const ID_FIRST := 0xfe0
  const ID_LAST := 0xfff

  /** A ring of 32 slots keeps one slot free, so it holds 31 bytes. */
  const FIFO_SIZE := 32
  const CAPACITY := 31

  /** What the byte-at-a-time driver copies from the user at once. */
  const CHUNK := 32

  const DMA_BUFFER_SIZE := 4096

  /** Peripheral ID 0x001A_A001 and cell ID 0xB105_F00D, one byte a word. */
  const MMIO_ID: seq<byte> := [0x01, 0xa0, 0x1a, 0x00, 0x0d, 0xf0, 0x05, 0xb1]

  function Wrap32(value: word): (r: nat)
    ensures r < 0x1_0000_0000
    ensures value < 0x1_0000_0000 ==> r == value
  {
    value % 0x1_0000_0000
  }

  lemma WordRange(r: bv32)
    ensures 0 <= r as int < 0x1_0000_0000
  {
  }

  /** A 32-bit register on the bus. */
  function BusWord(r: Register): (w: word)
    ensures w < 0x1_0000_0000
  {
    WordRange(r.bits);
    r.bits as word
  }

  /** A 32-bit register keeps the low half of what is written to it. */
  function Low32(value: word): Register {
    Register(Wrap32(value) as bv32)
  }

  function Low8(value: word): byte {
    (value % 256) as byte
  }

  /** The words the driver writes. */
  lemma DriverWords()
    ensures IntsOf(Low32(1)) == ONLY_RX && IntsOf(Low32(2)) == ONLY_TX && IntsOf(Low32(4)) == ONLY_RX_EMPTY
    ensures IntsOf(Low32(3)) == Ints(true, true, false, 0)
    ensures IntsOf(Low32(7)) == Ints(true, true, true, 0)
  {
  }

  /** The flags in a word: TXFE, TXFF, RXFE and RXFF from the fourth bit down. */
  lemma FlagWords()
    ensures FlagsOf(Low32(8)) == Flags(true, false, false, false)
    ensures FlagsOf(Low32(4)) == Flags(false, true, false, false)
    ensures FlagsOf(Low32(2)) == Flags(false, false, true, false)
    ensures FlagsOf(Low32(1)) == Flags(false, false, false, true)
  {
  }

  lemma WordCast(r: bv32)
    ensures (r as int) as bv32 == r
  {
  }

  lemma LowWord(r: Register)
    ensures Low32(BusWord(r)) == r
  {
    WordRange(r.bits);
    WordCast(r.bits);
  }
}
