/** The device as a value: every register access and every host access is one step on it. */
module DeviceSpec {
  import opened Registers
  import opened Words

  /** The first device has no DMA lines and no RX_EMPTY interrupt, the second has both. */
  datatype Variant = Pio | Dma

  datatype Dev = Dev(
    variant: Variant,
    tx: seq<byte>, rx: seq<byte>,
    flag: Flags, ris: Ints, imsc: Ints,
    irq: bool, txBusy: bool, rxBusy: bool)

  function Init(variant: Variant): Dev {
    Dev(variant, [], [], Flags(true, false, true, false), NONE, NONE, false, false, false)
  }

  function Update(d: Dev): Dev {
    d.(irq := Meet(d.ris, d.imsc))
  }

  /** The registers and the busy line after a byte was taken, or none was there. */
  function AfterRead(d: Dev): Dev {
    var drained := d.rx == [];
    var signal := drained && d.variant.Dma?;
    Update(d.(flag := d.flag.(rxff := d.flag.rxff && !drained, rxfe := d.flag.rxfe || drained),
              ris := d.ris.(rx := d.ris.rx && !drained, rxEmpty := d.ris.rxEmpty || signal),
              rxBusy := d.rxBusy || signal))
  }

  /** A data register read takes the oldest byte, and tells when none is left. */
  function ReadDr(d: Dev): (Dev, byte) {
    if d.rx == [] then (AfterRead(d), 0) else (AfterRead(d.(rx := d.rx[1..])), d.rx[0])
  }

  /** The registers and the busy line after a byte was put, or found no room. */
  function AfterWrite(d: Dev): Dev {
    var full := |d.tx| == CAPACITY;
    Update(d.(flag := d.flag.(txfe := false, txff := d.flag.txff || full),
              ris := d.ris.(tx := d.ris.tx && !full),
              txBusy := d.txBusy || (full && d.variant.Dma?)))
  }

  /** A data register write puts a byte if there is room, and tells when the queue is full. */
  function WriteDr(d: Dev, data: byte): Dev {
    AfterWrite(if |d.tx| == CAPACITY then d else d.(tx := d.tx + [data]))
  }

  /** The clear register toggles: it clears a bit only when the bit is set. */
  function WriteIcr(d: Dev, value: Ints): Dev {
    Update(d.(ris := Toggle(d.ris, value)))
  }

  function WriteImsc(d: Dev, value: Ints): Dev {
    Update(d.(imsc := value))
  }

  /** The registers and the busy line after the host emptied the transmit FIFO. */
  function Drained(d: Dev): Dev {
    Update(d.(flag := d.flag.(txff := false, txfe := true), ris := d.ris.(tx := true), txBusy := false))
  }

  /** The host takes everything in the transmit FIFO. */
  function GetData(d: Dev): (Dev, seq<byte>) {
    (Drained(d.(tx := [])), d.tx)
  }

  /** The part of `value` that finds room behind a queue of `used` bytes. */
  function Fitting(value: seq<byte>, used: nat): (s: seq<byte>)
    requires used <= CAPACITY
    ensures s <= value
    ensures |s| == if |value| <= CAPACITY - used then |value| else CAPACITY - used
  {
    if |value| <= CAPACITY - used then value else value[..CAPACITY - used]
  }

  /** The registers and lines after the host put bytes in the receive FIFO. */
  function Announce(d: Dev): Dev {
    Update(d.(flag := d.flag.(rxfe := false, rxff := d.flag.rxff || |d.rx| == CAPACITY),
              ris := d.ris.(rx := true, rxEmpty := d.ris.rxEmpty && d.variant.Pio?),
              rxBusy := d.rxBusy && d.variant.Pio?))
  }

  /** The host offers bytes to the receive FIFO; an empty offer is ignored. */
  function SetData(d: Dev, value: seq<byte>): Dev
    requires |d.rx| <= CAPACITY
  {
    if value == [] then d else Announce(d.(rx := d.rx + Fitting(value, |d.rx|)))
  }

  /** What a bus read other than of the data register returns. */
  function RegisterAt(d: Dev, offset: nat): word {
    if offset == FR then BusWord(FlagWord(d.flag))
    else if offset == RIS then BusWord(IntWord(d.ris))
    else if offset == IMSC then BusWord(IntWord(d.imsc))
    else if offset == MIS then BusWord(IntWord(And(d.ris, d.imsc)))
    else if ID_FIRST <= offset <= ID_LAST then MMIO_ID[(offset - ID_FIRST) / 4] as word
    else 0
  }

  function BusRead(d: Dev, offset: nat): (Dev, word) {
    if offset == DR then (ReadDr(d).0, ReadDr(d).1 as word) else (d, RegisterAt(d, offset))
  }

  /** A bus write; the data register keeps the low byte, the others the low word. */
  function BusWrite(d: Dev, offset: nat, value: word): Dev {
    if offset == DR then WriteDr(d, Low8(value))
    else if offset == ICR then WriteIcr(d, IntsOf(Low32(value)))
    else if offset == IMSC then WriteImsc(d, IntsOf(Low32(value)))
    else d
  }

  // ---- What every access keeps -------------------------------------------------------------

  /** The flag register and the interrupt line say what the queues and registers hold. */
  predicate FlagInv(d: Dev) {
    && |d.tx| <= CAPACITY
    && |d.rx| <= CAPACITY
    && (d.flag.txfe <==> d.tx == [])
    && (d.flag.txff <==> |d.tx| == CAPACITY)
    && (d.flag.rxfe <==> d.rx == [])
    && (|d.rx| == CAPACITY ==> d.flag.rxff)
    && (d.flag.rxff ==> d.rx != [])
    && d.irq == Meet(d.ris, d.imsc)
  }

  /** The DMA back-pressure lines. */
  predicate BusyInv(d: Dev) {
    && (d.variant.Dma? ==> (d.txBusy <==> |d.tx| == CAPACITY))
    && (d.variant.Pio? ==> !d.txBusy && !d.rxBusy)
    && (d.rx != [] ==> !d.rxBusy)
  }

  /** The receive line tells an empty queue from a filled one. */
  predicate RxFaithful(d: Dev) {
    d.rxBusy <==> d.rx == []
  }

  predicate DevInv(d: Dev) {
    FlagInv(d) && BusyInv(d)
  }

  datatype Access =
    | Read(offset: nat)
    | Write(offset: nat, value: word)
    | Get
    | Set(bytes: seq<byte>)

  function Apply(d: Dev, a: Access): Dev
    requires |d.rx| <= CAPACITY
  {
    match a
    case Read(offset) => BusRead(d, offset).0
    case Write(offset, value) => BusWrite(d, offset, value)
    case Get => GetData(d).0
    case Set(bytes) => SetData(d, bytes)
  }

  lemma ReadDrKeepsInv(d: Dev)
    requires DevInv(d)
    ensures DevInv(ReadDr(d).0)
    ensures d.variant.Dma? ==> RxFaithful(ReadDr(d).0)
  {
    assert FlagInv(ReadDr(d).0);
  }

  lemma WriteDrKeepsInv(d: Dev, data: byte)
    requires DevInv(d)
    ensures DevInv(WriteDr(d, data))
  {
    assert FlagInv(WriteDr(d, data));
  }

  lemma GetDataKeepsInv(d: Dev)
    requires DevInv(d)
    ensures DevInv(GetData(d).0)
  {
    assert FlagInv(GetData(d).0);
  }

  lemma SetDataKeepsInv(d: Dev, value: seq<byte>)
    requires DevInv(d)
    ensures DevInv(SetData(d, value))
    ensures d.variant.Dma? && (value != [] || RxFaithful(d)) ==> RxFaithful(SetData(d, value))
  {
    assert FlagInv(SetData(d, value));
  }

  lemma WriteRegisterKeepsInv(d: Dev, value: Ints)
    requires DevInv(d)
    ensures DevInv(WriteIcr(d, value)) && DevInv(WriteImsc(d, value))
  {
  }

  lemma BusReadKeepsInv(d: Dev, offset: nat)
    requires DevInv(d)
    ensures DevInv(BusRead(d, offset).0)
  {
    ReadDrKeepsInv(d);
  }

  lemma BusWriteKeepsInv(d: Dev, offset: nat, value: word)
    requires DevInv(d)
    ensures DevInv(BusWrite(d, offset, value))
  {
    WriteDrKeepsInv(d, Low8(value));
    WriteRegisterKeepsInv(d, IntsOf(Low32(value)));
  }

  lemma ApplyKeepsInv(d: Dev, a: Access)
    requires DevInv(d)
    ensures DevInv(Apply(d, a))
  {
    match a
    case Read(offset) => BusReadKeepsInv(d, offset);
    case Write(offset, value) => BusWriteKeepsInv(d, offset, value);
    case Get => GetDataKeepsInv(d);
    case Set(bytes) => SetDataKeepsInv(d, bytes);
  }
}
