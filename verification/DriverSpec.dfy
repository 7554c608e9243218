/**
 * The DMA driver with LEDs and button, together with the device and the DMA engine, as a value. Each
 * handler, callback or submitted chunk is one step; so is each byte the engine moves.
 */
module DriverSpec {
  import opened Registers
  import opened Words
  import opened DeviceSpec
  import opened Interrupts

  /** A DMA channel: at rest, or some bytes into its scatterlist. */
  datatype Channel = Idle | Active(moved: nat)

  datatype Drv = Drv(
    dev: Dev,
    txQueued: bool, tx: Channel, txMaps: int, txLen: nat, txBuf: seq<byte>,
    rxQueued: bool, rx: Channel, rxMaps: int, rxBuf: seq<byte>, rxSize: int,
    rxWork: bool, rxDmaWork: bool,             // scheduled bottom halves
    led0: bool, led1: bool, led2: bool)

  const MASK := Ints(true, true, true, 0)

  /** After a successful probe. */
  function Start(txBuf: seq<byte>, rxBuf: seq<byte>): Drv {
    Drv(WriteImsc(Init(Dma), MASK),
        false, Idle, 0, DMA_BUFFER_SIZE, txBuf,
        false, Idle, 0, rxBuf, 0,
        false, false,
        false, false, false)
  }

  datatype Step =
    | HostGets
    | HostSets(bytes: seq<byte>)
    | SubmitTx(data: seq<byte>, mapOk: bool, prepOk: bool)   // one chunk of the write loop
    | MoveTx
    | CompleteTx
    | Interrupt
    | StartRx(mapOk: bool, prepOk: bool)                     // the bottom half of RX
    | MoveRx
    | CompleteRx
    | StopRx(residue: nat)                                   // the bottom half of RX_EMPTY
    | Button

  predicate Enabled(s: Drv, e: Step) {
    match e
    case HostGets => true
    case HostSets(_) => |s.dev.rx| <= CAPACITY
    case SubmitTx(data, _, _) => !s.txQueued && |data| <= DMA_BUFFER_SIZE <= |s.txBuf|
    case MoveTx => s.tx.Active? && s.tx.moved < s.txLen && s.tx.moved < |s.txBuf| && !s.dev.txBusy
    case CompleteTx => s.tx.Active? && s.tx.moved >= s.txLen
    case Interrupt => s.dev.irq
    case StartRx(_, _) => s.rxWork
    case MoveRx => s.rx.Active? && s.rx.moved < DMA_BUFFER_SIZE && s.rx.moved < |s.rxBuf| && !s.dev.rxBusy
    case CompleteRx => s.rx.Active? && s.rx.moved >= DMA_BUFFER_SIZE
    case StopRx(residue) =>
      // an active channel reports what it has left to move; of one at rest nothing is assumed
      && s.rxDmaWork && residue <= DMA_BUFFER_SIZE
      && (s.rx.Active? ==> residue + s.rx.moved == DMA_BUFFER_SIZE)
    case Button => true
  }

  function TxCallback(s: Drv): Drv {
    s.(txMaps := s.txMaps - 1, txQueued := false, led0 := false)
  }

  function RxCallback(s: Drv): Drv {
    s.(rxMaps := s.rxMaps - 1, rxQueued := false, led1 := false)
  }

  /** Terminating a transfer does not call back, so the handlers do it themselves. */
  function AbortRx(s: Drv): Drv {
    if s.rxQueued then RxCallback(s.(rx := Idle)) else s
  }

  /** A failed map changes nothing, a failed prepare undoes the map. */
  function LaunchTx(s: Drv, mapOk: bool, prepOk: bool): Drv {
    if !mapOk || !prepOk then s else s.(txMaps := s.txMaps + 1, txQueued := true, led0 := true, tx := Active(0))
  }

  function Submit(s: Drv, data: seq<byte>, mapOk: bool, prepOk: bool): Drv
    requires |data| <= |s.txBuf|
  {
    LaunchTx(s.(txBuf := data + s.txBuf[|data|..], txLen := |data|), mapOk, prepOk)
  }

  function LaunchRx(s: Drv, mapOk: bool, prepOk: bool): Drv {
    if !mapOk || !prepOk then s else s.(rxMaps := s.rxMaps + 1, rxQueued := true, led1 := true, rx := Active(0))
  }

  function Begin(s: Drv, mapOk: bool, prepOk: bool): Drv {
    LaunchRx(AbortRx(s.(rxWork := false)), mapOk, prepOk)
  }

  function Stop(s: Drv, residue: nat): Drv {
    var size := DMA_BUFFER_SIZE - residue;
    AbortRx(s.(rxDmaWork := false, rxSize := size, led2 := s.led2 || size != 0))
  }

  function Take(s: Drv, e: Step): Drv
    requires Enabled(s, e)
  {
    match e
    case HostGets => s.(dev := GetData(s.dev).0)
    case HostSets(bytes) => s.(dev := SetData(s.dev, bytes))
    case SubmitTx(data, mapOk, prepOk) => Submit(s, data, mapOk, prepOk)
    case MoveTx => s.(dev := WriteDr(s.dev, s.txBuf[s.tx.moved]), tx := Active(s.tx.moved + 1))
    case CompleteTx => TxCallback(s.(tx := Idle))
    case Interrupt =>
      s.(dev := Handle(s.dev),
         rxWork := s.rxWork || Served(s.dev).Receive?,
         rxDmaWork := s.rxDmaWork || Served(s.dev).ReceiveEmpty?)
    case StartRx(mapOk, prepOk) => Begin(s, mapOk, prepOk)
    case MoveRx =>
      s.(dev := ReadDr(s.dev).0, rxBuf := s.rxBuf[s.rx.moved := ReadDr(s.dev).1], rx := Active(s.rx.moved + 1))
    case CompleteRx => RxCallback(s.(rx := Idle))
    case StopRx(residue) => Stop(s, residue)
    case Button => s.(rxSize := 0, led2 := false)
  }

  /** The part of the transmit buffer the engine still has to move. */
  function InTransit(s: Drv): seq<byte> {
    if s.tx.Active? && s.tx.moved <= s.txLen <= |s.txBuf| then s.txBuf[s.tx.moved..s.txLen] else []
  }

  // ---- What every step keeps -------------------------------------------------------------------

  predicate DeviceOk(s: Drv) {
    DevInv(s.dev) && IntInv(s.dev) && s.dev.variant.Dma? && s.dev.imsc == MASK
  }

  /** A scatterlist is mapped once exactly while its transfer is queued and its channel active. */
  predicate MappingOk(s: Drv) {
    && s.txMaps == (if s.txQueued then 1 else 0)
    && s.rxMaps == (if s.rxQueued then 1 else 0)
    && (s.tx.Active? <==> s.txQueued)
    && (s.rx.Active? <==> s.rxQueued)
  }

  /** LED 0 and 1 show the two transfers; LED 2 is on while there is something to read. */
  predicate LedsOk(s: Drv) {
    s.led0 == s.txQueued && s.led1 == s.rxQueued && (s.rxSize != 0 ==> s.led2)
  }

  predicate SizesOk(s: Drv) {
    && |s.txBuf| == |s.rxBuf| == DMA_BUFFER_SIZE
    && s.txLen <= DMA_BUFFER_SIZE
    && 0 <= s.rxSize <= DMA_BUFFER_SIZE
    && (s.tx.Active? ==> s.tx.moved <= s.txLen)
    && (s.rx.Active? ==> s.rx.moved <= DMA_BUFFER_SIZE)
  }

  /** By the time a receive transfer runs, the receive line means something. */
  predicate LineOk(s: Drv) {
    s.rxWork || s.rxQueued || s.dev.ris.rx ==> RxFaithful(s.dev)
  }

  predicate Inv(s: Drv) {
    DeviceOk(s) && MappingOk(s) && LedsOk(s) && SizesOk(s) && LineOk(s)
  }

  lemma StartOk(txBuf: seq<byte>, rxBuf: seq<byte>)
    requires |txBuf| == |rxBuf| == DMA_BUFFER_SIZE
    ensures Inv(Start(txBuf, rxBuf))
  {
    WriteRegisterKeepsInv(Init(Dma), MASK);
  }

  /** Probe unmasks the three interrupts: RX and TX, and RX_EMPTY for DMA. */
  lemma ProbeMask(txBuf: seq<byte>, rxBuf: seq<byte>)
    ensures Start(txBuf, rxBuf).dev.imsc == IntsOf(Low32(3 + 4))
  {
    DriverWords();
  }

  /** An interrupt schedules nothing while transmit is pending, then the bottom half of RX before that of RX_EMPTY. */
  lemma InterruptSchedules(s: Drv)
    requires s.dev.irq && s.dev.imsc == MASK
    ensures var t := Take(s, Interrupt);
      && (t.rxWork <==> s.rxWork || (!s.dev.ris.tx && s.dev.ris.rx))
      && (t.rxDmaWork <==> s.rxDmaWork || (!s.dev.ris.tx && !s.dev.ris.rx && s.dev.ris.rxEmpty))
      && t == s.(dev := t.dev, rxWork := t.rxWork, rxDmaWork := t.rxDmaWork)
  {
  }

  lemma HandleKeepsMask(d: Dev)
    ensures Handle(d).imsc == d.imsc && Handle(d).variant == d.variant
    ensures RxFaithful(d) <==> RxFaithful(Handle(d))
  {
    HandleOnlyClears(d);
  }

  lemma KeepsDevice(s: Drv, e: Step)
    requires DeviceOk(s) && Enabled(s, e)
    ensures DeviceOk(Take(s, e))
  {
    hide DevInv;
    match e
    case HostGets => EventKeepsMeaning(s.dev, HostTakes);
    case HostSets(bytes) => EventKeepsMeaning(s.dev, HostOffers(bytes));
    case MoveTx => EventKeepsMeaning(s.dev, CpuWrite(s.txBuf[s.tx.moved]));
    case MoveRx => EventKeepsMeaning(s.dev, CpuRead);
    case Interrupt =>
      EventKeepsMeaning(s.dev, HandlerRuns);
      HandleKeepsMask(s.dev);
    case _ =>
  }

  /** The copy into the buffer stands also when a call fails after it; nothing else is changed then. */
  lemma SubmitCopies(s: Drv, data: seq<byte>, mapOk: bool, prepOk: bool)
    requires |data| <= |s.txBuf|
    ensures var t := Submit(s, data, mapOk, prepOk);
      && |t.txBuf| == |s.txBuf| && t.txLen == |data|
      && (forall k :: 0 <= k < |s.txBuf| ==> t.txBuf[k] == if k < |data| then data[k] else s.txBuf[k])
      && (!mapOk || !prepOk ==> t == s.(txBuf := t.txBuf, txLen := |data|))
  {
  }

  lemma SubmitKeeps(s: Drv, data: seq<byte>, mapOk: bool, prepOk: bool)
    requires |data| <= |s.txBuf| && !s.txQueued
    ensures var t := Submit(s, data, mapOk, prepOk);
            (MappingOk(s) ==> MappingOk(t)) && (LedsOk(s) ==> LedsOk(t))
  {
  }

  lemma BeginKeeps(s: Drv, mapOk: bool, prepOk: bool)
    ensures var t := Begin(s, mapOk, prepOk);
            (MappingOk(s) ==> MappingOk(t)) && (LedsOk(s) ==> LedsOk(t))
  {
  }

  lemma StopKeeps(s: Drv, residue: nat)
    ensures var t := Stop(s, residue);
            (MappingOk(s) ==> MappingOk(t)) && (LedsOk(s) ==> LedsOk(t))
  {
  }

  lemma SubmitKeepsSizes(s: Drv, data: seq<byte>, mapOk: bool, prepOk: bool)
    requires MappingOk(s) && SizesOk(s) && !s.txQueued && |data| <= DMA_BUFFER_SIZE
    ensures |data| <= |s.txBuf| && SizesOk(Submit(s, data, mapOk, prepOk))
  {
  }

  lemma BeginKeepsSizes(s: Drv, mapOk: bool, prepOk: bool)
    requires SizesOk(s)
    ensures SizesOk(Begin(s, mapOk, prepOk))
  {
  }

  lemma StopKeepsSizes(s: Drv, residue: nat)
    requires SizesOk(s) && residue <= DMA_BUFFER_SIZE
    ensures SizesOk(Stop(s, residue))
  {
  }

  lemma KeepsMapping(s: Drv, e: Step)
    requires MappingOk(s) && Enabled(s, e)
    ensures MappingOk(Take(s, e))
  {
    hide Handle, Served, GetData, SetData, ReadDr, WriteDr, Submit, Begin, Stop;
    match e
    case SubmitTx(data, mapOk, prepOk) => SubmitKeeps(s, data, mapOk, prepOk);
    case StartRx(mapOk, prepOk) => BeginKeeps(s, mapOk, prepOk);
    case StopRx(residue) => StopKeeps(s, residue);
    case _ =>
  }

  lemma KeepsLeds(s: Drv, e: Step)
    requires LedsOk(s) && Enabled(s, e)
    ensures LedsOk(Take(s, e))
  {
    hide Handle, Served, GetData, SetData, ReadDr, WriteDr, Submit, Begin, Stop;
    match e
    case SubmitTx(data, mapOk, prepOk) => SubmitKeeps(s, data, mapOk, prepOk);
    case StartRx(mapOk, prepOk) => BeginKeeps(s, mapOk, prepOk);
    case StopRx(residue) => StopKeeps(s, residue);
    case _ =>
  }

  lemma KeepsSizes(s: Drv, e: Step)
    requires MappingOk(s) && SizesOk(s) && Enabled(s, e)
    ensures SizesOk(Take(s, e))
  {
    hide Handle, Served, GetData, SetData, ReadDr, WriteDr, Submit, Begin, Stop;
    match e
    case SubmitTx(data, mapOk, prepOk) => SubmitKeepsSizes(s, data, mapOk, prepOk);
    case StartRx(mapOk, prepOk) => BeginKeepsSizes(s, mapOk, prepOk);
    case StopRx(residue) => StopKeepsSizes(s, residue);
    case _ =>
  }

  lemma SubmitKeepsReceiving(s: Drv, data: seq<byte>, mapOk: bool, prepOk: bool)
    requires |data| <= |s.txBuf|
    ensures var t := Submit(s, data, mapOk, prepOk);
      t.dev == s.dev && t.rxWork == s.rxWork && t.rxQueued == s.rxQueued
  {
  }

  lemma KeepsLine(s: Drv, e: Step)
    requires DeviceOk(s) && LineOk(s) && Enabled(s, e)
    ensures LineOk(Take(s, e))
  {
    hide Submit;
    match e
    case SubmitTx(data, mapOk, prepOk) => SubmitKeepsReceiving(s, data, mapOk, prepOk);
    case MoveRx => ReadDrKeepsInv(s.dev);
    case HostSets(bytes) => SetDataKeepsInv(s.dev, bytes);
    case Interrupt =>
      HandleOnlyClears(s.dev);
      HandleKeepsMask(s.dev);
    case _ =>
  }

  lemma StepKeepsInv(s: Drv, e: Step)
    requires Inv(s) && Enabled(s, e)
    ensures Inv(Take(s, e))
  {
    KeepsDevice(s, e);
    KeepsMapping(s, e);
    KeepsLeds(s, e);
    KeepsSizes(s, e);
    KeepsLine(s, e);
  }

  predicate Legal(s: Drv, run: seq<Step>)
    decreases |run|
  {
    run == [] || (Enabled(s, run[0]) && Legal(Take(s, run[0]), run[1..]))
  }

  function Run(s: Drv, run: seq<Step>): Drv
    requires Legal(s, run)
    decreases |run|
  {
    if run == [] then s else Run(Take(s, run[0]), run[1..])
  }

  lemma {:induction false} RunKeepsInv(s: Drv, run: seq<Step>)
    requires Inv(s) && Legal(s, run)
    ensures Inv(Run(s, run))
    decreases |run|
  {
    if run != [] {
      StepKeepsInv(s, run[0]);
      RunKeepsInv(Take(s, run[0]), run[1..]);
    }
  }

  /**
   * After every run of handlers, completions, failures, button presses and host accesses: mapping and
   * LEDs are right; a chunk is loaded only into a buffer at rest; the engine writes to the data
   * register only with room for the byte, and reads it only with a byte there.
   */
  lemma EveryRunIsDisciplined(txBuf: seq<byte>, rxBuf: seq<byte>, run: seq<Step>)
    requires |txBuf| == |rxBuf| == DMA_BUFFER_SIZE && Legal(Start(txBuf, rxBuf), run)
    ensures var s := Run(Start(txBuf, rxBuf), run);
      && MappingOk(s)
      && LedsOk(s)
      && (!s.txQueued ==> s.tx.Idle? && s.txMaps == 0)
      && (Enabled(s, MoveTx) ==> |s.dev.tx| < CAPACITY)
      && (Enabled(s, MoveRx) ==> s.dev.rx != [])
      && (s.dev.ris.rx ==> s.dev.rx != []) && (s.dev.ris.rxEmpty ==> s.dev.rx == [])
  {
    StartOk(txBuf, rxBuf);
    RunKeepsInv(Start(txBuf, rxBuf), run);
  }
}
