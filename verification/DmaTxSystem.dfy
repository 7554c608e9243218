/**
 * The DMA transmit path as processes that interleave freely: any number of writers behind the lock,
 * the DMA engine, its completion callback, the bottom half of receiving, which takes the same lock,
 * the host, and any other access to the registers. Mapping,
 * preparing, raising `queued`, lighting the LED, unmapping, lowering `queued` and darkening the LED are
 * steps of their own.
 */
module DmaTxSystem {
  import opened Registers
  import opened Words
  import opened DeviceSpec
  import opened WaitQueue
  import opened Writes

  datatype Stage =
    | Top
    | Waiting(wait: Wait, last: bool)  // for `queued` to fall; `last` after the loop
    | Copying
    | Mapping(n: nat)                  // n bytes copied, the scatterlist not mapped yet
    | Preparing(n: nat)
    | Marking(n: nat)                  // about to raise `queued`
    | Lighting(n: nat)                 // about to turn LED 0 on
    | Issuing(n: nat)                  // about to start the engine

  datatype Writer = Writer(payload: seq<byte>, written: nat, stage: Stage, failed: bool)

  /** The engine has moved `moved` bytes of the mapped buffer to the data register. */
  datatype Engine = Off | Moving(moved: nat)

  datatype Callback = Absent | Unmapping | Lowering | Darkening | Waking

  datatype State = State(
    dev: Dev,
    waiting: seq<seq<byte>>,
    writer: Option<Writer>,         // in the lock
    receiving: bool,                // the bottom half of receiving is in the lock
    finished: seq<Done>,
    buf: seq<byte>,                 // the DMA buffer, 4096 bytes
    length: nat,                    // of the scatterlist
    maps: int,                      // mappings made less mappings released
    queued: bool,
    led0: bool,
    engine: Engine,
    callback: Callback,
    drained: seq<byte>,             // everything the host took
    gets: nat,                      // how often it did
    arrived: multiset<seq<byte>>)   // every payload ever submitted

  function Start(buf: seq<byte>): State {
    State(WriteImsc(Init(Dma), Ints(true, true, true, 0)), [], None, false, [], buf, DMA_BUFFER_SIZE,
          0, false, false, Off, Absent, [], 0, multiset{})
  }

  datatype Action =
    | HostGets
    | HostSets(bytes: seq<byte>)
    | ReadsData                       // the receive channel
    | ClearsInterrupts(bits: Ints)    // the interrupt handler
    | Arrives(payload: seq<byte>)
    | Acquires(k: nat)
    | Starts                          // the loop test
    | Waits
    | Copies(n: nat)
    | Maps(ok: bool)
    | Prepares(ok: bool)
    | Marks
    | Lights
    | Issues
    | Moves                           // the engine, one byte
    | Completes                       // the engine, after the last byte
    | CallbackSteps
    | ReceiverLocks
    | ReceiverUnlocks

  predicate Internal(a: Action) {
    !a.HostGets? && !a.HostSets? && !a.ReadsData? && !a.ClearsInterrupts? && !a.Arrives? && !a.ReceiverLocks?
  }

  function Left(w: Writer): int {
    |w.payload| - w.written
  }

  predicate Enabled(s: State, a: Action) {
    match a
    case HostGets => true
    case HostSets(_) => |s.dev.rx| <= CAPACITY
    case ReadsData => true
    case ClearsInterrupts(_) => true
    case Arrives(_) => true
    case Acquires(k) => s.writer.None? && !s.receiving && k < |s.waiting|
    case Starts => s.writer.Some? && s.writer.value.stage.Top?
    case Waits => s.writer.Some? && s.writer.value.stage.Waiting? && Runnable(s.writer.value.stage.wait)
    case Copies(n) =>
      && s.writer.Some? && s.writer.value.stage.Copying?
      && n <= Left(s.writer.value) && n <= DMA_BUFFER_SIZE <= |s.buf|
    case Maps(_) => s.writer.Some? && s.writer.value.stage.Mapping?
    case Prepares(_) => s.writer.Some? && s.writer.value.stage.Preparing?
    case Marks => s.writer.Some? && s.writer.value.stage.Marking?
    case Lights => s.writer.Some? && s.writer.value.stage.Lighting?
    case Issues => s.writer.Some? && s.writer.value.stage.Issuing?
    case Moves =>
      s.engine.Moving? && s.engine.moved < s.length && s.engine.moved < |s.buf| && !s.dev.txBusy
    case Completes => s.engine.Moving? && s.length <= s.engine.moved && s.callback.Absent?
    case CallbackSteps => !s.callback.Absent?
    case ReceiverLocks => s.writer.None? && !s.receiving
    case ReceiverUnlocks => s.receiving
  }

  function Stand(s: State, w: Writer, stage: Stage): State {
    s.(writer := Some(w.(stage := stage)))
  }

  /** Past the wait: out of the lock after the loop, on to the copy inside it. */
  function WaitStep(s: State): State
    requires Enabled(s, Waits)
  {
    var w := s.writer.value;
    var next := Advance(w.stage.wait, !s.queued);
    if !next.Passed? then Stand(s, w, Waiting(next, w.stage.last))
    else if !w.stage.last then Stand(s, w, Copying)
    else s.(writer := None,
            finished := s.finished + [Done(w.payload, w.written, !w.failed)])
  }

  function WakeWriter(w: Option<Writer>): Option<Writer> {
    if w.Some? && w.value.stage.Waiting?
    then Some(w.value.(stage := Waiting(Wake(w.value.stage.wait), w.value.stage.last))) else w
  }

  function CallbackStep(s: State): State
    requires !s.callback.Absent?
  {
    match s.callback
    case Unmapping => s.(maps := s.maps - 1, callback := Lowering)
    case Lowering => s.(queued := false, callback := Darkening)
    case Darkening => s.(led0 := false, callback := Waking)
    case Waking => s.(writer := WakeWriter(s.writer), callback := Absent)
  }

  function Step(s: State, a: Action): State
    requires Enabled(s, a)
  {
    match a
    case HostGets =>
      s.(dev := GetData(s.dev).0, drained := s.drained + GetData(s.dev).1, gets := s.gets + 1)
    case HostSets(bytes) => s.(dev := SetData(s.dev, bytes))
    case ReadsData => s.(dev := ReadDr(s.dev).0)
    case ClearsInterrupts(bits) => s.(dev := WriteIcr(s.dev, bits))
    case Arrives(payload) => s.(waiting := s.waiting + [payload], arrived := s.arrived + multiset{payload})
    case Acquires(k) =>
      s.(waiting := s.waiting[..k] + s.waiting[k + 1..], writer := Some(Writer(s.waiting[k], 0, Top, false)))
    case Starts => Stand(s, s.writer.value, Waiting(Check, Left(s.writer.value) <= 0))
    case Waits => WaitStep(s)
    case Copies(n) =>
      var w := s.writer.value;
      Stand(s.(buf := w.payload[w.written..w.written + n] + s.buf[n..], length := n), w, Mapping(n))
    case Maps(ok) =>
      var w := s.writer.value;
      if ok then Stand(s.(maps := s.maps + 1), w, Preparing(w.stage.n))
      else Stand(s, w.(failed := true), Waiting(Check, true))
    case Prepares(ok) =>
      var w := s.writer.value;
      if ok then Stand(s, w, Marking(w.stage.n))
      else Stand(s.(maps := s.maps - 1), w.(failed := true), Waiting(Check, true))
    case Marks => Stand(s.(queued := true), s.writer.value, Lighting(s.writer.value.stage.n))
    case Lights => Stand(s.(led0 := true), s.writer.value, Issuing(s.writer.value.stage.n))
    case Issues =>
      var w := s.writer.value;
      Stand(s.(engine := Moving(0)), w.(written := w.written + w.stage.n), Top)
    case Moves =>
      s.(dev := WriteDr(s.dev, s.buf[s.engine.moved]), engine := Moving(s.engine.moved + 1))
    case Completes => s.(engine := Off, callback := Unmapping)
    case CallbackSteps => CallbackStep(s)
    case ReceiverLocks => s.(receiving := true)
    case ReceiverUnlocks => s.(receiving := false)
  }
}
