/**
 * The byte-at-a-time driver and the device, as processes that interleave freely: any number of
 * writers, the interrupt handler, the bottom half and the host. Every register access is one step.
 */
module PioSystem {
  import opened Registers
  import opened Words
  import opened DeviceSpec
  import opened WaitQueue
  import opened Writes

  /** The writer in the critical section: `chunk` is copied from `payload[written..]`, `i` bytes of it are out. */
  datatype Writer = Writer(payload: seq<byte>, written: nat, chunk: seq<byte>, i: nat, wait: Wait)

  datatype Handler = Resting | Entered | AckTx | WakeTx | AckRx | ScheduleRx

  /** The bottom half, `i` bytes into the buffer. */
  datatype Worker = Idle | Locking | Testing(i: nat) | Reading(i: nat)

  datatype Lock = Free | ByWriter | ByWorker

  datatype State = State(
    dev: Dev,
    waiting: seq<seq<byte>>,          // payloads of writers queued on the lock
    lock: Lock,
    writer: Option<Writer>,
    finished: seq<Done>,              // returned writes, in the order they had the lock
    handler: Handler,
    workPending: bool,
    worker: Worker,
    rxBuf: seq<byte>,                 // the 32 slots of the buffer
    rxSize: nat,                      // what the last bottom half left of them to the reader
    drained: seq<byte>,               // everything the host took
    gets: nat,                        // how often it did
    arrived: multiset<seq<byte>>)     // every payload ever submitted

  const MASK := Ints(true, true, false, 0)

  /** After a successful probe. */
  function Start(): State {
    State(WriteImsc(Init(Pio), MASK), [], Free, None, [], Resting, false, Idle,
          seq(FIFO_SIZE, _ => 0), 0, [], 0, multiset{})
  }

  datatype Action =
    | HostGets
    | HostSets(bytes: seq<byte>)
    | Arrives(payload: seq<byte>)
    | Acquires(k: nat)       // the k-th waiting writer gets the lock
    | Copies(n: nat)         // n bytes reach the kernel buffer
    | Finishes
    | Waits
    | Puts
    | HandlerSteps
    | WorkerSteps

  /** Everything but the environment: new data, new writers, and the host. */
  predicate Internal(a: Action) {
    !a.HostGets? && !a.HostSets? && !a.Arrives?
  }

  predicate AtTop(w: Writer) {
    w.chunk == []
  }

  function Left(w: Writer): int {
    |w.payload| - w.written
  }

  predicate Enabled(s: State, a: Action) {
    match a
    case HostGets => true
    case HostSets(_) => |s.dev.rx| <= CAPACITY
    case Arrives(_) => true
    case Acquires(k) => s.lock.Free? && k < |s.waiting|
    case Copies(n) =>
      && s.writer.Some? && AtTop(s.writer.value)
      && 0 < Left(s.writer.value) && n <= Left(s.writer.value) && n <= CHUNK
    case Finishes => s.writer.Some? && AtTop(s.writer.value) && Left(s.writer.value) <= 0
    case Waits => s.writer.Some? && !AtTop(s.writer.value) && Runnable(s.writer.value.wait)
    case Puts =>
      s.writer.Some? && s.writer.value.i < |s.writer.value.chunk| && s.writer.value.wait.Passed?
    case HandlerSteps => !s.handler.Resting? || s.dev.irq
    case WorkerSteps =>
      match s.worker
      case Idle => s.workPending
      case Locking => s.lock.Free?
      case _ => true
  }

  function WithWriter(s: State, w: Writer): State {
    s.(writer := Some(w))
  }

  function Put(w: Writer): Writer {
    if w.i + 1 < |w.chunk| then w.(i := w.i + 1, wait := Check)
    else w.(written := w.written + |w.chunk|, chunk := [], i := 0, wait := Check)
  }

  function WakeWriter(w: Option<Writer>): Option<Writer> {
    if w.None? then None else Some(w.value.(wait := Wake(w.value.wait)))
  }

  function HandlerStep(s: State): State {
    match s.handler
    case Resting => s.(handler := Entered)
    case Entered =>
      var mis := And(s.dev.ris, s.dev.imsc);
      s.(handler := if mis.tx then AckTx else if mis.rx then AckRx else Resting)
    case AckTx => s.(dev := WriteIcr(s.dev, ONLY_TX), handler := WakeTx)
    case WakeTx => s.(writer := WakeWriter(s.writer), handler := Resting)
    case AckRx => s.(dev := WriteIcr(s.dev, ONLY_RX), handler := ScheduleRx)
    case ScheduleRx => s.(workPending := true, handler := Resting)
  }

  /** A store past the buffer leaves its slots alone; what it overwrites there is not modelled. */
  function Store(slots: seq<byte>, i: nat, data: byte): (r: seq<byte>)
    ensures |r| == |slots|
  {
    if i < |slots| then slots[i := data] else slots
  }

  function WorkerStep(s: State): State {
    match s.worker
    case Idle => s.(workPending := false, worker := Locking)
    case Locking => s.(lock := ByWorker, worker := Testing(0))
    case Testing(i) =>
      if s.dev.flag.rxfe then s.(rxSize := i, lock := Free, worker := Idle) else s.(worker := Reading(i))
    case Reading(i) =>
      s.(dev := ReadDr(s.dev).0, rxBuf := Store(s.rxBuf, i, ReadDr(s.dev).1), worker := Testing(i + 1))
  }

  function Step(s: State, a: Action): State
    requires Enabled(s, a)
  {
    match a
    case HostGets =>
      s.(dev := GetData(s.dev).0, drained := s.drained + GetData(s.dev).1, gets := s.gets + 1)
    case HostSets(bytes) => s.(dev := SetData(s.dev, bytes))
    case Arrives(payload) => s.(waiting := s.waiting + [payload], arrived := s.arrived + multiset{payload})
    case Acquires(k) =>
      s.(waiting := s.waiting[..k] + s.waiting[k + 1..],
         lock := ByWriter,
         writer := Some(Writer(s.waiting[k], 0, [], 0, Check)))
    case Copies(n) =>
      var w := s.writer.value;
      WithWriter(s, w.(chunk := w.payload[w.written..w.written + n]))
    case Finishes =>
      s.(lock := Free, writer := None,
         finished := s.finished + [Done(s.writer.value.payload, s.writer.value.written, true)])
    case Waits =>
      var w := s.writer.value;
      WithWriter(s, w.(wait := Advance(w.wait, !s.dev.flag.txff)))
    case Puts =>
      var w := s.writer.value;
      WithWriter(s.(dev := WriteDr(s.dev, w.chunk[w.i])), Put(w))
    case HandlerSteps => HandlerStep(s)
    case WorkerSteps => WorkerStep(s)
  }
}
