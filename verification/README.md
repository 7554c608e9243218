# A teaching SoC and its drivers, in Dafny

A verified model of an emulated memory-mapped device, the Linux drivers that talk to it byte by byte
and by DMA, and an SPI scale with its driver. Device and driver are modelled together, so what is
proved is about the protocol between them: no lost wake-up, no lost byte, no interleaved write, no
livelock, no double mapping.

## How it is organised

| layer | modules |
|---|---|
| registers and rings | `Words` (32-bit words and their bits), `Registers` (the map), `Ring` (the 32-slot ring, as a class) |
| the device | `DeviceSpec` (a value; one function per access), `Device` (the class that refines it), `DeviceRuns` (all runs), `DeviceHistory` (registers from the history of accesses), `Interrupts` (the atomic handler) |
| byte-at-a-time driver | `WaitQueue`, `Writes`, `PioSystem` (interleaved steps), `PioSafety`, `PioProgress`, `PioLazyHost`, `PioReceive` (one offer), `PioReceiveRuns` (any offers), `PioReader` (what the reader gets), `PioDriver` (the program) |
| DMA driver, transmitting | `DmaTxSystem` (interleaved steps), `DmaTxSafety`, `DmaTxProgress`, `DmaTxLazyHost`, `LedRace`, `Agreement` (with the byte-at-a-time driver) |
| DMA driver, whole | `DriverSpec` (one handler a step), `Receive` (one offer, end to end), `ReceiveRuns` (any offers), `DmaReader` (what the reader gets), `Stranding`, `DriverHistory` (rx_size and LED 2 from the history of handlers), `Handler`, `DmaDriver` (the program), `Paging` |
| the scale | `ScaleSpec` (any history), `ScaleDriver` (the program) |

The programs change their state in place, so the device, the rings, both drivers and both ends of
the scale are classes with arrays and loops. Each method is proved equal to a function on values, and
what matters is then proved about those functions, over all runs.

Concurrency is a state machine. In `PioSystem` each register access, each step of the kernel's wait
loop, each wake-up and each lock operation is a step of its own, of any number of writers, the
handler, the bottom half and the host. `DmaTxSystem` splits mapping, preparing, raising `queued`,
lighting the LED and issuing, and the callback's unmapping, lowering, darkening and waking, in the
same way, and has the bottom half of receiving compete for the lock; it also lets any other party
read the data register, offer bytes and write any value to the clear register at any time.
`DriverSpec` takes one handler, callback or chunk as a step.

## What the code does that its names do not say

- The interrupt *clear* register toggles: writing a bit that is not set sets it. The handler only clears
  because it writes what it has just seen (`Interrupts.HandleOnlyClears`, `Interrupts.AcknowledgeToggles`).
  In `PioSystem` the handler's read and write are two steps, so the bit can be toggled back on; the
  wake-up survives that.
- RXFF means "was full since it was last empty", not "is full": it is cleared only with the last byte.
  TXFF, TXFE and RXFE are exact.
- The receive busy line starts low over an empty queue (`DeviceRuns.RxLineExactOncePrimed`).
- A ring of 32 slots holds 31 bytes.
- LED 0 can be out during a transfer, because the callback lowers `queued` before it darkens the LED
  (`LedRace`). With each handler as one step the LEDs are exact (`DriverSpec.KeepsLeds`).
- A second offer can cost bytes already received, but need not (`ReceiveRuns.SecondOfferAbsorbed`). The
  exact conditions, for a reader who reads everything once after each hand-over, are
  `DmaReader.BytesAreKeptIff` and `PioReader.BytesAreKeptIff`. By DMA the RX bottom half may restart a
  transfer (`ReceiveRuns.LossIsReachable`), and the RX_EMPTY bottom half sets rx_size also when there is
  no transfer to stop (`DmaReader.SecondStopTakesBack`), or runs over bytes that came too late and then
  wait for the next offer (`Stranding.StrandedIff`). Byte by byte a second bottom half may end over
  unread bytes (`PioReceiveRuns.SecondOfferForgets`), or store past the buffer
  (`PioReceiveRuns.OverrunIsReachable`); no byte is left behind in its FIFO (`PioSafety.KeepsReceive`).
  The counts of steps in `Receive` and `PioReceive` are about one offer.

## Assumptions

- A condition wait returns only when its condition held, that is, no signal arrives; the driver
  ignores the result of the wait.
- A copy from the user may be partial. The progress results assume that it copies at least one byte
  (the loops retry for ever otherwise); the safety results do not.
- The lock is exclusive, also across sleeping. The write of `week04/mmio.c` takes none; for it the
  results hold with one writer at a time.
- The DMA engine moves one byte a step while the busy line is low, and calls back after the length of
  the scatterlist. The residue of an active channel is the length less what was moved; of a channel
  at rest nothing is assumed but that it is at most 4096.
- The model starts after probe: mask RX and TX, with DMA also RX_EMPTY.
- The position and length of a read do not wrap 64 bits together, and sizes are 64 bits wide.
- The SPI core delivers bytes in order and clocks zeros out in a receive-only transfer; the kernel's
  `char` is unsigned.

## Model

| member | source | states |
|---|---|---|
| `PioSafety.KeepsWake` | SoC 위에 리눅스 디바이스 드라이버/week02/mmio-driver.c:65-80 | No lost wake-up, at the grain of register accesses: whenever the writer sleeps (or is committed to sleeping) and TXFF is clear, INT_TX is set in the status register or the handler is past its acknowledgement and about to wake. Every step of writer, handler, bottom half, host and other writers keeps this, also when the writer fills the FIFO between the handler's status read and its toggling write. |
| `PioProgress.SleeperWakes` | SoC 위에 리눅스 디바이스 드라이버/week02/mmio-driver.c:111-126 | A writer that sleeps although there is room is woken by the handler alone after exactly as many steps as the handler's program counter is away from the wake-up, at most six. |
| `PioSafety.KeepsStream` | SoC 위에 리눅스 디바이스 드라이버/week02/mmio-driver.c:65-80 | Writers are atomic: bytes drained plus bytes in the FIFO are the returned payloads in lock order, whole, followed by a prefix of the current holder's payload; and 31 drained bytes need a drain. |
| `PioSafety.KeepsArrived` | SoC 위에 리눅스 디바이스 드라이버/week02/mmio-driver.c:56-83 | No write is lost, doubled or invented: payloads submitted are those waiting for the lock, the current one and the returned ones, as multisets, after every step. |
| `PioSafety.KeepsRoom` | SoC 위에 리눅스 디바이스 드라이버/week02/mmio-driver.c:70-73 | A writer that passed its wait finds room when it writes the data register, whatever happens in between. |
| `PioSafety.KeepsReceive` | SoC 위에 리눅스 디바이스 드라이버/week02/mmio-driver.c:127-149 | No byte is left behind: whenever the receive FIFO is not empty, INT_RX is set, or the handler is about to schedule the bottom half, or it is scheduled or running. Every step keeps this, the toggling race included. |
| `PioSafety.KeepsLock` | SoC 위에 리눅스 디바이스 드라이버/week02/mmio-driver.c:142-149 | The lock is held by a writer exactly when one is in its critical section, and by the bottom half exactly while it drains. |
| `PioSafety.StepKeepsInv` | SoC 위에 리눅스 디바이스 드라이버/week02/mmio-driver.c:56-150 | All of the above and the device invariants are kept by every step of every process. |
| `PioProgress.InternalDescends` | SoC 위에 리눅스 디바이스 드라이버/week02/mmio-driver.c:66-78 | Every step of a writer, the handler or the bottom half lowers one measure, the toggle race included. |
| `PioProgress.EnvironmentAdds` | SoC 위에 리눅스 디바이스 드라이버/week02/mmio-driver.c:111-133 | A drain adds at most 9 to that measure, an offer at most 320, a new write 12 per byte and 6. |
| `PioProgress.NoLivelock` | SoC 위에 리눅스 디바이스 드라이버/week02/mmio-driver.c:66-150 | Over every run from probe the driver takes no more steps than drains, offers and writes pay for. |
| `PioProgress.SomeoneCanMove` | SoC 위에 리눅스 디바이스 드라이버/week02/mmio-driver.c:65-80 | No deadlock, contrapositive form: unless all writes have returned, or a writer sleeps on a full FIFO, some driver step is enabled; also whenever the interrupt line is up. |
| `PioProgress.StuckMeansDoneOrFull` | SoC 위에 리눅스 디바이스 드라이버/week02/mmio-driver.c:65-150 | When only the environment can move, every write has returned or a writer sleeps on a FIFO holding 31 bytes, the interrupt line is down, and the receive FIFO is empty or the bottom half waits for that writer's lock. |
| `PioProgress.EveryWriteCompletes` | SoC 위에 리눅스 디바이스 드라이버/week02/mmio-driver.c:56-83 | A run that stops with room in the FIFO returned every submitted write exactly once with its full length, and the host stream is the concatenation of their payloads in lock order. |
| `PioProgress.EveryStateIsSafe` | SoC 위에 리눅스 디바이스 드라이버/week02/mmio-driver.c:56-150 | In every reachable state: no lost wake-up, no received byte that nobody will look at, the host stream is whole payloads then a prefix, and n bytes out have taken at least floor((n-1)/31) drains. |
| `PioLazyHost.LazyHostSuffices` | SoC 위에 리눅스 디바이스 드라이버/week02/mmio-driver.c:65-80 | For any number of writers, from every reachable state with n bytes still to go: a host that drains only when nothing else can move takes at most floor((n-1)/31) drains; the run has at most 12 steps a byte, 6 a waiting write, 10 a drain and 345 more; and it can always go on until every write has returned in full and its payload is at the host or in the FIFO, after exactly floor((n-1)/31) drains (0 for none). |
| `PioLazyHost.LazyRunExists` | SoC 위에 리눅스 디바이스 드라이버/week02/mmio-driver.c:65-80 | From every state that meets the invariants such a run to the end exists. |
| `PioReceive.HandOverStep` | SoC 위에 리눅스 디바이스 드라이버/week02/mmio-driver.c:127-150 | While one offer is handed over, every step keeps it in one of the named phases and lowers the steps ahead by one exactly when it is a receive step. |
| `PioReceive.OneOfferIsDelivered` | SoC 위에 리눅스 디바이스 드라이버/week02/mmio-driver.c:127-150 | From a quiet receive path one offer v is in the reader's buffer, exactly as its first min(len(v),31) bytes, after exactly 2*min(len(v),31)+6 receive steps and not before, in any interleaving with writers, transmit interrupts and drains; a run that stops earlier has a writer holding the lock before a full FIFO. |
| `PioReader.BytesAreKeptIff` | SoC 위에 리눅스 디바이스 드라이버/week02/mmio-driver.c:85-150 | Over every run with any offers and reads at any time: everything accepted is with the reader, unread in the buffer, with the bottom half or in the FIFO, in order and in each state along the run, if and only if no byte is stored over a different unread one or past the 32nd slot, and no bottom half ends over unread bytes. |
| `PioReader.TurnHolds` | SoC 위에 리눅스 디바이스 드라이버/week02/mmio-driver.c:85-150 | The same for one step or read, from any state that meets the invariants. |
| `PioReader.ReaderGetsEverything` | SoC 위에 리눅스 디바이스 드라이버/week02/mmio-driver.c:85-150 | A run from probe without such a step: once nothing is on its way, the reader has exactly the accepted bytes. |
| `PioReceiveRuns.EachEndHandsOverWhatCame` | SoC 위에 리눅스 디바이스 드라이버/week02/mmio-driver.c:142-149 | From one end of a bottom half to the next rx_size stays, and then is the number of bytes accepted in between; the buffer holds the first 32 of them, so all if and only if there are at most 32. |
| `PioReceiveRuns.NoEndPlaces` | SoC 위에 리눅스 디바이스 드라이버/week02/mmio-driver.c:143-147 | Until the end exactly the slots for the bytes read are overwritten, with those bytes. |
| `PioReceiveRuns.ReadsInOrder` | SoC 위에 리눅스 디바이스 드라이버/week02/mmio-driver.c:143-147 | Over every run, bytes read by the bottom half ++ FIFO are the initial FIFO ++ everything accepted. |
| `PioReceiveRuns.SecondOfferForgets` | SoC 위에 리눅스 디바이스 드라이버/week02/mmio-driver.c:127-150 | A reachable loss: two bytes offered, the second during the drain of the first, are both in the buffer and then forgotten by the run the second offer has scheduled. |
| `PioReceiveRuns.StepKeepsBytes` | SoC 위에 리눅스 디바이스 드라이버/week02/mmio-driver.c:143-147 | Every step but the end of a bottom half, any offer included, only passes bytes from the host through the FIFO to the buffer; one stored past the buffer is gone. |
| `PioReceiveRuns.StaysInBufferIff` | SoC 위에 리눅스 디바이스 드라이버/week02/mmio-driver.c:143-147 | With offers at any time: from the lock to its end a bottom half stores only at indices below 32 if and only if the bytes it found and those accepted meanwhile are 32 at most. |
| `PioReceiveRuns.OverrunIsReachable` | SoC 위에 리눅스 디바이스 드라이버/week02/mmio-driver.c:146 | From probe, a host that offers a byte for each byte read drives the index to 32. |
| `PioReceiveRuns.IndexReaches` | SoC 위에 리눅스 디바이스 드라이버/week02/mmio-driver.c:143-147 | That index reaches every number up to 32. |
| `PioReceive.EmptyRunForgets` | SoC 위에 리눅스 디바이스 드라이버/week02/mmio-driver.c:136-149 | From any state with a bottom half scheduled over an empty FIFO and the lock free, its three steps set rx_size to 0. |
| `DmaTxSafety.KeepsStream` | SoC 위에 리눅스 디바이스 드라이버/week04/mmio-memcpy.c:128-162 | Byte conservation: drained ++ transmit FIFO ++ unsent part of the mapped buffer equals the returned writes ++ the submitted part of the current payload, kept by every step of writers, engine, callback, host and any other register access, for every chunking, partial copy and failure. |
| `DmaTxSafety.KeepsControl` | SoC 위에 리눅스 디바이스 드라이버/week04/mmio-memcpy.c:129-156 | `queued` is up exactly from its raising until its lowering in the callback, and no chunk is loaded while a transfer is under way. |
| `DmaTxSafety.KeepsMapping` | SoC 위에 리눅스 디바이스 드라이버/week04/mmio-memcpy.c:104-148 | The transmit scatterlist is mapped once, exactly from the map call to the unmap call, failures of the prepare call included. |
| `DmaTxSafety.KeepsBuffer` | SoC 위에 리눅스 디바이스 드라이버/week04/mmio-memcpy.c:132-134 | The buffer holds the chunk from the copy until the last byte has been moved: it is never overwritten under a transfer. |
| `DmaTxSafety.KeepsWake` | SoC 위에 리눅스 디바이스 드라이버/week04/mmio-memcpy.c:105-107 | No lost wake-up on `queued`: a writer committed to sleeping while `queued` is down has a callback about to wake it. |
| `DmaTxSafety.KeepsCount` | SoC 위에 리눅스 디바이스 드라이버/week04/mmio-memcpy.c:128-161 | A write without map or prepare failure returns the whole length; one with a failure goes to the last wait and returns what was submitted. |
| `DmaTxSafety.KeepsArrived` | SoC 위에 리눅스 디바이스 드라이버/week04/mmio-memcpy.c:111-196 | No write is lost, doubled or invented behind the lock. |
| `DmaTxSafety.StepKeepsInv` | SoC 위에 리눅스 디바이스 드라이버/week04/mmio-memcpy.c:101-196 | All of the above are kept by every step of every process: writers, engine, callback, host, and the bottom half of receiving, which takes the same lock. |
| `DmaTxProgress.InternalDescends` | SoC 위에 리눅스 디바이스 드라이버/week04/mmio-memcpy.c:128-162 | Every step of writers, engine and callback lowers one measure. |
| `DmaTxProgress.NoLivelock` | SoC 위에 리눅스 디바이스 드라이버/week04/mmio-memcpy.c:128-162 | Over every run writers, engine and callback take at most 23 steps per byte, 21 more per write and one for each bottom half of receiving. |
| `DmaTxProgress.StuckMeansDoneOrFull` | SoC 위에 리눅스 디바이스 드라이버/week04/mmio-memcpy.c:128-162 | No deadlock: when only the environment can move, all writes have returned with the mapping released and `queued` down, or the engine holds a byte that a full FIFO keeps back. |
| `DmaTxProgress.StreamIsAtomic` | SoC 위에 리눅스 디바이스 드라이버/week04/mmio-memcpy.c:122-193 | In a state that meets the invariants: what the host has or can see is what the returned writes sent, in lock order, then a prefix of the current payload. |
| `DmaTxProgress.EveryStateIsSafe` | SoC 위에 리눅스 디바이스 드라이버/week04/mmio-memcpy.c:101-193 | In every reachable state: no lost wake-up, conservation, mapping and `queued` exact, the copy into the buffer only with no transfer under way and nothing mapped, and floor((n-1)/31) drains behind n bytes. |
| `DmaTxProgress.EveryStateIsAtomic` | SoC 위에 리눅스 디바이스 드라이버/week04/mmio-memcpy.c:122-193 | In every reachable state what the host has or can see is the returned writes in lock order, then a prefix of the current payload; of a returned write it is the whole payload if nothing failed in it, else the prefix it counted. |
| `DmaTxLazyHost.LazyHostSuffices` | SoC 위에 리눅스 디바이스 드라이버/week04/mmio-memcpy.c:128-162 | For any number of writers, from every state reached without empty copies with n bytes still to go: a host that drains only when nothing else can move takes at most floor((n-1)/31) drains; the run has at most 23 steps a byte, 21 a waiting write, one a drain and 38 more; and it can always go on until every write has returned, those without failures in full, after exactly floor((m-1)/31) drains for the m bytes that came (0 for none). |
| `DmaTxLazyHost.LazyRunExists` | SoC 위에 리눅스 디바이스 드라이버/week04/mmio-memcpy.c:128-162 | From every such state a run to the end exists. |
| `DmaTxProgress.EveryWriteCompletes` | SoC 위에 리눅스 디바이스 드라이버/week04/mmio-memcpy.c:122-196 | A run without failures that stops with room in the FIFO returned every write in full exactly once, and the host stream is the concatenation of their payloads. |
| `LedRace.LedShowsTransferUnlessOvertaken` | SoC 위에 리눅스 디바이스 드라이버/week04/mmio-memcpy.c:105-106 | With every flag and pin write its own step, over every run that does not stop between the callback's two writes: LED 0 agrees with `queued` in each state with no LED write outstanding if and only if the writer never lights the LED while the callback is between lowering `queued` and darkening it. |
| `LedRace.StaysDark` | SoC 위에 리눅스 디바이스 드라이버/week04/mmio-memcpy.c:105-106 | Once the LED is out under a queued transfer it stays out until the callback of that transfer lowers `queued`. |
| `LedRace.LedCanGoOutUnderATransfer` | SoC 위에 리눅스 디바이스 드라이버/week04/mmio-memcpy.c:105-106 | From probe, for any two writes of one byte each, copied whole, a reachable state with a transfer queued and LED 0 out. |
| `Agreement.PioAndDmaAgree` | SoC 위에 리눅스 디바이스 드라이버/week04/mmio-memcpy.c:122-196 | For writes served in the same order, any finished PIO run and any finished DMA run without failures show the host the same stream and return the same counts, whatever the chunks, drains and interleavings. |
| `Agreement.OnePayloadArrivesWhole` | SoC 위에 리눅스 디바이스 드라이버/week02/mmio-driver.c:66-82 | For one payload both drivers deliver exactly that payload and return its length. |
| `Receive.OneOfferIsDelivered` | SoC 위에 리눅스 디바이스 드라이버/week04/mmio.c:101-122 | DMA receive end to end from a quiet driver: one offer v is handed over in exactly min(len(v),31)+4 receive steps, in any interleaving with transmitting; then and only then rx_size is that number, the buffer starts with those bytes of v, FIFO empty, no RX or RX_EMPTY pending, mapping released, LED 1 off, LED 2 on; before that a receive step is enabled. |
| `Receive.HandOverStep` | SoC 위에 리눅스 디바이스 드라이버/week04/mmio.c:270-345 | Every undisturbed step keeps the hand-over in one of its phases and lowers the steps ahead by one exactly when it is a receive step; so the engine never reads an empty FIFO. |
| `Receive.AheadIsReachable` | SoC 위에 리눅스 디바이스 드라이버/week04/mmio.c:306-345 | Until the bytes are delivered some receive step is enabled, and none is ahead exactly when they are delivered. |
| `DmaReader.BytesAreKeptIff` | SoC 위에 리눅스 디바이스 드라이버/week04/mmio.c:86-143 | Over every run with any offers, reads, restarts, failures and button presses: everything accepted is with the reader, unread, in the running transfer or in the FIFO, in order and in each state along the run, if and only if there is no restart of a transfer that has moved something, no transfer that fills the buffer, no byte moved over a different unread one, no button over unread bytes, and no RX_EMPTY bottom half over unread bytes or, with no transfer to stop, with a residue that is not 4096 less their number. |
| `DmaReader.TurnHolds` | SoC 위에 리눅스 디바이스 드라이버/week04/mmio.c:86-143 | The same for one step or read, from any state that meets the invariants. |
| `DmaReader.ReaderGetsEverything` | SoC 위에 리눅스 디바이스 드라이버/week04/mmio.c:86-143 | A run from probe without such a step: once nothing is on its way, the reader has exactly the accepted bytes. |
| `DmaReader.SecondStopTakesBack` | SoC 위에 리눅스 디바이스 드라이버/week04/mmio.c:107-121 | A reachable loss with no restart: two bytes are readable, and a second RX_EMPTY bottom half, with no transfer to stop, sets rx_size to 4096 less any residue. |
| `ReceiveRuns.RestartsDropIff` | SoC 위에 리눅스 디바이스 드라이버/week04/mmio.c:313-317 | A tally of transfers, not of what the reader sees: over every run the bytes of transfers that ended without a restart, those moved by the running one and the FIFO make up everything accepted, in order, if and only if the RX bottom half never found a transfer that had moved something. |
| `ReceiveRuns.EachStopHandsOverWhatCame` | SoC 위에 리눅스 디바이스 드라이버/week04/mmio.c:101-121 | From the start of a transfer to the RX_EMPTY bottom half that stops it: what is then readable ++ FIFO is exactly the FIFO at the start ++ everything accepted since. |
| `ReceiveRuns.StopSizeIsRightIff` | SoC 위에 리눅스 디바이스 드라이버/week04/mmio.c:113-118 | rx_size is the number of bytes the transfer has received, for every residue, if and only if there is a transfer to stop. |
| `ReceiveRuns.StepKeepsBytes` | SoC 위에 리눅스 디바이스 드라이버/week04/mmio.c:270-342 | Every step but the end of a transfer only passes bytes from the host through the FIFO to the buffer. |
| `ReceiveRuns.EveryByteCounts` | SoC 위에 리눅스 디바이스 드라이버/week04/mmio.c:306-345 | Over every run the accepted bytes are those of ended transfers, those dropped by restarts, those moved and those in the FIFO, by number. |
| `ReceiveRuns.StopHandsOver` | SoC 위에 리눅스 디바이스 드라이버/week04/mmio.c:109-121 | The RX_EMPTY bottom half hands over exactly what the transfer it stops has moved; with none to stop it sets rx_size to 4096 less the residue of the channel at rest. |
| `ReceiveRuns.ReaderKeepsData` | SoC 위에 리눅스 디바이스 드라이버/week04/mmio.c:101-143 | The reader's data changes only by a received byte, a hand-over, or the button. |
| `ReceiveRuns.SecondOfferAbsorbed` | SoC 위에 리눅스 디바이스 드라이버/week04/mmio.c:270-300 | A second offer that the engine empties before the handler runs costs nothing: it is received behind the first. |
| `ReceiveRuns.LossIsReachable` | SoC 위에 리눅스 디바이스 드라이버/week04/mmio.c:313-317 | From probe, for every first offer of 2 to 31 bytes and every second one, a run in which a restart drops a moved byte. |
| `Stranding.StrandedIff` | SoC 위에 리눅스 디바이스 드라이버/week04/mmio.c:101-122 | Over every run from probe: bytes are at some time in the FIFO with RX not pending, its bottom half not scheduled and no transfer, if and only if over such bytes the RX_EMPTY bottom half runs, or that of RX fails to map or prepare. |
| `Stranding.StrandedUntilOffer` | SoC 위에 리눅스 디바이스 드라이버/week04/mmio.c:285-290 | Stranded bytes stay so until the next non-empty offer. |
| `Stranding.StrandingIsReachable` | SoC 위에 리눅스 디바이스 드라이버/week04/mmio.c:306-342 | From probe, for any two bytes, the second of which comes between the RX_EMPTY interrupt and its bottom half: it is stranded with the line down and nothing scheduled. |
| `Receive.SecondOfferRestarts` | SoC 위에 리눅스 디바이스 드라이버/week04/mmio.c:313-342 | On the schedule where handler and bottom half run at once after a second offer, with no TX pending: the transfer restarts at the front of the buffer, and what is handed over from there is the unmoved rest and the new bytes. |
| `DriverSpec.KeepsMapping` | SoC 위에 리눅스 디바이스 드라이버/week04/mmio.c:86-94 | Handler granularity: each scatterlist is mapped once exactly while its `queued` is up, and its channel active exactly then, over map and prepare failures, completions and terminations. |
| `DriverSpec.KeepsLeds` | SoC 위에 리눅스 디바이스 드라이버/week04/mmio.c:113-143 | LED 0 shows tx.queued, LED 1 shows rx.queued, and something to read implies LED 2, over every step. |
| `DriverSpec.KeepsSizes` | SoC 위에 리눅스 디바이스 드라이버/week04/mmio.c:113-135 | 0 <= rx_size <= 4096, buffers keep their size, and neither channel moves past its scatterlist. |
| `DriverSpec.KeepsLine` | SoC 위에 리눅스 디바이스 드라이버/week04/mmio.c:285-342 | Whenever a receive transfer is pending, scheduled or running, the receive back-pressure line is exact. |
| `DriverSpec.KeepsDevice` | SoC 위에 리눅스 디바이스 드라이버/week04/mmio.c:270-300 | The device invariants and the meaning of every pending interrupt survive each driver step. |
| `DriverSpec.StepKeepsInv` | SoC 위에 리눅스 디바이스 드라이버/week04/mmio.c:86-345 | All five are kept by every handler, callback, chunk, engine byte, host access and button press. |
| `DriverSpec.EveryRunIsDisciplined` | SoC 위에 리눅스 디바이스 드라이버/week04/mmio.c:86-345 | After every run: mapping and LEDs as above; a chunk goes only into a buffer at rest; the engine writes the data register only with room and reads it only with a byte there. |
| `DeviceRuns.EveryRunIsConsistent` | SoC 위에 리눅스 디바이스 드라이버/week02/mmio.c:71-180 | In every state reachable by any accesses: TXFE iff transmit empty, TXFF iff transmit full, RXFE iff receive empty, receive full implies RXFF implies receive non-empty, line up iff ris & imsc is non-zero, tx busy iff transmit full, receive non-empty implies rx busy low. |
| `DeviceRuns.RxLineExactOncePrimed` | SoC 위에 리눅스 디바이스 드라이버/week03/mmio.c:79-91 | The receive busy line is high exactly when the receive FIFO is empty if and only if a data register read or a non-empty offer has happened since power-on. |
| `DeviceRuns.TransmitConserved` | SoC 위에 리눅스 디바이스 드라이버/week03/mmio.c:118-163 | Over every run: bytes taken by the host ++ transmit FIFO = initial FIFO ++ the remainders by 256 of the words written to the data register while there was room, in order. |
| `DeviceRuns.WriteSendsLowByte` | SoC 위에 리눅스 디바이스 드라이버/week03/mmio.c:118-121 | For every byte x and any upper bits of the word: x joins the queue if there is room, and nothing otherwise. |
| `DeviceRuns.ReceiveConserved` | SoC 위에 리눅스 디바이스 드라이버/week03/mmio.c:78-189 | Over every run: the words that bus reads of the data register returned ++ receive FIFO = initial FIFO ++ the fitting part of each offer. |
| `DeviceRuns.ReadBringsOldest` | SoC 위에 리눅스 디바이스 드라이버/week03/mmio.c:79-111 | A read of the data register brings the oldest byte over the bus, 0 when there is none, and takes it. |
| `DeviceHistory.HistoryDecides` | SoC 위에 리눅스 디바이스 드라이버/week03/mmio.c:72-189 | Over every run from power-on, told from the list of accesses alone: queue lengths; each of the three interrupts by the access that last set, cleared or toggled it; the mask by the last write to it; RXFF if and only if the receive FIFO was full since it was last empty. |
| `DeviceHistory.StatusOnTheBus` | SoC 위에 리눅스 디바이스 드라이버/week03/mmio.c:93-104 | The same as words read over the bus: RIS, IMSC and MIS = RIS & IMSC, and the line is up if and only if MIS is not 0. |
| `DeviceHistory.FlagsOnTheBus` | SoC 위에 리눅스 디바이스 드라이버/week03/mmio.c:93-95 | The flag word on the bus, told from the history of queue lengths. |
| `DeviceHistory.DrainRaises` | SoC 위에 리눅스 디바이스 드라이버/week03/mmio.c:157-158 | Whatever was before, a drain raises INT_TX and nothing else, and the line if it is unmasked. |
| `DeviceHistory.OfferRaises` | SoC 위에 리눅스 디바이스 드라이버/week03/mmio.c:182-188 | A non-empty offer raises INT_RX, and the line if it is unmasked; with DMA lines it takes RX_EMPTY back. |
| `DeviceHistory.LastReadRaises` | SoC 위에 리눅스 디바이스 드라이버/week03/mmio.c:86-91 | The read that leaves the FIFO empty takes INT_RX back; with DMA lines it raises RX_EMPTY, and the line if it is unmasked. |
| `DeviceHistory.PendingFromDrain` | SoC 위에 리눅스 디바이스 드라이버/week03/mmio.c:126-158 | From a drain on INT_TX is pending until a write fills the FIFO or a write to the clear register toggles it. |
| `DeviceHistory.MaskReadsBack` | SoC 위에 리눅스 디바이스 드라이버/week03/mmio.c:99-139 | Every 32-bit word written to the mask register reads back, whatever the upper half of the bus word. |
| `DeviceHistory.NothingElse` | SoC 위에 리눅스 디바이스 드라이버/week03/mmio.c:77-141 | Other offsets read as 0, reads other than of the data register and writes other than of it, the clear and the mask register change nothing. |
| `Registers.DriverWords` | SoC 위에 리눅스 디바이스 드라이버/week03/mmio.c:28-30 | The driver's words 1, 2 and 4 are RX, TX and RX_EMPTY, and 3 and 7 their unions. |
| `Registers.FlagWords` | SoC 위에 리눅스 디바이스 드라이버/week03/mmio.c:14-17 | 8, 4, 2 and 1 are TXFE, TXFF, RXFE and RXFF. |
| `DeviceHistory.Identification` | SoC 위에 리눅스 디바이스 드라이버/week03/mmio.c:18-20 | The identification bytes make up 0x001AA001 and 0xB105F00D, low byte first, each at four offsets. |
| `DeviceRuns.TakenBound` | SoC 위에 리눅스 디바이스 드라이버/week03/mmio.c:150-153 | k drains take at most 31k bytes. |
| `DeviceRuns.DrainsNeeded` | SoC 위에 리눅스 디바이스 드라이버/week02/mmio.c:115-158 | n >= 1 bytes accepted since power-on took at least floor((n-1)/31) drains, for every sequence of accesses. |
| `Interrupts.HandleOnlyClears` | SoC 위에 리눅스 디바이스 드라이버/week04/mmio.c:275-298 | The toggling clear register only ever clears for the atomic handler: it clears exactly the served bit, which was pending and unmasked, and touches nothing else but the line. |
| `Interrupts.EventKeepsMeaning` | SoC 위에 리눅스 디바이스 드라이버/week03/mmio.c:82-188 | Every event keeps: pending INT_TX implies transmit not full, INT_RX implies receive non-empty, RX_EMPTY implies receive empty, no other bit set. |
| `Interrupts.PendingIsTrue` | SoC 위에 리눅스 디바이스 드라이버/week04/mmio.c:270-300 | The same over every run, so RX and RX_EMPTY are never both pending. |
| `Interrupts.HandleServesOne` | SoC 위에 리눅스 디바이스 드라이버/week04/mmio.c:270-300 | One handler run serves exactly one pending unmasked interrupt, and the line is up iff there is one. |
| `Interrupts.HandlerOrder` | SoC 위에 리눅스 디바이스 드라이버/week04/mmio.c:275-299 | Told from status and mask alone: an unmasked pending TX is cleared first, then RX, then RX_EMPTY, the others stay, and with none pending nothing changes. |
| `Interrupts.HandlerLowersTheLine` | SoC 위에 리눅스 디바이스 드라이버/week04/mmio.c:270-300 | With no other event the line is still up after n handler runs if and only if n is less than the number of pending unmasked interrupts. |
| `Interrupts.AcknowledgeToggles` | SoC 위에 리눅스 디바이스 드라이버/week03/mmio.c:132-135 | Where clearing is false of the register: for every device and each of the three causes, its acknowledgement leaves it pending if and only if it was not before, and touches no other bit. |
| `Interrupts.BlindAcknowledgeRaises` | SoC 위에 리눅스 디바이스 드라이버/week03/mmio.c:132-135 | An acknowledgement of an unmasked interrupt that is not pending raises it and the line. |
| `DeviceSpec.ReadDrKeepsInv` | SoC 위에 리눅스 디바이스 드라이버/week03/mmio.c:78-92 | A data register read keeps flags, line and busy lines exact, and makes the receive line exact. |
| `DeviceSpec.WriteDrKeepsInv` | SoC 위에 리눅스 디바이스 드라이버/week03/mmio.c:118-131 | A data register write keeps them. |
| `DeviceSpec.GetDataKeepsInv` | SoC 위에 리눅스 디바이스 드라이버/week03/mmio.c:144-163 | A drain keeps them. |
| `DeviceSpec.SetDataKeepsInv` | SoC 위에 리눅스 디바이스 드라이버/week03/mmio.c:165-189 | An offer keeps them; a non-empty one makes the receive line exact. |
| `DeviceSpec.WriteRegisterKeepsInv` | SoC 위에 리눅스 디바이스 드라이버/week03/mmio.c:132-139 | So do writes of any value to the clear and mask registers. |
| `DeviceSpec.ApplyKeepsInv` | SoC 위에 리눅스 디바이스 드라이버/week03/mmio.c:72-189 | So does every bus access at any offset and every host access. |
| `DeviceSpec.Fitting` | SoC 위에 리눅스 디바이스 드라이버/week03/mmio.c:174-176 | Of an offer exactly the first min(len(v), 31-len(q)) bytes are accepted. |
| `Ring.PutBetween` | SoC 위에 리눅스 디바이스 드라이버/week03/mmio.c:52-56 | For every front and rear, across the wrap: putting a byte appends it to the queue, except in a full ring, which it makes look empty. |
| `Ring.TakeBetween` | SoC 위에 리눅스 디바이스 드라이버/week03/mmio.c:57-62 | For every front and rear that differ: the queue is the byte at front, then the queue after the take. |
| `Ring.Fifo.constructor` | SoC 위에 리눅스 디바이스 드라이버/week03/mmio.c:23-26 | A new ring is an empty queue. |
| `Ring.Fifo.IsFull` | SoC 위에 리눅스 디바이스 드라이버/week03/mmio.c:63-66 | Full exactly when the queue holds 31 bytes. |
| `Ring.Fifo.IsEmpty` | SoC 위에 리눅스 디바이스 드라이버/week03/mmio.c:67-70 | Empty exactly when the queue holds none. |
| `Ring.Fifo.Enqueue` | SoC 위에 리눅스 디바이스 드라이버/week03/mmio.c:52-56 | In place: the queue gets the byte at its end; a full ring, which nothing guards, becomes empty. |
| `Ring.Fifo.Dequeue` | SoC 위에 리눅스 디바이스 드라이버/week03/mmio.c:57-62 | In place: returns and removes the oldest byte; an empty ring, which nothing guards, becomes full. |
| `Device.Mmio.constructor` | SoC 위에 리눅스 디바이스 드라이버/week03/mmio.c:197-215 | The device powers on as the specification's initial value. |
| `Device.Mmio.AnnounceRead` | SoC 위에 리눅스 디바이스 드라이버/week03/mmio.c:82-91 | Flags, status, busy line and interrupt line after a read, as specified. |
| `Device.Mmio.AnnounceWrite` | SoC 위에 리눅스 디바이스 드라이버/week03/mmio.c:122-130 | The same after a write. |
| `Device.Mmio.AnnounceDrain` | SoC 위에 리눅스 디바이스 드라이버/week03/mmio.c:154-160 | The same after a drain; INT_TX is pending, and the line up if it is unmasked. |
| `Device.Mmio.ReadData` | SoC 위에 리눅스 디바이스 드라이버/week03/mmio.c:78-92 | Refines the specified read of the data register: value, queue, flags, status, busy line and interrupt line. |
| `Device.Mmio.WriteData` | SoC 위에 리눅스 디바이스 드라이버/week03/mmio.c:118-131 | Refines the specified write of the data register. |
| `Device.Mmio.ReadRegister` | SoC 위에 리눅스 디바이스 드라이버/week03/mmio.c:93-109 | Every other offset, identification bytes and unmapped offsets included, reads as specified and changes nothing. |
| `Device.Mmio.MaskedStatus` | SoC 위에 리눅스 디바이스 드라이버/week03/mmio.c:102-104 | The masked status word read over the bus is, bit for bit, ris and imsc. |
| `Device.Mmio.FlagStatus` | SoC 위에 리눅스 디바이스 드라이버/week03/mmio.c:93-95 | The flag word read over the bus gives back exactly the four flags. |
| `Device.Mmio.Read` | SoC 위에 리눅스 디바이스 드라이버/week03/mmio.c:72-111 | The whole read dispatch refines the specification; at the data register the word is the oldest byte, or 0. |
| `Device.Mmio.WriteRegister` | SoC 위에 리눅스 디바이스 드라이버/week03/mmio.c:132-139 | Writes of the clear and mask registers and of unmapped offsets refine it. |
| `Device.Mmio.Write` | SoC 위에 리눅스 디바이스 드라이버/week03/mmio.c:113-142 | The whole write dispatch refines it; at the data register the remainder of the word by 256 joins the queue if there is room. |
| `Device.Mmio.DrainTransmit` | SoC 위에 리눅스 디바이스 드라이버/week03/mmio.c:150-152 | The drain loop takes the whole queue in order, at most 31 bytes, inside the 33-byte buffer. |
| `Device.Mmio.HostGet` | SoC 위에 리눅스 디바이스 드라이버/week02/mmio.c:140-158 | The host gets the whole queue in order and a terminating zero in 33 bytes, the device becomes as specified, INT_TX is pending, and the line up if it is unmasked. |
| `Device.Mmio.FillReceive` | SoC 위에 리눅스 디바이스 드라이버/week03/mmio.c:174-176 | The fill loop appends exactly the fitting part of the offer. |
| `Device.Mmio.AnnounceReceive` | SoC 위에 리눅스 디바이스 드라이버/week03/mmio.c:177-188 | Flags, status, busy line and interrupt line after an offer, as specified. |
| `Device.Mmio.HostSet` | SoC 위에 리눅스 디바이스 드라이버/week02/mmio.c:160-180 | An offer refines the specification; an empty one changes nothing. |
| `Words.WordsRoundTrip` | SoC 위에 리눅스 디바이스 드라이버/week03/mmio.c:45-51 | Reading a 32-bit interrupt register bit by bit and putting it together again loses nothing, for all 2^32 words. |
| `Words.FlagsRoundTrip` | SoC 위에 리눅스 디바이스 드라이버/week03/mmio.c:14-17 | Nor does reading a flag register, whose upper bits are clear in every valid device. |
| `Words.BitsRoundTrip` | SoC 위에 리눅스 디바이스 드라이버/week03/mmio.c:45-51 | Nor does writing an interrupt register out as a word, nor a flag register (`Words.FlagBitsRoundTrip`). |
| `Words.AndWords` | SoC 위에 리눅스 디바이스 드라이버/week03/mmio.c:102-104 | The word AND of the masked status is the bitwise one, upper bits included. |
| `Words.ToggleWords` | SoC 위에 리눅스 디바이스 드라이버/week03/mmio.c:132-135 | The word XOR of the clear register is the bitwise toggle, upper bits included. |
| `Words.Share` | SoC 위에 리눅스 디바이스 드라이버/week03/mmio.c:47-50 | The word test `ris & imsc` is true exactly when the registers share a bit, upper bits included. |
| `Words.WithIntTx` | SoC 위에 리눅스 디바이스 드라이버/week03/mmio.c:127-157 | Setting or clearing INT_TX with the word mask changes that bit alone. |
| `Words.WithIntRx` | SoC 위에 리눅스 디바이스 드라이버/week03/mmio.c:87-182 | The same for INT_RX. |
| `Words.WithIntRxEmpty` | SoC 위에 리눅스 디바이스 드라이버/week03/mmio.c:88-184 | The same for RX_EMPTY. |
| `Words.WithTxfe` | SoC 위에 리눅스 디바이스 드라이버/week03/mmio.c:122-155 | The same for the flag TXFE, and the flag register keeps its upper bits clear. |
| `Words.WithTxff` | SoC 위에 리눅스 디바이스 드라이버/week03/mmio.c:124-154 | The same for TXFF. |
| `Words.WithRxfe` | SoC 위에 리눅스 디바이스 드라이버/week03/mmio.c:84-177 | The same for RXFE. |
| `Words.WithRxff` | SoC 위에 리눅스 디바이스 드라이버/week03/mmio.c:83-180 | The same for RXFF. |
| `WaitQueue.AdvanceDescends` | SoC 위에 리눅스 디바이스 드라이버/week02/mmio-driver.c:70-72 | A task in a condition wait (test, queue, test again, sleep unless woken) lowers its rank with each of its steps, and a wake-up raises it by at most three. |
| `WaitQueue.WokenJoinsAgain` | SoC 위에 리눅스 디바이스 드라이버/week02/mmio-driver.c:70-72 | A task that is woken on the queue sleeps only after joining it anew and finding its condition false again. |
| `Writes.CompleteStream` | SoC 위에 리눅스 디바이스 드라이버/week02/mmio-driver.c:66-82 | Writes that all returned their full length make up the concatenation of their payloads. |
| `Handler.Acknowledge` | SoC 위에 리눅스 디바이스 드라이버/week04/mmio.c:275-299 | Reads the masked status from the bus word, toggles exactly the served bit off, and returns as cause TX if it is pending and unmasked, else RX, else RX_EMPTY, else none. |
| `DmaDriver.Driver.constructor` | SoC 위에 리눅스 디바이스 드라이버/week04/mmio.c:164-178 | The driver after probe is the specification's start and satisfies every invariant. |
| `DmaDriver.Driver.CompleteTransmit` | SoC 위에 리눅스 디바이스 드라이버/week04/mmio.c:195-206 | The transmit callback refines the specification's completion step. |
| `DmaDriver.Driver.RxDone` | SoC 위에 리눅스 디바이스 드라이버/week04/mmio.c:86-94 | The receive callback unmaps, lowers `queued` and darkens LED 1. |
| `DmaDriver.Driver.CompleteReceive` | SoC 위에 리눅스 디바이스 드라이버/week04/mmio.c:86-94 | A receive transfer that fills its buffer completes as specified. |
| `DmaDriver.Driver.Terminate` | SoC 위에 리눅스 디바이스 드라이버/week04/mmio.c:117-121 | A queued transfer is stopped and its callback run; otherwise nothing changes. |
| `DmaDriver.Driver.InterruptHandler` | SoC 위에 리눅스 디바이스 드라이버/week04/mmio.c:270-300 | The handler refines its step: with an unmasked TX pending it schedules nothing, else with RX the RX bottom half, else with RX_EMPTY its bottom half; handled iff one of them was. |
| `DriverSpec.InterruptSchedules` | SoC 위에 리눅스 디바이스 드라이버/week04/mmio.c:276-297 | The same for the step of the composed system, and it changes nothing else but the device. |
| `DmaDriver.Driver.LaunchReceive` | SoC 위에 리눅스 디바이스 드라이버/week04/mmio.c:319-342 | Map, prepare, mark, light and issue, or nothing changed after a failure. |
| `DmaDriver.Driver.RxWorkHandler` | SoC 위에 리눅스 디바이스 드라이버/week04/mmio.c:306-345 | The RX bottom half stops a running transfer and starts over, as specified. |
| `DmaDriver.Driver.RxDmaWorkHandler` | SoC 위에 리눅스 디바이스 드라이버/week04/mmio.c:101-122 | The RX_EMPTY bottom half sets rx_size from the residue, lights LED 2 when it is not 0, and stops the transfer, as specified. |
| `DmaDriver.Driver.ButtonInterrupt` | SoC 위에 리눅스 디바이스 드라이버/week04/mmio.c:126-143 | The button sets rx_size to 0 and turns LED 2 off, nothing else. |
| `DriverHistory.HistoryShows` | SoC 위에 리눅스 디바이스 드라이버/week04/mmio.c:113-137 | Over every run from probe, told from the list of handlers alone: rx_size is 4096 less the residue of the last RX_EMPTY bottom half, or 0 after the button; LED 2 is on if and only if one with a size other than 0 ran and the button was not pressed since. |
| `DriverHistory.SubmitFrame` | SoC 위에 리눅스 디바이스 드라이버/week04/mmio.c:222-258 | A chunk changes only the transmit buffer and its length, channel, `queued`, mapping and LED 0. |
| `DriverHistory.BeginFrame` | SoC 위에 리눅스 디바이스 드라이버/week04/mmio.c:306-345 | The RX bottom half changes only the receive channel, `queued`, mapping and LED 1, and takes its schedule back. |
| `DriverHistory.StopFrame` | SoC 위에 리눅스 디바이스 드라이버/week04/mmio.c:101-122 | That of RX_EMPTY the same, and rx_size and LED 2. |
| `DriverHistory.MoveTxFrame` | SoC 위에 리눅스 디바이스 드라이버/week03/mmio.c:118-131 | An engine byte to the device changes only device and channel. |
| `DriverHistory.MoveRxFrame` | SoC 위에 리눅스 디바이스 드라이버/week03/mmio.c:78-92 | One from the device changes only device, buffer and channel. |
| `DriverHistory.InterruptFrame` | SoC 위에 리눅스 디바이스 드라이버/week04/mmio.c:270-300 | The interrupt changes only the device and what is scheduled. |
| `DriverHistory.CallbackFrame` | SoC 위에 리눅스 디바이스 드라이버/week04/mmio.c:86-206 | Each callback changes only its own channel, `queued`, mapping and LED. |
| `DriverHistory.OutsideFrame` | SoC 위에 리눅스 디바이스 드라이버/week04/mmio.c:126-143 | Host accesses change only the device, the button only rx_size and LED 2. |
| `DriverSpec.ProbeMask` | SoC 위에 리눅스 디바이스 드라이버/week04/mmio.c:174-175 | After probe the mask register holds RX, TX and RX_EMPTY. |
| `PioSafety.ProbeMask` | SoC 위에 리눅스 디바이스 드라이버/week02/mmio-driver.c:233 | After probe it holds RX and TX. |
| `DmaDriver.Driver.CopyFromUser` | SoC 위에 리눅스 디바이스 드라이버/week04/mmio.c:226-230 | The copied bytes replace the front of the buffer, the rest stays, and the scatterlist has their length. |
| `DriverSpec.SubmitCopies` | SoC 위에 리눅스 디바이스 드라이버/week04/mmio.c:228-246 | Slot by slot: the copied bytes replace the front of the buffer and leave its tail, also when a call fails after the copy; then nothing else is changed. |
| `DmaTxSafety.CopyOverwritesFront` | SoC 위에 리눅스 디바이스 드라이버/week04/mmio-memcpy.c:131-134 | The same in the interleaved system. |
| `DmaDriver.Driver.LaunchTransmit` | SoC 위에 리눅스 디바이스 드라이버/week04/mmio.c:231-258 | Map, prepare, mark, light and issue, or nothing changed after a failure. |
| `DmaDriver.Driver.SubmitChunk` | SoC 위에 리눅스 디바이스 드라이버/week04/mmio.c:226-258 | One chunk of the write loop refines its step, both failure paths included. |
| `DmaDriver.Driver.SendNext` | SoC 위에 리눅스 디바이스 드라이버/week04/mmio.c:226-261 | What is submitted of the next chunk follows, in the buffer, what is already in the FIFO; after a failed map or prepare call nothing is added. |
| `DmaDriver.Driver.MoveOrDrain` | SoC 위에 리눅스 디바이스 드라이버/week03/mmio.c:118-163 | One engine byte with a host that drains only when the busy line is up: the byte reaches the FIFO, order is kept, and a drain takes exactly 31 bytes. |
| `DmaDriver.Driver.AwaitIdle` | SoC 위에 리눅스 디바이스 드라이버/week04/mmio.c:264 | The wait ends with `queued` down and everything submitted in the FIFO or at the host, in order. |
| `DmaDriver.Driver.Write` | SoC 위에 리눅스 디바이스 드라이버/week04/mmio.c:209-267 | The write loop from any state and for every partial copy and failure: what the host takes and the FIFO hold what was there before and then the first `written` bytes, all of them if nothing failed, and with n bytes in all the host had to drain exactly floor((n-1)/31) times (0 for none). |
| `DmaDriver.Driver.Read` | SoC 위에 리눅스 디바이스 드라이버/week04/mmio.c:360-371 | Inside the data a read, partially copied or not, returns the slice it advances over and stays inside; at a position p beyond size n it asks for 2^64 - (p - n) bytes. |
| `DmaDriver.Driver.HostTakes` | SoC 위에 리눅스 디바이스 드라이버/week03/mmio.c:144-163 | A drain returns the transmit queue and is the specification's step on the composed system. |
| `PioDriver.Driver.constructor` | SoC 위에 리눅스 디바이스 드라이버/week02/mmio-driver.c:233 | After probe the mask is TX and RX, and there is nothing to read. |
| `PioDriver.Driver.AwaitRoom` | SoC 위에 리눅스 디바이스 드라이버/week02/mmio-driver.c:70-72 | The wait ends with room; a drain, only made when the flag register says full, takes exactly 31 bytes; order is kept. |
| `PioDriver.Driver.PutByte` | SoC 위에 리눅스 디바이스 드라이버/week02/mmio-driver.c:70-73 | The byte follows everything before it, and is in the FIFO. |
| `PioDriver.Driver.PutChunk` | SoC 위에 리눅스 디바이스 드라이버/week02/mmio-driver.c:69-74 | The inner loop sends the whole chunk in order, with one drain for each 31 bytes the host takes. |
| `PioDriver.Driver.Write` | SoC 위에 리눅스 디바이스 드라이버/week02/mmio-driver.c:56-83 | The write loop for every partial copy: returns the whole length; what the host takes and the FIFO hold what was there before and then the user's bytes; with n bytes in all exactly floor((n-1)/31) drains (0 for none). |
| `PioDriver.Driver.TakeByte` | SoC 위에 리눅스 디바이스 드라이버/week02/mmio-driver.c:146 | Moves the oldest byte into the buffer at i and leaves the rest of it. |
| `PioDriver.Driver.RxWorkHandler` | SoC 위에 리눅스 디바이스 드라이버/week02/mmio-driver.c:136-150 | The drain loop ends after as many reads as the FIFO held, inside the 32-byte buffer, with the queue in order in the buffer, rx_size its length, RXFE set, RXFF clear, and INT_RX clear if there was a byte. |
| `PioDriver.Driver.Read` | SoC 위에 리눅스 디바이스 드라이버/week02/mmio-driver.c:93-100 | Inside the data a read, partially copied or not, returns the slice it advances over and stays inside; at a position p beyond size n it asks for 2^64 - (p - n) bytes. |
| `Paging.RequestIsBounded` | SoC 위에 리눅스 디바이스 드라이버/week04/mmio.c:361-363 | With the C arithmetic: a read inside the data asks for the smaller of its length and what is left. |
| `Paging.RequestBeyond` | SoC 위에 리눅스 디바이스 드라이버/week04/mmio.c:361-363 | At a position p beyond size n the request wraps to 2^64 - (p - n). |
| `Paging.RequestStaysInside` | SoC 위에 리눅스 디바이스 드라이버/week04/mmio.c:361-366 | A read stays inside the received bytes if and only if its position does. |
| `Paging.ReadsAreConsecutive` | SoC 위에 리눅스 디바이스 드라이버/week04/mmio.c:360-367 | Any sequence of reads, partial copies included, collects one contiguous slice and never passes the end. |
| `Paging.ReadsReachTheEnd` | SoC 위에 리눅스 디바이스 드라이버/week04/mmio.c:360-367 | As many reads of positive length as bytes are left reach the end. |
| `Paging.ReadsCollectEverything` | SoC 위에 리눅스 디바이스 드라이버/week04/mmio.c:360-371 | From position 0 enough reads collect the received bytes exactly, and the next one asks for 0. |
| `ScaleSpec.Signed` | SoC 위에 리눅스 디바이스 드라이버/week05/spi.c:37 | Two's complement: the value is in the range of a short and has the given 16 bits. |
| `ScaleSpec.JoinInvertsSplit` | SoC 위에 리눅스 디바이스 드라이버/week05/spi.c:37 | Splitting a difference in the device (shift of a negative int included) and joining it in the driver gives it modulo 2^16 as a short. |
| `ScaleSpec.HistoryDecides` | SoC 위에 리눅스 디바이스 드라이버/week05/qemu-ssi.c:21-40 | After any history the scale is the last weight, the offset the weight when a zero command byte was last delivered (0 if never), and the cycle counter in 0..2. |
| `ScaleSpec.WholeMessageReply` | SoC 위에 리눅스 디바이스 드라이버/week05/qemu-ssi.c:24-39 | A whole message brings both bytes of the difference, whatever cycle and buffer were before. |
| `ScaleSpec.RepliesAfterCommand` | SoC 위에 리눅스 디바이스 드라이버/week05/qemu-ssi.c:24-39 | From any state: a command is answered with 0 and takes effect at once, the first zero byte after it with the high byte of the difference, the second with the low one, and every further one with 0. |
| `ScaleSpec.FailsWithTheBus` | SoC 위에 리눅스 디바이스 드라이버/week05/spi.c:30-35 | A read fails exactly when the bus does. |
| `ScaleSpec.ReadShowsDifference` | SoC 위에 리눅스 디바이스 드라이버/week05/spi.c:28-39 | A successful read shows scale minus offset as a 16-bit number, from any state. |
| `ScaleSpec.ReadShowsHistory` | SoC 위에 리눅스 디바이스 드라이버/week05/spi.c:20-60 | After any history of weights, zeroings, reads and messages that fail after any prefix of their bytes, a successful read shows the weight less the weight at the last delivered zero command, modulo 2^16 as a short. |
| `ScaleSpec.TornIsRightWhen` | SoC 위에 리눅스 디바이스 드라이버/week05/qemu-ssi.c:34-38 | A weight that changes between the two reply bytes: the read is right about the first weight iff the low bytes agree, and about the second iff the high bytes do. |
| `ScaleSpec.TornExample` | SoC 위에 리눅스 디바이스 드라이버/week05/qemu-ssi.c:34-38 | From 255 to 256 such a read shows 0. |
| `ScaleDriver.Device.TransferByte` | SoC 위에 리눅스 디바이스 드라이버/week05/qemu-ssi.c:21-40 | The in-place transfer refines the specified one in state and reply. |
| `ScaleDriver.Device.SetScale` | SoC 위에 리눅스 디바이스 드라이버/week05/qemu-ssi.c:50-55 | Keeps the low 16 bits of the parsed number, nothing else changes. |
| `ScaleSpec.WeightReadsBack` | SoC 위에 리눅스 디바이스 드라이버/week05/qemu-ssi.c:42-55 | The property read back after a weight was put, with any messages in between, is that number modulo 2^16, so it is the number itself if and only if it is in 0..65535. |
| `ScaleDriver.Device.GetScale` | SoC 위에 리눅스 디바이스 드라이버/week05/qemu-ssi.c:42-48 | After any history of the device, what reads back is the last weight of that history. |
| `ScaleDriver.Driver.Sync` | SoC 위에 리눅스 디바이스 드라이버/week05/spi.c:87-97 | The two transfers of the message deliver the command and then fill the reply buffer, up to wherever the bus failed. |
| `ScaleDriver.Driver.ShowScale` | SoC 위에 리눅스 디바이스 드라이버/week05/spi.c:20-40 | Reading the attribute refines the specified event, returns what the specification shows, fails if and only if the bus does, and leaves the mutex free on both paths. |
| `ScaleDriver.Driver.StoreZero` | SoC 위에 리눅스 디바이스 드라이버/week05/spi.c:42-60 | Writing it refines the event, changes nothing unless the word is "zero", succeeds iff the bus did, and leaves the mutex free. |

## Left out

- PioDriver.Driver.RxWorkHandler: assumes that no bytes are offered while the loop runs; offers during the loop, and when its index stays inside the buffer with them, are in `PioReceiveRuns`.
- PioDriver.Driver.Read: says how much is asked for from a position beyond the data, not what would be copied.
- DmaDriver.Driver.Read: as above.
- PioDriver.Driver.Write: one writer and a host that drains when the FIFO is full; any number of writers and any host are in `PioSystem`.
- DmaDriver.Driver.Write: one writer, nothing received meanwhile, and a host that drains when the FIFO is full; `DmaTxSystem` has the others.
- DriverSpec.EveryRunIsDisciplined: each handler is one step. The receive bottom half of the RX_EMPTY interrupt takes no lock, so nothing is claimed about it running inside another handler.
- PioReceiveRuns.IndexReaches: stops at 32. A store past the 32 slots leaves the modelled state alone, in `PioSystem` and all that builds on it; what it overwrites in the source is not modelled.
- PioReader.BytesAreKeptIff: a read is of everything there is, in one call; reading in pages is `Paging`. Of a count beyond 32 the reader gets the 32 slots.
- DmaReader.BytesAreKeptIff: the same. A transfer that fills the buffer counts as a loss at once, though a bottom half that finds the channel at rest with residue 0 would show its bytes later.
- DmaTxLazyHost.LazyHostSuffices: copies of no byte, which the source retries, are excluded.
- Receive.OneOfferIsDelivered: map and prepare calls for receiving succeed, and the button is not pressed during the hand-over.
- ScaleSpec.ReadShowsHistory: the weight does not change in the middle of a message; `ScaleSpec.TornIsRightWhen` says when that matters.
- Probe, remove, character device and class registration, the minor-number table, power management and GPIO acquisition: kernel plumbing.
- Machine construction, device trees, and the log-file variants of the device: constants and file I/O.
- The insides of PL330, dmaengine, scatterlists, work queues, the SPI core and PL022: replaced by the assumptions above.
- Signals, sleeping with a spinning lock held, and the shared side of the lock.
- The file position on the write side, which nothing reads.
- LED 2 in `week04/mmio-memcpy.c`, set unconditionally there, and that file's memory-to-memory copy.
- Parsing and printing of numbers, the 8-byte print buffer of the scale, and the cut of a string at its first zero byte: bytes and integers are given as such.
