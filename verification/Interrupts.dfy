/** What a pending interrupt means while the handler runs as one step. */
module Interrupts {
  import opened Registers
  import opened Words
  import opened DeviceSpec

  datatype Cause = Nothing | Transmit | Receive | ReceiveEmpty

  /** The interrupt the handler serves: transmit first, then receive, then empty. */
  function Served(d: Dev): Cause {
    var mis := And(d.ris, d.imsc);
    if mis.tx then Transmit else if mis.rx then Receive else if mis.rxEmpty then ReceiveEmpty else Nothing
  }

  function Acknowledged(c: Cause): Ints {
    match c
    case Nothing => NONE
    case Transmit => ONLY_TX
    case Receive => ONLY_RX
    case ReceiveEmpty => ONLY_RX_EMPTY
  }

  /** One run of the handler: it writes the bit it has just seen to the clear register. */
  function Handle(d: Dev): Dev {
    if Served(d) == Nothing then d else WriteIcr(d, Acknowledged(Served(d)))
  }

  /** The status register holds driver interrupts only, and none that is not true. */
  predicate IntInv(d: Dev) {
    && d.ris.rest == 0
    && (d.ris.tx ==> |d.tx| < CAPACITY)
    && (d.ris.rx ==> d.rx != [])
    && (d.ris.rxEmpty ==> d.variant.Dma? && d.rx == [])
  }

  datatype Event = CpuRead | CpuWrite(data: byte) | HostTakes | HostOffers(bytes: seq<byte>) | HandlerRuns

  function Apply(d: Dev, e: Event): Dev
    requires |d.rx| <= CAPACITY
  {
    match e
    case CpuRead => ReadDr(d).0
    case CpuWrite(data) => WriteDr(d, data)
    case HostTakes => GetData(d).0
    case HostOffers(bytes) => SetData(d, bytes)
    case HandlerRuns => Handle(d)
  }

  function WithoutCause(r: Ints, c: Cause): Ints {
    match c
    case Nothing => r
    case Transmit => r.(tx := false)
    case Receive => r.(rx := false)
    case ReceiveEmpty => r.(rxEmpty := false)
  }

  predicate Raised(r: Ints, c: Cause) {
    match c
    case Nothing => false
    case Transmit => r.tx
    case Receive => r.rx
    case ReceiveEmpty => r.rxEmpty
  }

  /** The toggling clear register only ever clears for the driver: it writes a bit that is set. */
  lemma HandleOnlyClears(d: Dev)
    ensures Handle(d).ris == WithoutCause(d.ris, Served(d))
    ensures Served(d) != Nothing ==> Raised(d.ris, Served(d)) && Raised(d.imsc, Served(d))
    ensures Handle(d) == d.(ris := Handle(d).ris, irq := Handle(d).irq)
  {
    ToggleOne(d.ris, Acknowledged(Served(d)));
  }

  /** Transmit is served before receive, and receive before empty; the other causes stay pending. */
  lemma HandlerOrder(d: Dev)
    ensures d.ris.tx && d.imsc.tx ==> Handle(d).ris == d.ris.(tx := false)
    ensures !(d.ris.tx && d.imsc.tx) && d.ris.rx && d.imsc.rx ==> Handle(d).ris == d.ris.(rx := false)
    ensures !(d.ris.tx && d.imsc.tx) && !(d.ris.rx && d.imsc.rx) && d.ris.rxEmpty && d.imsc.rxEmpty ==>
              Handle(d).ris == d.ris.(rxEmpty := false)
    ensures !(d.ris.tx && d.imsc.tx) && !(d.ris.rx && d.imsc.rx) && !(d.ris.rxEmpty && d.imsc.rxEmpty) ==>
              Handle(d) == d
  {
    ToggleOne(d.ris, Acknowledged(Served(d)));
  }

  lemma HandleKeepsInv(d: Dev)
    requires DevInv(d)
    ensures DevInv(Handle(d))
  {
    WriteRegisterKeepsInv(d, Acknowledged(Served(d)));
  }

  lemma EventKeepsMeaning(d: Dev, e: Event)
    requires DevInv(d) && IntInv(d)
    ensures DevInv(Apply(d, e)) && IntInv(Apply(d, e))
  {
    hide BusyInv, Meet;
    match e
    case CpuRead => ReadDrKeepsInv(d);
    case CpuWrite(data) => WriteDrKeepsInv(d, data);
    case HostTakes => GetDataKeepsInv(d);
    case HostOffers(bytes) => SetDataKeepsInv(d, bytes);
    case HandlerRuns =>
      HandleKeepsInv(d);
      HandleOnlyClears(d);
  }

  function RunEvents(d: Dev, events: seq<Event>): Dev
    requires DevInv(d) && IntInv(d)
    decreases |events|
  {
    if events == [] then d else
    EventKeepsMeaning(d, events[0]);
    RunEvents(Apply(d, events[0]), events[1..])
  }

  /** Over every run, a pending interrupt is true of the queues, and RX excludes RX_EMPTY. */
  lemma {:induction false} PendingIsTrue(d: Dev, events: seq<Event>)
    requires DevInv(d) && IntInv(d)
    ensures DevInv(RunEvents(d, events)) && IntInv(RunEvents(d, events))
    ensures !(RunEvents(d, events).ris.rx && RunEvents(d, events).ris.rxEmpty)
    decreases |events|
  {
    if events != [] {
      EventKeepsMeaning(d, events[0]);
      PendingIsTrue(Apply(d, events[0]), events[1..]);
    }
  }

  /** How many unmasked interrupts are pending. */
  function Pending(d: Dev): nat {
    var mis := And(d.ris, d.imsc);
    (if mis.tx then 1 else 0) + (if mis.rx then 1 else 0) + (if mis.rxEmpty then 1 else 0)
  }

  function Repeat(d: Dev, n: nat): Dev
    decreases n
  {
    if n == 0 then d else Repeat(Handle(d), n - 1)
  }

  lemma HandleServesOne(d: Dev)
    requires DevInv(d) && IntInv(d)
    ensures d.irq <==> Pending(d) > 0
    ensures Pending(Handle(d)) == if Pending(d) > 0 then Pending(d) - 1 else 0
    ensures DevInv(Handle(d)) && IntInv(Handle(d))
  {
    HandleOnlyClears(d);
    HandleKeepsInv(d);
    MeetThree(d.ris, d.imsc);
  }

  /** With no other event, the line stays up for exactly as many runs as interrupts are pending. */
  lemma {:induction false} HandlerLowersTheLine(d: Dev, n: nat)
    requires DevInv(d) && IntInv(d)
    ensures Repeat(d, n).irq <==> n < Pending(d)
    decreases n
  {
    HandleServesOne(d);
    if n > 0 {
      HandlerLowersTheLine(Handle(d), n - 1);
    }
  }

  /**
   * Written without looking first, the acknowledgement of a cause toggles it: it is pending afterwards
   * if and only if it was not before. The meaning above needs the handler to read the status and
   * write it in one step.
   */
  lemma AcknowledgeToggles(d: Dev, c: Cause)
    requires c != Nothing
    ensures var t := WriteIcr(d, Acknowledged(c));
      && (Raised(t.ris, c) <==> !Raised(d.ris, c))
      && WithoutCause(t.ris, c) == WithoutCause(d.ris, c)
  {
    ToggleOne(d.ris, Acknowledged(c));
  }

  /** One that was not pending brings the line up if it is unmasked. */
  lemma BlindAcknowledgeRaises(d: Dev, c: Cause)
    requires c != Nothing && !Raised(d.ris, c) && Raised(d.imsc, c)
    ensures Raised(WriteIcr(d, Acknowledged(c)).ris, c) && WriteIcr(d, Acknowledged(c)).irq
  {
    AcknowledgeToggles(d, c);
  }
}
