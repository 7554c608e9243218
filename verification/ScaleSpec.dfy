/** The SPI scale and its driver as values: one byte at a time on the wire, any history of messages. */
module ScaleSpec {
  import opened Registers

  const U16 := 0x1_0000
  const GET_SCALE: byte := 1
  const SET_ZERO: byte := 2

  type u16 = x: nat | x < U16

  /** Two's complement: the value of 16 bits read as a C short, and back. */
  function Signed(x: u16): (r: int)
    ensures -0x8000 <= r < 0x8000 && Unsigned(r) == x
  {
    if x < 0x8000 then x else x - U16
  }

  function Unsigned(x: int): u16 {
    x % U16
  }

  datatype Scale = Scale(scale: u16, offset: u16, cycle: int)

  /** The high and the low byte of a difference; the shift of a negative int rounds down. */
  function High(difference: int): byte {
    ((difference / 256) % 256) as byte
  }

  function Low(difference: int): byte {
    (difference % 256) as byte
  }

  /** One byte in each direction. A non-zero byte is a command and restarts the reply. */
  function Transfer(s: Scale, data: byte): (Scale, byte) {
    var s1 := if data != 0
              then s.(offset := if data == SET_ZERO then s.scale else s.offset, cycle := 0)
              else s.(cycle := s.cycle + 1);
    (s1, if s1.cycle == 1 then High(s1.scale - s1.offset)
         else if s1.cycle == 2 then Low(s1.scale - s1.offset)
         else 0)
  }

  function AfterZeros(s: Scale, n: nat): Scale {
    if n == 0 then s else Transfer(AfterZeros(s, n - 1), 0).0
  }

  /**
   * A command is answered with 0, the first zero byte after it with the high byte of the difference, the
   * second with the low byte, and every further one with 0. Zeroing takes effect with the command.
   */
  lemma {:induction false} RepliesAfterCommand(s: Scale, command: byte, n: nat)
    requires command != 0
    ensures Transfer(s, command).1 == 0
    ensures var after := AfterZeros(Transfer(s, command).0, n);
            var difference := s.scale - if command == SET_ZERO then s.scale else s.offset;
      && after.cycle == n && after.scale == s.scale && after.scale - after.offset == difference
      && Transfer(after, 0).1 == if n == 0 then High(difference) else if n == 1 then Low(difference) else 0
    decreases n
  {
    if n > 0 {
      RepliesAfterCommand(s, command, n - 1);
    }
  }

  /** What the driver makes of the two bytes of a reply. */
  function Join(high: byte, low: byte): int {
    Signed((high as int) * 256 + (low as int))
  }

  lemma Remainder(x: int, q: int, r: int)
    requires x == U16 * q + r && 0 <= r < U16
    ensures x % U16 == r
  {
  }

  /** Splitting a difference in the device and joining it in the driver keeps it modulo 2^16. */
  lemma JoinInvertsSplit(difference: int)
    ensures Join(High(difference), Low(difference)) == Signed(Unsigned(difference))
  {
    var q, low := difference / 256, difference % 256;
    var p, high := q / 256, q % 256;
    assert difference == 256 * q + low && q == 256 * p + high;
    Remainder(difference, p, 256 * high + low);
  }

  // ---- Messages ------------------------------------------------------------------------------

  /** The bytes of a message: the command, then two zero bytes that clock the reply out. */
  function Message(command: byte): seq<byte> {
    [command, 0, 0]
  }

  /** The scale after the first `n` bytes of a message, and the reply so far in the driver's buffer. */
  function Deliver(s: Scale, buffer: seq<byte>, command: byte, n: nat): (Scale, seq<byte>)
    requires |buffer| == 2 && n <= 3
    ensures |Deliver(s, buffer, command, n).1| == 2
  {
    if n == 0 then (s, buffer) else
    var (s1, b1) := Deliver(s, buffer, command, n - 1);
    var (s2, reply) := Transfer(s1, Message(command)[n - 1]);
    (s2, if n == 1 then b1 else b1[n - 2 := reply])
  }

  datatype Event =
    | Weigh(value: int)                      // the host puts a weight on the scale
    | Show(delivered: nat, ok: bool)         // a read of the attribute
    | Zero(delivered: nat, ok: bool)         // "zero" written to the attribute
    | Other                                  // anything else written to it

  /** A message that succeeds was delivered whole; one that fails may stop anywhere. */
  predicate Possible(e: Event) {
    (e.Show? || e.Zero?) ==> e.delivered <= 3 && (e.ok ==> e.delivered == 3)
  }

  predicate AllPossible(events: seq<Event>) {
    forall i :: 0 <= i < |events| ==> Possible(events[i])
  }

  datatype System = System(dev: Scale, buffer: seq<byte>)

  function Start(): System {
    System(Scale(0, 0, 0), [0, 0])
  }

  function Step(s: System, e: Event): (t: System)
    requires |s.buffer| == 2 && Possible(e)
    ensures |t.buffer| == 2
  {
    match e
    case Weigh(value) => s.(dev := s.dev.(scale := Unsigned(value)))
    case Show(n, _) => var (d, b) := Deliver(s.dev, s.buffer, GET_SCALE, n); System(d, b)
    case Zero(n, _) => var (d, b) := Deliver(s.dev, s.buffer, SET_ZERO, n); System(d, b)
    case Other => s
  }

  function Run(events: seq<Event>): (s: System)
    requires AllPossible(events)
    ensures |s.buffer| == 2
  {
    if events == [] then Start() else
    Step(Run(events[..|events| - 1]), events[|events| - 1])
  }

  /** What is on the scale after a history. */
  function Weight(events: seq<Event>): u16 {
    if events == [] then 0 else
    var front, e := events[..|events| - 1], events[|events| - 1];
    if e.Weigh? then Unsigned(e.value) else Weight(front)
  }

  /** What was on it when the last zero command byte reached it; at first, nothing. */
  function ZeroPoint(events: seq<Event>): u16 {
    if events == [] then 0 else
    var front, e := events[..|events| - 1], events[|events| - 1];
    if e.Zero? && e.delivered > 0 then Weight(front) else ZeroPoint(front)
  }

  /** No weight is put on the scale. */
  predicate Weightless(events: seq<Event>) {
    forall i :: 0 <= i < |events| ==> !events[i].Weigh?
  }

  /** Putting `value` on the scale and reading the property back, with only messages in between. */
  lemma {:induction false} WeightReadsBack(events: seq<Event>, value: int, later: seq<Event>)
    requires Weightless(later)
    ensures Weight(events + [Weigh(value)] + later) == Unsigned(value)
    ensures Weight(events + [Weigh(value)] + later) == value <==> 0 <= value < U16
    decreases |later|
  {
    var all := events + [Weigh(value)] + later;
    var front := all[..|all| - 1];
    if later == [] {
      assert all[|all| - 1] == Weigh(value);
    } else {
      assert front == events + [Weigh(value)] + later[..|later| - 1];
      assert all[|all| - 1] == later[|later| - 1];
      WeightReadsBack(events, value, later[..|later| - 1]);
    }
  }

  lemma DeliverKeeps(s: Scale, buffer: seq<byte>, command: byte, n: nat)
    requires |buffer| == 2 && n <= 3 && command != 0
    ensures var d := Deliver(s, buffer, command, n).0;
      && d.scale == s.scale
      && d.offset == (if n > 0 && command == SET_ZERO then s.scale else s.offset)
      && d.cycle == (if n == 0 then s.cycle else n - 1)
  {
    if n > 0 {
      DeliverKeeps(s, buffer, command, n - 1);
    }
  }

  lemma {:induction false} HistoryDecides(events: seq<Event>)
    requires AllPossible(events)
    ensures var d := Run(events).dev;
      d.scale == Weight(events) && d.offset == ZeroPoint(events) && 0 <= d.cycle <= 2
  {
    if events != [] {
      var front, e := events[..|events| - 1], events[|events| - 1];
      HistoryDecides(front);
      if e.Show? || e.Zero? {
        DeliverKeeps(Run(front).dev, Run(front).buffer, if e.Show? then GET_SCALE else SET_ZERO, e.delivered);
      }
    }
  }

  /** A whole message brings the difference, whatever the cycle counter and the buffer were before. */
  lemma WholeMessageReply(s: Scale, buffer: seq<byte>)
    requires |buffer| == 2
    ensures var b := Deliver(s, buffer, GET_SCALE, 3).1;
            b == [High(s.scale - s.offset), Low(s.scale - s.offset)]
  {
    var m := Message(GET_SCALE);
    var d1 := Deliver(s, buffer, GET_SCALE, 1);
    assert d1 == (s.(cycle := 0), buffer) by { assert Deliver(s, buffer, GET_SCALE, 0) == (s, buffer); }
    var d2 := Deliver(s, buffer, GET_SCALE, 2);
    assert d2 == (s.(cycle := 1), buffer[0 := High(s.scale - s.offset)]);
  }

  /** What a read of the attribute returns; nothing when the bus reports a failure. */
  datatype Shown = Value(value: int) | Failed

  function ShownBy(s: System, e: Event): Shown
    requires |s.buffer| == 2 && Possible(e) && e.Show?
  {
    if !e.ok then Failed else var b := Step(s, e).buffer; Value(Join(b[0], b[1]))
  }

  /** A read of the attribute fails exactly when the bus does. */
  lemma FailsWithTheBus(s: System, e: Event)
    requires |s.buffer| == 2 && Possible(e) && e.Show?
    ensures ShownBy(s, e) == Failed <==> !e.ok
  {
  }

  lemma ReadShowsDifference(s: System)
    requires |s.buffer| == 2
    ensures ShownBy(s, Show(3, true)) == Value(Signed(Unsigned(s.dev.scale - s.dev.offset)))
  {
    WholeMessageReply(s.dev, s.buffer);
    JoinInvertsSplit(s.dev.scale - s.dev.offset);
  }

  /**
   * After any history of weights, zeroings and messages that succeed or stop anywhere, a successful
   * read shows the weight less the weight at the last zero command delivered, as a 16-bit number.
   * The cycle counter stays within a message.
   */
  lemma ReadShowsHistory(events: seq<Event>)
    requires AllPossible(events)
    ensures ShownBy(Run(events), Show(3, true)) == Value(Signed(Unsigned(Weight(events) - ZeroPoint(events))))
    ensures 0 <= Run(events).dev.cycle <= 2
  {
    hide ShownBy, Run, Signed, Unsigned;
    HistoryDecides(events);
    ReadShowsDifference(Run(events));
  }

  // ---- A weight that changes in the middle of a read -------------------------------------------

  /** The value read when the scale shows `first` as the high byte leaves and `second` as the low one does. */
  function Torn(first: u16, second: u16, offset: u16): int {
    var s1 := Transfer(Scale(first, offset, 0), 0);
    var s2 := Transfer(s1.0.(scale := second), 0);
    Join(s1.1, s2.1)
  }

  function Reading(scale: u16, offset: u16): int {
    Signed(Unsigned(scale - offset))
  }

  lemma TornReply(first: u16, second: u16, offset: u16)
    ensures Torn(first, second, offset) == Join(High(first - offset), Low(second - offset))
  {
    hide Join, High, Low;
  }

  lemma JoinSplits(h: byte, l: byte, h': byte, l': byte)
    ensures Join(h, l) == Join(h', l') <==> h == h' && l == l'
  {
  }

  /** Such a read is right about the first weight iff the low bytes agree, about the second iff the high ones do. */
  lemma TornIsRightWhen(first: u16, second: u16, offset: u16)
    ensures Torn(first, second, offset) == Reading(first, offset) <==> Low(first - offset) == Low(second - offset)
    ensures Torn(first, second, offset) == Reading(second, offset) <==> High(first - offset) == High(second - offset)
  {
    hide Torn, Join, High, Low, Signed, Unsigned;
    TornReply(first, second, offset);
    JoinInvertsSplit(first - offset);
    JoinInvertsSplit(second - offset);
    JoinSplits(High(first - offset), Low(second - offset), High(first - offset), Low(first - offset));
    JoinSplits(High(first - offset), Low(second - offset), High(second - offset), Low(second - offset));
  }

  /** From 255 to 256 a read can show 0. */
  lemma TornExample()
    ensures Torn(255, 256, 0) == 0
  {
  }
}
