/** Reading the receive buffer in pages, with the C arithmetic of the position. */
module Paging {
  import opened Registers

  /** Unsigned 64-bit arithmetic wraps. */
  const U64 := 0x1_0000_0000_0000_0000

  /** How many bytes a read of `length` at `position` asks to copy, `size` bytes being there. */
  function Request(size: int, length: word, position: nat): (r: int)
    ensures 0 <= r < U64
  {
    if size <= (length + position) % U64 then (size - position) % U64 else length
  }

  /** Up to the end of the data a read gets the smaller of what it asks for and what is left. */
  lemma RequestIsBounded(size: int, length: word, position: nat)
    requires position <= size <= DMA_BUFFER_SIZE && length + position < U64
    ensures Request(size, length, position) == if length < size - position then length else size - position
  {
  }

  /**
   * A read stays inside the received bytes exactly when its position does. After the button has
   * thrown the bytes away, a reader that kept its position would be handed a wrapped length.
   */
  lemma RequestStaysInside(size: int, length: word, position: nat)
    requires 0 <= size <= DMA_BUFFER_SIZE && position < 0x8000_0000_0000_0000 && length + position < U64
    ensures position + Request(size, length, position) <= size <==> position <= size
  {
  }

  /** What a read brings: a slice of the data, or from a position beyond it a request for more than there is. */
  datatype Reply = Slice(data: seq<byte>, next: nat) | Beyond(asked: int)

  /** Beyond the data the length wraps to almost the whole address space. */
  lemma RequestBeyond(size: int, length: word, position: nat)
    requires 0 <= size <= DMA_BUFFER_SIZE && size < position && length + position < U64
    ensures Request(size, length, position) == U64 - (position - size)
  {
  }

  /** One read: what it asks for, and how much of the granted part reaches the user. */
  datatype Call = Call(length: word, copied: nat)

  predicate Proper(size: int, r: Call, position: nat) {
    && position + r.length < U64
    && r.copied <= Request(size, r.length, position)
    && (Request(size, r.length, position) > 0 ==> r.copied > 0)
  }

  predicate AllProper(size: int, calls: seq<Call>, position: nat)
    decreases |calls|
  {
    calls == [] || (Proper(size, calls[0], position) && AllProper(size, calls[1..], position + calls[0].copied))
  }

  function Total(calls: seq<Call>): nat {
    if calls == [] then 0 else calls[0].copied + Total(calls[1..])
  }

  /** What the user ends up with: the slices one after the other. */
  function Collected(data: seq<byte>, calls: seq<Call>, position: nat): seq<byte>
    decreases |calls|
  {
    if calls == [] then [] else
    var next := position + calls[0].copied;
    (if next <= |data| then data[position..next] else []) + Collected(data, calls[1..], next)
  }

  /**
   * Any sequence of reads, partial copies included, hands out consecutive slices and never leaves the
   * data; each read of something copies something, so as many reads as bytes reach the end.
   */
  lemma {:induction false} ReadsAreConsecutive(data: seq<byte>, calls: seq<Call>, position: nat)
    requires position <= |data| <= DMA_BUFFER_SIZE && AllProper(|data|, calls, position)
    ensures position + Total(calls) <= |data|
    ensures Collected(data, calls, position) == data[position..position + Total(calls)]
    decreases |calls|
  {
    if calls != [] {
      var next := position + calls[0].copied;
      RequestIsBounded(|data|, calls[0].length, position);
      ReadsAreConsecutive(data, calls[1..], next);
      assert data[position..next] + data[next..next + Total(calls[1..])] == data[position..next + Total(calls[1..])];
    } else {
      assert data[position..position] == [];
    }
  }

  lemma {:induction false} ReadsReachTheEnd(size: nat, calls: seq<Call>, position: nat)
    requires position <= size <= DMA_BUFFER_SIZE && AllProper(size, calls, position)
    requires forall i :: 0 <= i < |calls| ==> calls[i].length > 0
    ensures position + Total(calls) <= size
    ensures |calls| >= size - position ==> position + Total(calls) == size
    decreases |calls|
  {
    if calls != [] {
      RequestIsBounded(size, calls[0].length, position);
      ReadsReachTheEnd(size, calls[1..], position + calls[0].copied);
    }
  }

  /** Reading from the start in enough proper reads collects the data; after that a read gets nothing. */
  lemma ReadsCollectEverything(data: seq<byte>, calls: seq<Call>, more: word)
    requires |data| <= DMA_BUFFER_SIZE <= |calls| && AllProper(|data|, calls, 0)
    requires forall i :: 0 <= i < |calls| ==> calls[i].length > 0
    requires more + |data| < U64
    ensures Collected(data, calls, 0) == data
    ensures Request(|data|, more, Total(calls)) == 0
  {
    hide Request, Collected, Total, AllProper;
    ReadsAreConsecutive(data, calls, 0);
    ReadsReachTheEnd(|data|, calls, 0);
    RequestIsBounded(|data|, more, |data|);
  }
}
