/** The 32-slot ring buffer behind both FIFOs of the device. */
module Ring {
  import opened Registers

  /** The bytes between `front` and `rear`, oldest first, across the wrap. */
  function Between(slots: seq<byte>, front: int, rear: int): (s: seq<byte>)
    requires |slots| == FIFO_SIZE && 0 <= front < FIFO_SIZE && 0 <= rear < FIFO_SIZE
    ensures |s| == if front <= rear then rear - front else rear - front + FIFO_SIZE
  {
    if front <= rear then slots[front..rear] else slots[front..] + slots[..rear]
  }

  lemma PutBetween(slots: seq<byte>, front: int, rear: int, data: byte)
    requires |slots| == FIFO_SIZE && 0 <= front < FIFO_SIZE && 0 <= rear < FIFO_SIZE
    ensures Between(slots[rear := data], front, (rear + 1) % FIFO_SIZE) ==
            var s := Between(slots, front, rear); if |s| == CAPACITY then [] else s + [data]
  {
    var put := slots[rear := data];
    var next := (rear + 1) % FIFO_SIZE;
    if front == next {
      assert Between(put, front, next) == [];
    } else if rear + 1 == FIFO_SIZE {
      assert next == 0 && put[..0] == [];
      assert put[front..] == slots[front..rear] + [data];
    } else if front <= rear {
      assert next == rear + 1;
      assert put[front..next] == slots[front..rear] + [data];
    } else {
      assert next == rear + 1 < front;
      assert put[..next] == slots[..rear] + [data];
      assert put[front..] == slots[front..];
    }
  }

  lemma TakeBetween(slots: seq<byte>, front: int, rear: int)
    requires |slots| == FIFO_SIZE && 0 <= front < FIFO_SIZE && 0 <= rear < FIFO_SIZE
    requires front != rear
    ensures Between(slots, front, rear) == [slots[front]] + Between(slots, (front + 1) % FIFO_SIZE, rear)
  {
    var next := (front + 1) % FIFO_SIZE;
    if front < rear {
      assert next == front + 1 <= rear;
      assert slots[front..rear] == [slots[front]] + slots[next..rear];
    } else if front + 1 < FIFO_SIZE {
      assert next == front + 1 > rear;
      var tail, head := slots[next..], slots[..rear];
      assert slots[front..] == [slots[front]] + tail;
      assert ([slots[front]] + tail) + head == [slots[front]] + (tail + head);
    } else {
      assert next == 0 && slots[..rear] == slots[0..rear];
      assert slots[front..] == [slots[front]];
    }
  }

  class Fifo {
    /** The bytes in the ring, oldest first. */
    ghost var View: seq<byte>
    var front: int
    var rear: int
    const buf: array<byte>

    ghost predicate Valid()
      reads this, buf
      ensures Valid() ==> |View| <= CAPACITY
    {
      && buf.Length == FIFO_SIZE
      && 0 <= front < FIFO_SIZE
      && 0 <= rear < FIFO_SIZE
      && View == Between(buf[..], front, rear)
    }

    constructor ()
      ensures Valid() && View == [] && fresh(buf)
    {
      buf := new byte[FIFO_SIZE];
      front, rear := 0, 0;
      View := [];
    }

    predicate IsFull()
      requires Valid()
      reads this, buf
      ensures IsFull() <==> |View| == CAPACITY
    {
      front == (rear + 1) % FIFO_SIZE
    }

    predicate IsEmpty()
      requires Valid()
      reads this, buf
      ensures IsEmpty() <==> View == []
    {
      front == rear
    }

    /** Nothing guards the slot: a byte put into a full ring makes it look empty. */
    method Enqueue(data: byte)
      requires Valid()
      modifies this`View, this`rear, buf
      ensures Valid()
      ensures View == if |old(View)| == CAPACITY then [] else old(View) + [data]
    {
      PutBetween(buf[..], front, rear, data);
      buf[rear] := data;
      assert buf[..] == old(buf[..])[rear := data];
      rear := rear + 1;
      rear := rear % FIFO_SIZE;
      View := if |View| == CAPACITY then [] else View + [data];
    }

    /** Nothing guards the slot: taking a byte from an empty ring makes it look full. */
    method Dequeue() returns (ret: byte)
      requires Valid()
      modifies this`View, this`front
      ensures Valid()
      ensures old(View) != [] ==> ret == old(View)[0] && View == old(View)[1..]
      ensures old(View) == [] ==> |View| == CAPACITY
    {
      if front != rear {
        TakeBetween(buf[..], front, rear);
      }
      ret := buf[front];
      front := front + 1;
      front := front % FIFO_SIZE;
      View := Between(buf[..], front, rear);
    }
  }
}
