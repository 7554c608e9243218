/** The byte-at-a-time driver as the program has it, with a host that drains only when it must. */
module PioDriver {
  import opened Registers
  import opened Words
  import opened DeviceSpec
  import opened Paging
  import Device

  class Driver {
    const device: Device.Mmio
    const rxBuf: array<byte>
    var rxSize: int

    ghost const Repr: set<object> := {this, rxBuf} + device.Repr

    ghost predicate Valid()
      reads Repr
    {
      && device.Valid()
      && this !in device.Repr && rxBuf !in device.Repr
      && rxBuf.Length == FIFO_SIZE
      && 0 <= rxSize <= FIFO_SIZE
      && device.variant == Pio
      && DevInv(device.Abs())
    }

    constructor ()
      ensures Valid() && fresh(Repr) && device.Abs() == WriteImsc(Init(Pio), Ints(true, true, false, 0))
      ensures rxSize == 0
    {
      hide Device.Mmio.Valid, Device.Mmio.Abs, DevInv, IntsOf, Low32, Update;
      device := new Device.Mmio(Pio);
      rxBuf := new byte[FIFO_SIZE];
      rxSize := 0;
      new;
      DriverWords();
      WriteRegisterKeepsInv(Init(Pio), Ints(true, true, false, 0));
      device.WriteRegister(IMSC, 3);
    }

    /** Waits for room; the host takes the queue each time the writer finds it full. */
    method AwaitRoom(taken: seq<byte>, gets: nat) returns (taken': seq<byte>, gets': nat)
      requires Valid()
      modifies device, device.transmit
      ensures Valid() && |device.Abs().tx| < CAPACITY && device.Abs().rx == old(device.Abs()).rx
      ensures taken' + device.Abs().tx == taken + old(device.Abs()).tx
      ensures (taken', gets') == (taken, gets) || (|taken'| == |taken| + CAPACITY && gets' == gets + 1)
    {
      hide Device.Mmio.Valid, Device.Mmio.Abs;
      taken', gets' := taken, gets;
      var flags := device.FlagStatus();
      if flags.txff {
        GetDataKeepsInv(device.Abs());
        var buffer, n := device.HostGet();
        taken', gets' := taken + buffer[..n], gets + 1;
        assert taken' + [] == taken';
      }
    }

    /** Waits for room, then writes one byte to the data register. */
    method PutByte(data: byte, taken: seq<byte>, gets: nat) returns (taken': seq<byte>, gets': nat)
      requires Valid()
      modifies device, device.transmit, device.transmit.buf
      ensures Valid() && device.Abs().rx == old(device.Abs()).rx
      ensures taken' + device.Abs().tx == taken + old(device.Abs()).tx + [data]
      ensures device.Abs().tx != []
      ensures |taken'| - CAPACITY * gets' == |taken| - CAPACITY * gets
    {
      hide Device.Mmio.Valid, Device.Mmio.Abs;
      taken', gets' := AwaitRoom(taken, gets);
      ghost var q := device.Abs().tx;
      WriteDrKeepsInv(device.Abs(), data);
      device.WriteData(data);
      assert taken' + (q + [data]) == (taken' + q) + [data];
    }

    /** One chunk of the write loop. */
    method PutChunk(chunk: seq<byte>, taken: seq<byte>, gets: nat) returns (taken': seq<byte>, gets': nat)
      requires Valid() && chunk != []
      modifies device, device.transmit, device.transmit.buf
      ensures Valid() && device.Abs().rx == old(device.Abs()).rx
      ensures taken' + device.Abs().tx == taken + old(device.Abs()).tx + chunk
      ensures device.Abs().tx != []
      ensures |taken'| - CAPACITY * gets' == |taken| - CAPACITY * gets
    {
      hide Device.Mmio.Valid, Device.Mmio.Abs;
      taken', gets' := taken, gets;
      var i := 0;
      ghost var before := taken + device.Abs().tx;
      assert before + chunk[..0] == before;
      while i < |chunk|
        invariant Valid() && device.Abs().rx == old(device.Abs()).rx
        invariant 0 <= i <= |chunk| && taken' + device.Abs().tx == before + chunk[..i]
        invariant |taken'| - CAPACITY * gets' == |taken| - CAPACITY * gets
        invariant i > 0 ==> device.Abs().tx != []
      {
        taken', gets' := PutByte(chunk[i], taken', gets');
        assert before + chunk[..i] + [chunk[i]] == before + chunk[..i + 1];
        i := i + 1;
      }
      assert chunk[..i] == chunk;
    }

    /**
     * The write loop. Everything is written, in order and behind what was there before, and the host
     * had to drain exactly floor((n - 1) / 31) times to have the last of n bytes in the FIFO.
     */
    method Write(user: seq<byte>) returns (written: nat, taken: seq<byte>, gets: nat)
      requires Valid()
      modifies device, device.transmit, device.transmit.buf
      ensures Valid() && device.Abs().rx == old(device.Abs()).rx
      ensures written == |user|
      ensures taken + device.Abs().tx == old(device.Abs()).tx + user
      ensures var n := |old(device.Abs()).tx| + |user|;
              gets == if n == 0 then 0 else (n - 1) / CAPACITY
    {
      hide Device.Mmio.Valid, Device.Mmio.Abs;
      written, taken, gets := 0, [], 0;
      ghost var before := device.Abs().tx;
      assert taken + before == before + user[..0];
      while written < |user|
        invariant Valid() && device.Abs().rx == old(device.Abs()).rx
        invariant written <= |user| && taken + device.Abs().tx == before + user[..written]
        invariant |taken| == CAPACITY * gets && (before != [] || written > 0 ==> device.Abs().tx != [])
      {
        var bytes: nat :| 0 < bytes <= |user| - written && bytes <= CHUNK;
        taken, gets := PutChunk(user[written..written + bytes], taken, gets);
        assert before + user[..written] + user[written..written + bytes] == before + user[..written + bytes];
        written := written + bytes;
      }
      assert user[..written] == user;
    }

    /** Moves one byte from the data register into the buffer. */
    method TakeByte(i: nat)
      requires Valid() && device.Abs().rx != [] && i < FIFO_SIZE
      modifies rxBuf, device, device.receive
      ensures Valid() && device.Abs() == ReadDr(old(device.Abs())).0
      ensures rxBuf[..] == old(rxBuf[..])[i := old(device.Abs()).rx[0]]
    {
      hide Device.Mmio.Valid, Device.Mmio.Abs;
      ReadDrKeepsInv(device.Abs());
      var data := device.ReadData();
      rxBuf[i] := data;
    }

    /** The bottom half: empties the receive FIFO into the buffer, never past its end. */
    method RxWorkHandler()
      requires Valid()
      modifies this, rxBuf, device, device.receive
      ensures Valid() && device.Abs().tx == old(device.Abs()).tx
      ensures rxSize == |old(device.Abs()).rx| && rxBuf[..rxSize] == old(device.Abs()).rx
      ensures var d := device.Abs();
              d.rx == [] && d.flag.rxfe && !d.flag.rxff && (old(device.Abs()).rx != [] ==> !d.ris.rx)
    {
      hide Device.Mmio.Valid, Device.Mmio.Abs;
      ghost var q := device.Abs().rx;
      var i := 0;
      var flags := device.FlagStatus();
      while !flags.rxfe
        invariant Valid() && device.Abs().tx == old(device.Abs()).tx
        invariant flags == device.Abs().flag && 0 <= i <= |q| <= CAPACITY
        invariant device.Abs().rx == q[i..] && rxBuf[..i] == q[..i]
        invariant 0 < i == |q| ==> !device.Abs().ris.rx
        decreases |q| - i
      {
        TakeByte(i);
        flags := device.FlagStatus();
        i := i + 1;
      }
      rxSize := i;
    }

    /** A read at `position`; `copied` bytes of what it asks for reach the user. */
    method Read(length: word, position: nat, copied: nat) returns (r: Reply)
      requires Valid() && position + length < U64
      requires copied <= Request(rxSize, length, position)
      ensures position <= rxSize ==>
                r.Slice? && r.next == position + copied <= rxSize && r.data == rxBuf[position..r.next]
      ensures position > rxSize ==> r == Beyond(U64 - (position - rxSize))
    {
      var asked := Request(rxSize, length, position);
      if position <= rxSize {
        RequestIsBounded(rxSize, length, position);
        return Slice(rxBuf[position..position + copied], position + copied);
      }
      RequestBeyond(rxSize, length, position);
      return Beyond(asked);
    }
  }
}
