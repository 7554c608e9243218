/** The DMA driver as the program has it: handlers that update the device structure in place. */
module DmaDriver {
  import opened Registers
  import opened Words
  import opened DeviceSpec
  import opened Interrupts
  import opened DriverSpec
  import opened Paging
  import opened Handler
  import Device

  class Driver {
    const device: Device.Mmio
    const txBuf: array<byte>
    const rxBuf: array<byte>
    var led0: bool
    var led1: bool
    var led2: bool
    var txQueued: bool
    var tx: Channel
    var txMaps: int
    var txLen: nat
    var rxQueued: bool
    var rx: Channel
    var rxMaps: int
    var rxSize: int
    var rxWork: bool
    var rxDmaWork: bool

    ghost const Repr: set<object> := {this, txBuf, rxBuf} + device.Repr

    ghost predicate Valid()
      reads Repr
    {
      && device.Valid()
      && txBuf != rxBuf
      && this !in device.Repr && txBuf !in device.Repr && rxBuf !in device.Repr
      && txBuf.Length == rxBuf.Length == DMA_BUFFER_SIZE
      && device.variant == Dma
    }

    /** The value of `DriverSpec` this object stands for. */
    ghost function Abs(): Drv
      requires Valid()
      reads Repr
    {
      Drv(device.Abs(), txQueued, tx, txMaps, txLen, txBuf[..], rxQueued, rx, rxMaps, rxBuf[..], rxSize,
          rxWork, rxDmaWork, led0, led1, led2)
    }

    constructor ()
      ensures Valid() && fresh(Repr) && Abs() == Start(txBuf[..], rxBuf[..]) && Inv(Abs())
    {
      hide Device.Mmio.Valid, Device.Mmio.Abs, Inv, IntsOf, Low32, Update;
      device := new Device.Mmio(Dma);
      txBuf := new byte[DMA_BUFFER_SIZE];
      rxBuf := new byte[DMA_BUFFER_SIZE];
      led0, led1, led2 := false, false, false;
      txQueued, tx, txMaps, txLen := false, Idle, 0, DMA_BUFFER_SIZE;
      rxQueued, rx, rxMaps, rxSize := false, Idle, 0, 0;
      rxWork, rxDmaWork := false, false;
      new;
      DriverWords();
      device.WriteRegister(IMSC, 7);
      StartOk(txBuf[..], rxBuf[..]);
    }

    method CompleteTransmit()
      requires Valid() && Enabled(Abs(), CompleteTx)
      modifies this
      ensures Valid() && Abs() == Take(old(Abs()), CompleteTx)
    {
      hide Device.Mmio.Valid, Device.Mmio.Abs;
      tx := Idle;
      txMaps := txMaps - 1;
      txQueued := false;
      led0 := false;
    }

    method RxDone()
      requires Valid()
      modifies this
      ensures Valid() && Abs() == RxCallback(old(Abs()))
    {
      rxMaps := rxMaps - 1;
      rxQueued := false;
      led1 := false;
    }

    method CompleteReceive()
      requires Valid() && Enabled(Abs(), CompleteRx)
      modifies this
      ensures Valid() && Abs() == Take(old(Abs()), CompleteRx)
    {
      rx := Idle;
      RxDone();
    }

    method Terminate()
      requires Valid()
      modifies this
      ensures Valid() && Abs() == AbortRx(old(Abs()))
    {
      if rxQueued {
        rx := Idle;
        RxDone();
      }
    }

    method InterruptHandler() returns (handled: bool)
      requires Valid() && Enabled(Abs(), Interrupt)
      modifies this, device
      ensures Valid() && Abs() == Take(old(Abs()), Interrupt)
      ensures handled <==> Served(old(Abs()).dev) != Nothing
      ensures var d := old(Abs()).dev;
        var tx, rx, rxEmpty := d.ris.tx && d.imsc.tx, d.ris.rx && d.imsc.rx, d.ris.rxEmpty && d.imsc.rxEmpty;
        && (rxWork <==> old(rxWork) || (!tx && rx))
        && (rxDmaWork <==> old(rxDmaWork) || (!tx && !rx && rxEmpty))
    {
      hide Device.Mmio.Valid, Device.Mmio.Abs, Handle, Served;
      var cause := Acknowledge(device);
      if cause.Receive? {
        rxWork := true;
      }
      if cause.ReceiveEmpty? {
        rxDmaWork := true;
      }
      handled := cause != Nothing;
    }

    /** Maps, prepares and issues a receive transfer into the front of the buffer. */
    method LaunchReceive(mapOk: bool, prepOk: bool)
      requires Valid()
      modifies this
      ensures Valid() && Abs() == LaunchRx(old(Abs()), mapOk, prepOk)
    {
      hide Device.Mmio.Valid, Device.Mmio.Abs;
      if !mapOk {
        return;
      }
      rxMaps := rxMaps + 1;
      if !prepOk {
        rxMaps := rxMaps - 1;
        return;
      }
      rxQueued := true;
      led1 := true;
      rx := Active(0);
    }

    /** Bottom half of RX: stops a running transfer and starts over. */
    method RxWorkHandler(mapOk: bool, prepOk: bool)
      requires Valid() && rxWork
      modifies this
      ensures Valid() && Abs() == Begin(old(Abs()), mapOk, prepOk)
    {
      hide Device.Mmio.Valid, Device.Mmio.Abs, LaunchRx, AbortRx;
      rxWork := false;
      Terminate();
      LaunchReceive(mapOk, prepOk);
    }

    /** Bottom half of RX_EMPTY: asks the channel how far it came, then stops it. */
    method RxDmaWorkHandler(residue: nat)
      requires Valid() && Enabled(Abs(), StopRx(residue))
      modifies this
      ensures Valid() && Abs() == Stop(old(Abs()), residue)
    {
      hide Device.Mmio.Valid, Device.Mmio.Abs;
      hide AbortRx;
      rxDmaWork := false;
      rxSize := DMA_BUFFER_SIZE - residue;
      if rxSize != 0 {
        led2 := true;
      }
      Terminate();
    }

    method ButtonInterrupt()
      requires Valid()
      modifies this
      ensures Valid() && Abs() == Take(old(Abs()), Button)
      ensures rxSize == 0 && !led2
    {
      rxSize := 0;
      led2 := false;
    }

    /** The engine moves one byte to the data register. */
    method MoveTransmit()
      requires Valid() && Enabled(Abs(), MoveTx)
      modifies this, device, device.transmit, device.transmit.buf
      ensures Valid() && Abs() == Take(old(Abs()), MoveTx)
    {
      hide Device.Mmio.Valid, Device.Mmio.Abs, WriteDr;
      device.WriteData(txBuf[tx.moved]);
      tx := Active(tx.moved + 1);
    }

    /** The engine moves one byte from the data register. */
    method MoveReceive()
      requires Valid() && Enabled(Abs(), MoveRx)
      modifies this, rxBuf, device, device.receive
      ensures Valid() && Abs() == Take(old(Abs()), MoveRx)
    {
      hide Device.Mmio.Valid, Device.Mmio.Abs, ReadDr;
      var data := device.ReadData();
      rxBuf[rx.moved] := data;
      rx := Active(rx.moved + 1);
    }

    /** A read at `position`; `copied` bytes of what it asks for reach the user. */
    method Read(length: word, position: nat, copied: nat) returns (r: Reply)
      requires Valid() && 0 <= rxSize <= DMA_BUFFER_SIZE && position + length < U64
      requires copied <= Request(rxSize, length, position)
      ensures position <= rxSize ==>
                r.Slice? && r.next == position + copied <= rxSize && r.data == rxBuf[position..r.next]
      ensures position > rxSize ==> r == Beyond(U64 - (position - rxSize))
    {
      var asked := Request(rxSize, length, position);
      if position <= rxSize {
        RequestIsBounded(rxSize, length, position);
        return Slice(rxBuf[position..position + copied], position + copied);
      }
      RequestBeyond(rxSize, length, position);
      return Beyond(asked);
    }

    /** The host takes the transmit queue. */
    method HostTakes() returns (data: seq<byte>)
      requires Valid()
      modifies device, device.transmit
      ensures Valid() && Abs() == Take(old(Abs()), HostGets) && data == old(Abs()).dev.tx
    {
      hide Device.Mmio.Valid, Device.Mmio.Abs;
      var buffer, n := device.HostGet();
      data := buffer[..n];
    }

    method CopyFromUser(data: seq<byte>)
      requires Valid() && |data| <= DMA_BUFFER_SIZE
      modifies this, txBuf
      ensures Valid() && Abs() == old(Abs()).(txBuf := data + old(Abs()).txBuf[|data|..], txLen := |data|)
    {
      hide Device.Mmio.Valid, Device.Mmio.Abs;
      forall i | 0 <= i < |data| {
        txBuf[i] := data[i];
      }
      assert txBuf[..] == data + old(txBuf[..])[|data|..];
      txLen := |data|;
    }

    method LaunchTransmit(mapOk: bool, prepOk: bool) returns (ok: bool)
      requires Valid()
      modifies this
      ensures Valid() && Abs() == LaunchTx(old(Abs()), mapOk, prepOk) && ok == (mapOk && prepOk)
    {
      hide Device.Mmio.Valid, Device.Mmio.Abs;
      if !mapOk {
        return false;
      }
      txMaps := txMaps + 1;
      if !prepOk {
        txMaps := txMaps - 1;
        return false;
      }
      txQueued := true;
      led0 := true;
      tx := Active(0);
      return true;
    }

    /** One chunk of the write loop: copy, map, prepare, mark and issue. */
    method SubmitChunk(data: seq<byte>, mapOk: bool, prepOk: bool) returns (ok: bool)
      requires Valid() && !txQueued && |data| <= DMA_BUFFER_SIZE
      modifies this, txBuf
      ensures Valid() && Abs() == Submit(old(Abs()), data, mapOk, prepOk)
      ensures ok == (mapOk && prepOk)
    {
      hide Device.Mmio.Valid, Device.Mmio.Abs, LaunchTx;
      CopyFromUser(data);
      ok := LaunchTransmit(mapOk, prepOk);
    }

    /** The engine's next byte; the host takes the queue when it is full. */
    method MoveOrDrain(taken: seq<byte>, gets: nat) returns (taken': seq<byte>, gets': nat)
      requires Valid() && Inv(Abs()) && tx.Active? && tx.moved < txLen
      modifies this, device, device.transmit, device.transmit.buf
      ensures Valid() && Inv(Abs()) && Abs().dev.tx != []
      ensures taken' + Abs().dev.tx + InTransit(Abs()) == taken + old(Abs()).dev.tx + old(InTransit(Abs()))
      ensures |taken'| - CAPACITY * gets' == |taken| - CAPACITY * gets
      ensures tx == Active(old(tx).moved + 1) && txLen == old(txLen) && txQueued == old(txQueued)
    {
      hide Device.Mmio.Valid, Device.Mmio.Abs;
      taken', gets' := taken, gets;
      if device.txBusy {
        BusyIsAbs();
        StepKeepsInv(Abs(), HostGets);
        var data := HostTakes();
        taken', gets' := taken + data, gets + 1;
        assert taken' + [] == taken';
      }
      BusyIsAbs();
      StepKeepsInv(Abs(), MoveTx);
      MoveKeepsOrder(Abs(), taken');
      MoveTransmit();
    }

    lemma BusyIsAbs()
      requires Valid()
      ensures device.txBusy == Abs().dev.txBusy
    {
    }

    /** Waits for the transfer to complete and its callback to run. */
    method AwaitIdle(taken: seq<byte>, gets: nat) returns (taken': seq<byte>, gets': nat)
      requires Valid() && Inv(Abs())
      modifies this, device, device.transmit, device.transmit.buf
      ensures Valid() && Inv(Abs()) && !txQueued
      ensures taken' + Abs().dev.tx == taken + old(Abs()).dev.tx + old(InTransit(Abs()))
      ensures |taken'| - CAPACITY * gets' == |taken| - CAPACITY * gets
      ensures old(InTransit(Abs())) != [] || old(Abs()).dev.tx != [] ==> Abs().dev.tx != []
    {
      hide Device.Mmio.Valid, Device.Mmio.Abs;
      taken', gets' := taken, gets;
      ghost var all := taken + Abs().dev.tx + InTransit(Abs());
      while tx.Active? && tx.moved < txLen
        invariant Valid() && Inv(Abs()) && txLen == old(txLen) && txQueued == old(txQueued)
        invariant taken' + Abs().dev.tx + InTransit(Abs()) == all
        invariant |taken'| - CAPACITY * gets' == |taken| - CAPACITY * gets
        invariant old(InTransit(Abs())) != [] || old(Abs()).dev.tx != [] ==>
                    Abs().dev.tx != [] || InTransit(Abs()) != []
        decreases if tx.Active? then txLen - tx.moved else 0
      {
        taken', gets' := MoveOrDrain(taken', gets');
      }
      assert taken' + Abs().dev.tx + [] == taken' + Abs().dev.tx;
      if tx.Active? {
        StepKeepsInv(Abs(), CompleteTx);
        CompleteTransmit();
      }
    }

    /** Copies what it can of the next chunk, and submits it; 0 if a map or prepare call fails. */
    method SendNext(user: seq<byte>, written: nat, ghost taken: seq<byte>, ghost before: seq<byte>)
      returns (sent: nat)
      requires Valid() && Inv(Abs()) && !txQueued && written < |user|
      requires taken + Abs().dev.tx == before + user[..written]
      modifies this, txBuf
      ensures Valid() && Inv(Abs()) && written + sent <= |user| && Abs().dev == old(Abs()).dev
      ensures taken + Abs().dev.tx + InTransit(Abs()) == before + user[..written + sent]
      ensures sent > 0 ==> InTransit(Abs()) != []
    {
      hide Device.Mmio.Valid, Device.Mmio.Abs, Inv, InTransit, Submit;
      var bytes: nat :| 0 < bytes <= |user| - written && bytes <= DMA_BUFFER_SIZE;
      var mapOk: bool := *;
      var prepOk: bool := *;
      var data := user[written..written + bytes];
      SubmitLoads(Abs(), data, mapOk, prepOk);
      var ok := SubmitChunk(data, mapOk, prepOk);
      NextChunk(before, user, written, bytes);
      sent := if ok then bytes else 0;
      assert taken + Abs().dev.tx + [] == taken + Abs().dev.tx;
    }

    /**
     * The write loop, the host draining only when the engine is held back by a full FIFO. What was
     * submitted arrives in order behind what was there before, without failures that is everything,
     * and the host had to drain exactly floor((n - 1) / 31) times to have the last of n bytes in the
     * FIFO.
     */
    method Write(user: seq<byte>) returns (written: nat, failed: bool, taken: seq<byte>, gets: nat)
      requires Valid() && Inv(Abs())
      modifies this, txBuf, device, device.transmit, device.transmit.buf
      ensures Valid() && Inv(Abs()) && !txQueued
      ensures written <= |user| && (!failed ==> written == |user|)
      ensures taken + Abs().dev.tx == old(Abs()).dev.tx + old(InTransit(Abs())) + user[..written]
      ensures var n := |old(Abs()).dev.tx| + |old(InTransit(Abs()))| + written;
              gets == if n == 0 then 0 else (n - 1) / CAPACITY
    {
      hide Device.Mmio.Valid, Device.Mmio.Abs, Inv, InTransit, Submit;
      written, failed, taken, gets := 0, false, [], 0;
      ghost var before := Abs().dev.tx + InTransit(Abs());
      assert taken + Abs().dev.tx + InTransit(Abs()) == before + user[..0];
      while written < |user|
        invariant Valid() && Inv(Abs()) && written <= |user|
        invariant taken + Abs().dev.tx + InTransit(Abs()) == before + user[..written]
        invariant |taken| == CAPACITY * gets
        invariant before != [] || written > 0 ==> Abs().dev.tx != [] || InTransit(Abs()) != []
      {
        taken, gets := AwaitIdle(taken, gets);
        var sent := SendNext(user, written, taken, before);
        if sent == 0 {
          failed := true;
          break;
        }
        written := written + sent;
      }
      taken, gets := AwaitIdle(taken, gets);
      QueueIsBounded(Abs());
      DrainCount(gets, |Abs().dev.tx|, |before| + written);
    }
  }

  lemma QueueIsBounded(s: Drv)
    requires Inv(s)
    ensures |s.dev.tx| <= CAPACITY
  {
  }

  /** Whole queues taken, and the last byte of `total` in the queue. */
  lemma DrainCount(gets: nat, queued: nat, total: nat)
    requires CAPACITY * gets + queued == total && queued <= CAPACITY && (total > 0 ==> queued > 0)
    ensures gets == if total == 0 then 0 else (total - 1) / CAPACITY
  {
  }

  lemma NextChunk(before: seq<byte>, user: seq<byte>, written: nat, bytes: nat)
    requires written + bytes <= |user|
    ensures before + user[..written] + user[written..written + bytes] == before + user[..written + bytes]
  {
    assert user[..written] + user[written..written + bytes] == user[..written + bytes];
  }

  lemma SubmitLoads(s: Drv, data: seq<byte>, mapOk: bool, prepOk: bool)
    requires Inv(s) && !s.txQueued && |data| <= DMA_BUFFER_SIZE
    ensures |data| <= |s.txBuf|
    ensures var t := Submit(s, data, mapOk, prepOk);
      && Inv(t) && t.dev == s.dev && t.txQueued == (mapOk && prepOk)
      && InTransit(t) == if mapOk && prepOk then data else []
  {
    StepKeepsInv(s, SubmitTx(data, mapOk, prepOk));
  }

  lemma MoveKeepsOrder(s: Drv, taken: seq<byte>)
    requires Inv(s) && Enabled(s, MoveTx)
    ensures var t := Take(s, MoveTx);
      t.dev.tx != [] && taken + t.dev.tx + InTransit(t) == taken + s.dev.tx + InTransit(s)
  {
    var t := Take(s, MoveTx);
    var x := s.txBuf[s.tx.moved];
    assert t.dev.tx == s.dev.tx + [x];
    assert InTransit(s) == [x] + InTransit(t);
    assert taken + (s.dev.tx + [x]) + InTransit(t) == taken + s.dev.tx + ([x] + InTransit(t));
  }
}
