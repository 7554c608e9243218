/** The SPI scale and its driver as the program has them. */
module ScaleDriver {
  import opened Registers
  import opened ScaleSpec

  class Device {
    var scale: u16
    var offset: u16
    var cycle: int

    function Abs(): Scale
      reads this
    {
      Scale(scale, offset, cycle)
    }

    constructor ()
      ensures Abs() == Scale(0, 0, 0)
    {
      scale, offset, cycle := 0, 0, 0;
    }

    method TransferByte(data: byte) returns (reply: byte)
      modifies this
      ensures (Abs(), reply) == Transfer(old(Abs()), data)
    {
      if data != 0 {
        if data == SET_ZERO {
          offset := scale;
        }
        cycle := 0;
      } else {
        cycle := cycle + 1;
      }
      if cycle == 1 {
        return High(scale - offset);
      } else if cycle == 2 {
        return Low(scale - offset);
      }
      return 0;
    }

    method SetScale(value: int)
      modifies this
      ensures Abs() == old(Abs()).(scale := Unsigned(value))
    {
      scale := Unsigned(value);
    }

    /** The scale reads back unsigned, whatever the sign it was set with: the weight of any history it had. */
    method GetScale() returns (value: int)
      ensures value == scale && 0 <= value < U16
      ensures forall events :: AllPossible(events) && Abs() == Run(events).dev ==> value == Weight(events)
    {
      forall events | AllPossible(events) && Abs() == Run(events).dev
        ensures Weight(events) == scale
      {
        HistoryDecides(events);
      }
      value := scale;
    }
  }

  class Driver {
    const device: Device
    const txBuf: array<byte>
    const rxBuf: array<byte>
    var locked: bool

    ghost predicate Valid()
      reads this
    {
      txBuf.Length == 1 && rxBuf.Length == 2 && txBuf != rxBuf
    }

    ghost function Abs(): System
      requires Valid()
      reads this, device, rxBuf
    {
      System(device.Abs(), rxBuf[..])
    }

    constructor ()
      ensures Valid() && !locked && Abs() == Start() && fresh(device) && fresh(txBuf) && fresh(rxBuf)
    {
      device := new Device();
      txBuf := new byte[1](_ => 0);
      rxBuf := new byte[2](_ => 0);
      locked := false;
    }

    /** Runs the two transfers of the message; on a bus failure only the first `delivered` bytes. */
    method Sync(delivered: nat)
      requires Valid() && delivered <= 3
      modifies device, rxBuf
      ensures (Abs().dev, Abs().buffer) == Deliver(old(Abs()).dev, old(Abs()).buffer, txBuf[0], delivered)
    {
      var n := 0;
      while n < delivered
        invariant 0 <= n <= delivered
        invariant (Abs().dev, Abs().buffer) == Deliver(old(Abs()).dev, old(Abs()).buffer, txBuf[0], n)
        invariant txBuf[0] == old(txBuf[0])
      {
        if n == 0 {
          var ignored := device.TransferByte(txBuf[0]);
        } else {
          var reply := device.TransferByte(0);
          rxBuf[n - 1] := reply;
        }
        n := n + 1;
      }
    }

    /** Reading the attribute. The mutex is released on both paths. */
    method ShowScale(delivered: nat, ok: bool) returns (r: Shown)
      requires Valid() && !locked && Possible(Show(delivered, ok))
      modifies this, device, txBuf, rxBuf
      ensures Valid() && !locked
      ensures Abs() == Step(old(Abs()), Show(delivered, ok)) && r == ShownBy(old(Abs()), Show(delivered, ok))
      ensures r.Failed? <==> !ok
    {
      locked := true;
      txBuf[0] := GET_SCALE;
      Sync(delivered);
      if !ok {
        locked := false;
        return Failed;
      }
      r := Value(Join(rxBuf[0], rxBuf[1]));
      locked := false;
    }

    /** Writing the attribute: only the word "zero" does anything. */
    method StoreZero(isZero: bool, delivered: nat, ok: bool) returns (stored: bool)
      requires Valid() && !locked && Possible(Zero(delivered, ok))
      modifies this, device, txBuf, rxBuf
      ensures Valid() && !locked
      ensures Abs() == Step(old(Abs()), if isZero then Zero(delivered, ok) else Other)
      ensures stored <==> (isZero ==> ok)
    {
      if !isZero {
        return true;
      }
      locked := true;
      txBuf[0] := SET_ZERO;
      Sync(delivered);
      locked := false;
      return ok;
    }
  }
}
