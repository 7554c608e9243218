/** The top half both drivers share: read the masked status, acknowledge the first cause found. */
module Handler {
  import opened Registers
  import opened Interrupts
  import Device

  method Acknowledge(device: Device.Mmio) returns (cause: Cause)
    requires device.Valid()
    modifies device
    ensures device.Valid() && device.Abs() == Handle(old(device.Abs()))
    ensures cause == Served(old(device.Abs()))
    ensures var d := old(device.Abs());
      && (cause.Transmit? <==> d.ris.tx && d.imsc.tx)
      && (cause.Receive? <==> !(d.ris.tx && d.imsc.tx) && d.ris.rx && d.imsc.rx)
      && (cause.ReceiveEmpty? <==>
            !(d.ris.tx && d.imsc.tx) && !(d.ris.rx && d.imsc.rx) && d.ris.rxEmpty && d.imsc.rxEmpty)
  {
    DriverWords();
    var mis := device.MaskedStatus();
    if mis.tx {
      device.WriteRegister(ICR, 2);
      return Transmit;
    }
    if mis.rx {
      device.WriteRegister(ICR, 1);
      return Receive;
    }
    if mis.rxEmpty {
      device.WriteRegister(ICR, 4);
      return ReceiveEmpty;
    }
    return Nothing;
  }
}
