/** The device as the program has it: words in registers, rings behind the data register. */
module Device {
  import opened Registers
  import opened Words
  import Ring
  import opened DeviceSpec

  class Mmio {
    const variant: Variant
    var flag: Register
    var ris: Register
    var imsc: Register
    var irq: bool
    var txBusy: bool
    var rxBusy: bool
    const transmit: Ring.Fifo
    const receive: Ring.Fifo

    ghost const Repr: set<object> := {this, transmit, transmit.buf, receive, receive.buf}

    ghost predicate Valid()
      reads Repr
    {
      && transmit != receive
      && transmit.buf != receive.buf
      && transmit.Valid()
      && receive.Valid()
      && IsFlagWord(flag)
    }

    /** The value of `DeviceSpec` this object stands for. */
    ghost function Abs(): Dev
      requires Valid()
      reads Repr
    {
      Dev(variant, transmit.View, receive.View,
          FlagsOf(flag), IntsOf(ris), IntsOf(imsc), irq, txBusy, rxBusy)
    }

    constructor (variant: Variant)
      ensures Valid() && fresh(Repr) && Abs() == Init(variant) && this.variant == variant
    {
      this.variant := variant;
      hide IntsOf, FlagsOf, IsFlagWord;
      flag, ris, imsc := PowerOnFlags(), PowerOnInts(), PowerOnInts();
      irq, txBusy, rxBusy := false, false, false;
      transmit := new Ring.Fifo();
      receive := new Ring.Fifo();
      new;
      assert Valid();
    }

    /** The level of the interrupt line: some unmasked interrupt is pending. */
    predicate Line()
      reads this
      ensures Line() <==> Meet(IntsOf(ris), IntsOf(imsc))
    {
      Share(ris, imsc)
    }

    method AnnounceRead()
      requires Valid()
      modifies this
      ensures Valid() && Abs() == AfterRead(old(Abs()))
    {
      hide Ring.Between, Meet, Toggle, IntsOf, FlagsOf, IsFlagWord, WithBit, Share;
      if receive.IsEmpty() {
        flag := WithRxff(flag, false);
        flag := WithRxfe(flag, true);
        ris := WithIntRx(ris, false);
        if variant.Dma? {
          ris := WithIntRxEmpty(ris, true);
          rxBusy := true;
        }
      }
      irq := Line();
    }

    method ReadData() returns (r: byte)
      requires Valid()
      modifies this, receive
      ensures Valid() && Abs() == ReadDr(old(Abs())).0 && r == ReadDr(old(Abs())).1
    {
      hide Ring.Between, AfterRead, IntsOf, FlagsOf, IsFlagWord;
      r := 0;
      if !receive.IsEmpty() {
        r := receive.Dequeue();
      }
      AnnounceRead();
    }

    method AnnounceWrite()
      requires Valid()
      modifies this
      ensures Valid() && Abs() == AfterWrite(old(Abs()))
    {
      hide Ring.Between, Meet, Toggle, IntsOf, FlagsOf, IsFlagWord, WithBit, Share;
      flag := WithTxfe(flag, false);
      if transmit.IsFull() {
        flag := WithTxff(flag, true);
        ris := WithIntTx(ris, false);
        if variant.Dma? {
          txBusy := true;
        }
      }
      irq := Line();
    }

    method WriteData(data: byte)
      requires Valid()
      modifies this, transmit, transmit.buf
      ensures Valid() && Abs() == WriteDr(old(Abs()), data)
    {
      hide Ring.Between, AfterWrite, IntsOf, FlagsOf, IsFlagWord;
      if !transmit.IsFull() {
        transmit.Enqueue(data);
      }
      AnnounceWrite();
    }

    method ReadRegister(offset: nat) returns (r: word)
      requires Valid() && offset != DR
      ensures r == RegisterAt(Abs(), offset)
    {
      hide Ring.Between, IntsOf, FlagsOf, IsFlagWord, IntWord, FlagWord, BusWord, MaskBits, And;
      r := 0;
      if offset == FR {
        FlagsRoundTrip(flag);
        r := BusWord(flag);
      } else if offset == RIS {
        WordsRoundTrip(ris);
        r := BusWord(ris);
      } else if offset == IMSC {
        WordsRoundTrip(imsc);
        r := BusWord(imsc);
      } else if offset == MIS {
        AndWords(ris, imsc);
        WordsRoundTrip(MaskBits(ris, imsc));
        r := BusWord(MaskBits(ris, imsc));
      } else if ID_FIRST <= offset <= ID_LAST {
        r := MMIO_ID[(offset - ID_FIRST) / 4] as word;
      }
    }

    /** The masked status, read bit by bit from the bus word. */
    method MaskedStatus() returns (mis: Ints)
      requires Valid()
      ensures mis == And(Abs().ris, Abs().imsc)
    {
      hide Ring.Between, IntsOf, FlagsOf, IsFlagWord, IntWord, FlagWord, BusWord, MaskBits, And, Low32;
      var word := ReadRegister(MIS);
      mis := IntsOf(Low32(word));
      AndWords(ris, imsc);
      WordsRoundTrip(MaskBits(ris, imsc));
      LowWord(MaskBits(ris, imsc));
    }

    /** The flag register, read bit by bit from the bus word. */
    method FlagStatus() returns (flags: Flags)
      requires Valid()
      ensures flags == Abs().flag
    {
      hide Ring.Between, IntsOf, FlagsOf, IsFlagWord, IntWord, FlagWord, BusWord, Low32;
      var word := ReadRegister(FR);
      flags := FlagsOf(Low32(word));
      FlagsRoundTrip(flag);
      LowWord(flag);
    }

    method Read(offset: nat) returns (r: word)
      requires Valid()
      modifies this, receive
      ensures Valid() && Abs() == BusRead(old(Abs()), offset).0 && r == BusRead(old(Abs()), offset).1
      ensures offset == DR ==> r == if old(Abs()).rx == [] then 0 else old(Abs()).rx[0] as nat
    {
      if offset == DR {
        var data := ReadData();
        r := data as word;
      } else {
        r := ReadRegister(offset);
      }
    }

    method WriteRegister(offset: nat, value: word)
      requires Valid() && offset != DR
      modifies this
      ensures Valid() && Abs() == BusWrite(old(Abs()), offset, value)
    {
      hide Ring.Between, Meet, Toggle, IntsOf, FlagsOf, IsFlagWord, ToggleBits, WithBit, Share, Low32;
      if offset == ICR {
        ToggleWords(ris, Low32(value));
        ris := ToggleBits(ris, Low32(value));
        irq := Line();
      } else if offset == IMSC {
        imsc := Low32(value);
        irq := Line();
      }
    }

    method Write(offset: nat, value: word)
      requires Valid()
      modifies this, transmit, transmit.buf
      ensures Valid() && Abs() == BusWrite(old(Abs()), offset, value)
      ensures offset == DR && |old(Abs()).tx| < CAPACITY ==>
                Abs().tx == old(Abs()).tx + [(value % 256) as byte]
    {
      if offset == DR {
        WriteData(Low8(value));
      } else {
        WriteRegister(offset, value);
      }
    }

    /** Empties the transmit ring into the front of a host buffer. */
    method DrainTransmit(ret: array<byte>) returns (i: nat)
      requires Valid() && ret.Length == FIFO_SIZE + 1 && ret !in Repr
      modifies transmit, ret
      ensures Valid() && Abs() == old(Abs()).(tx := [])
      ensures i <= CAPACITY && ret[..i] == old(Abs()).tx
    {
      hide Ring.Between, IntsOf, FlagsOf, IsFlagWord;
      ghost var q := transmit.View;
      i := 0;
      while !transmit.IsEmpty()
        invariant Valid() && i <= |q| <= CAPACITY
        invariant ret[..i] == q[..i] && transmit.View == q[i..]
        decreases |q| - i
      {
        var data := transmit.Dequeue();
        ret[i] := data;
        i := i + 1;
      }
    }

    method AnnounceDrain()
      requires Valid()
      modifies this
      ensures Valid() && Abs() == Drained(old(Abs()))
      ensures Abs().ris.tx && (Abs().imsc.tx ==> irq)
    {
      hide Ring.Between, Toggle, IntsOf, FlagsOf, IsFlagWord, ToggleBits, WithBit, Share, Low32;
      flag := WithTxff(flag, false);
      flag := WithTxfe(flag, true);
      ris := WithIntTx(ris, true);
      irq := Line();
      txBusy := false;
    }

    /** Hands the host a NUL-terminated buffer of 33 bytes: the whole queue, then a zero. */
    method HostGet() returns (ret: array<byte>, i: nat)
      requires Valid()
      modifies this, transmit
      ensures Valid() && Abs() == GetData(old(Abs())).0
      ensures fresh(ret) && ret.Length == FIFO_SIZE + 1
      ensures i < ret.Length && ret[..i] == old(Abs()).tx && ret[i] == 0
      ensures Abs().ris.tx && (Abs().imsc.tx ==> irq)
    {
      ret := new byte[FIFO_SIZE + 1];
      i := DrainTransmit(ret);
      ret[i] := 0;
      AnnounceDrain();
    }

    /** Fills the receive ring with as much of `value` as fits. */
    method FillReceive(value: seq<byte>)
      requires Valid()
      modifies receive, receive.buf
      ensures Valid() && Abs() == old(Abs()).(rx := old(Abs()).rx + Fitting(value, |old(Abs()).rx|))
    {
      hide Ring.Between, IntsOf, FlagsOf, IsFlagWord;
      ghost var q := receive.View;
      var i := 0;
      while i < |value| && !receive.IsFull()
        invariant Valid() && 0 <= i <= |value| && |q| + i <= CAPACITY
        invariant receive.View == q + value[..i]
      {
        receive.Enqueue(value[i]);
        i := i + 1;
      }
      assert value[..i] == Fitting(value, |q|);
    }

    method AnnounceReceive()
      requires Valid()
      modifies this
      ensures Valid() && Abs() == Announce(old(Abs()))
    {
      hide Ring.Between, Meet, Toggle, IntsOf, FlagsOf, IsFlagWord, ToggleBits, WithBit, Share, Low32;
      flag := WithRxfe(flag, false);
      if receive.IsFull() {
        flag := WithRxff(flag, true);
      }
      ris := WithIntRx(ris, true);
      if variant.Dma? {
        ris := WithIntRxEmpty(ris, false);
        rxBusy := false;
      }
      irq := Line();
    }

    method HostSet(value: seq<byte>)
      requires Valid()
      modifies this, receive, receive.buf
      ensures Valid() && Abs() == SetData(old(Abs()), value)
    {
      hide Ring.Between, Meet, Toggle, IntsOf, FlagsOf, IsFlagWord, ToggleBits, WithBit, Share, Low32;
      if |value| == 0 {
        return;
      }
      FillReceive(value);
      AnnounceReceive();
    }
  }
}
