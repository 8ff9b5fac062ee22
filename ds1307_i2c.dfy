/**
 * The generic I2C framers the base station uses for the DS1307 real-time
 * clock: writes and reads of one or several bytes, with or without a
 * register number first. `address` is the slave's 7-bit address; each
 * framer puts `address << 1` (truncated to a byte) on the wire with the
 * direction bit.
 */
module Ds1307I2c {
  import opened Common
  import opened HwI2c

  /**
   * `address << 1` keeps bits 0 to 6 of the address: a slave sees the
   * 7-bit address it was given, and bit 7 of a wider value is lost.
   */
  lemma WireAddress(address: byte, dir: Direction)
    ensures AddressByte(address << 1, dir) >> 1 == address & 0x7F
    ensures (AddressByte(address << 1, dir) & 1 == 1) <==> dir == Receiver
  {
  }

  /** The bytes the slave sends from receive number `from` on. */
  predicate Answers(bus: Bus, from: nat, data: seq<byte>)
  {
    forall k :: 0 <= k < |data| ==> data[k] == bus.rx(from + k)
  }

  /** i2c_write_no_reg: one byte in one transaction. */
  method WriteNoReg(bus: Bus, address: byte, data: byte)
    modifies bus`trace
    ensures bus.trace == old(bus.trace) + Transaction(address << 1, Transmitter, [Send(data)])
  {
    bus.StartCondition();
    bus.AddressDirection(address << 1, Transmitter);
    bus.Transmit(data);
    bus.StopCondition();
  }

  /** i2c_write_with_reg: the register number, then one byte, in one transaction. */
  method WriteWithReg(bus: Bus, address: byte, reg: byte, data: byte)
    modifies bus`trace
    ensures bus.trace == old(bus.trace) + Transaction(address << 1, Transmitter, [Send(reg), Send(data)])
  {
    bus.StartCondition();
    bus.AddressDirection(address << 1, Transmitter);
    bus.Transmit(reg);
    bus.Transmit(data);
    bus.StopCondition();
  }

  /** The loop of the multi-byte writes: data[0..len) transmitted in order. */
  method TransmitAll(bus: Bus, data: array<byte>, len: u8)
    requires len <= data.Length
    modifies bus`trace
    ensures bus.trace == old(bus.trace) + Sends(data[..len])
  {
    for i := 0 to len
      invariant bus.trace == old(bus.trace) + Sends(data[..i])
    {
      bus.Transmit(data[i]);
      SendsSnoc(data[..i], data[i]);
      assert data[..i + 1] == data[..i] + [data[i]];
      AppendAssoc(old(bus.trace), Sends(data[..i]), [Send(data[i])]);
    }
  }

  /** i2c_write_multi_no_reg: data[0..len) in order, in one transaction. */
  method WriteMultiNoReg(bus: Bus, address: byte, data: array<byte>, len: u8)
    requires len <= data.Length
    modifies bus`trace
    ensures bus.trace == old(bus.trace) + Transaction(address << 1, Transmitter, Sends(data[..len]))
  {
    bus.StartCondition();
    bus.AddressDirection(address << 1, Transmitter);
    TransmitAll(bus, data, len);
    bus.StopCondition();
  }

  /** i2c_write_multi_with_reg: the register number, then data[0..len) in order, in one transaction. */
  method WriteMultiWithReg(bus: Bus, address: byte, reg: byte, data: array<byte>, len: u8)
    requires len <= data.Length
    modifies bus`trace
    ensures bus.trace == old(bus.trace) + Transaction(address << 1, Transmitter, [Send(reg)] + Sends(data[..len]))
  {
    bus.StartCondition();
    bus.AddressDirection(address << 1, Transmitter);
    bus.Transmit(reg);
    ghost var t := bus.trace;
    TransmitAll(bus, data, len);
    AppendAssoc(t, [Send(reg)], Sends(data[..len]));
    bus.StopCondition();
  }

  /** The write transaction both register reads start with: the register number alone, then STOP. */
  method SelectRegister(bus: Bus, address: byte, reg: byte)
    modifies bus`trace
    ensures bus.trace == old(bus.trace) + Transaction(address << 1, Transmitter, [Send(reg)])
  {
    bus.StartCondition();
    bus.AddressDirection(address << 1, Transmitter);
    bus.Transmit(reg);
    bus.StopCondition();
  }

  /** i2c_read_no_reg: one byte received and answered with a NACK; `data` is what the slave sent. */
  method ReadNoReg(bus: Bus, address: byte) returns (data: byte)
    modifies bus`trace, bus`received
    ensures data == bus.rx(old(bus.received)) && bus.received == old(bus.received) + 1
    ensures bus.trace == old(bus.trace) + Transaction(address << 1, Receiver, [Receive(data, false)])
  {
    bus.StartCondition();
    bus.AddressDirection(address << 1, Receiver);
    data := bus.ReceiveByte(false);
    bus.StopCondition();
  }

  /**
   * i2c_read_with_reg: the register number in a write transaction, a STOP,
   * then one byte received in a new transaction and answered with a NACK.
   */
  method ReadWithReg(bus: Bus, address: byte, reg: byte) returns (data: byte)
    modifies bus`trace, bus`received
    ensures data == bus.rx(old(bus.received)) && bus.received == old(bus.received) + 1
    ensures bus.trace == old(bus.trace) + Transaction(address << 1, Transmitter, [Send(reg)])
      + Transaction(address << 1, Receiver, [Receive(data, false)])
  {
    SelectRegister(bus, address, reg);
    data := ReadNoReg(bus, address);
  }

  /**
   * The loop of the multi-byte reads: data[0..len) filled with the slave's
   * next `len` bytes, each acknowledged but the last; the rest of `data`
   * is left as it was.
   */
  method ReceiveAll(bus: Bus, data: array<byte>, len: u8)
    requires len <= data.Length
    modifies bus`trace, bus`received, data
    ensures bus.received == old(bus.received) + len
    ensures Answers(bus, old(bus.received), data[..len])
    ensures data[len..] == old(data[len..])
    ensures bus.trace == old(bus.trace) + Receives(data[..len])
  {
    for i := 0 to len
      invariant bus.received == old(bus.received) + i
      invariant Answers(bus, old(bus.received), data[..i])
      invariant data[i..] == old(data[i..])
      invariant bus.trace == old(bus.trace) + if i == len as int && i > 0 then Receives(data[..i]) else Acked(data[..i])
    {
      var b: byte;
      if i == len as int - 1 {
        b := bus.ReceiveByte(false);
      } else {
        b := bus.ReceiveByte(true);
      }
      data[i] := b;
      assert data[..i + 1] == data[..i] + [b];
      assert data[..i + 1][..i] == data[..i];
      AppendAssoc(old(bus.trace), Acked(data[..i]), [Receive(b, i < len as int - 1)]);
      assert data[i + 1..] == old(data[i + 1..]) by {
        assert data[i + 1..] == data[i..][1..];
      }
    }
  }

  /** i2c_read_multi_no_reg: `len` bytes in one read transaction; with len = 0 the transaction is empty. */
  method ReadMultiNoReg(bus: Bus, address: byte, len: u8, data: array<byte>)
    requires len <= data.Length
    modifies bus`trace, bus`received, data
    ensures bus.received == old(bus.received) + len
    ensures Answers(bus, old(bus.received), data[..len])
    ensures data[len..] == old(data[len..])
    ensures bus.trace == old(bus.trace) + Transaction(address << 1, Receiver, Receives(data[..len]))
  {
    bus.StartCondition();
    bus.AddressDirection(address << 1, Receiver);
    ghost var header := bus.trace;
    ReceiveAll(bus, data, len);
    ghost var body := Receives(data[..len]);
    bus.StopCondition();
    assert bus.trace == header + body + [Stop];
    assert header == old(bus.trace) + [Start, Address(AddressByte(address << 1, Receiver))];
  }

  /**
   * i2c_read_multi_with_reg: the register number in a write transaction,
   * a STOP, then `len` bytes in a new read transaction.
   */
  method ReadMultiWithReg(bus: Bus, address: byte, reg: byte, len: u8, data: array<byte>)
    requires len <= data.Length
    modifies bus`trace, bus`received, data
    ensures bus.received == old(bus.received) + len
    ensures Answers(bus, old(bus.received), data[..len])
    ensures data[len..] == old(data[len..])
    ensures bus.trace == old(bus.trace) + Transaction(address << 1, Transmitter, [Send(reg)])
      + Transaction(address << 1, Receiver, Receives(data[..len]))
  {
    SelectRegister(bus, address, reg);
    ReadMultiNoReg(bus, address, len, data);
  }
}
