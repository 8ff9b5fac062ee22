/**
 * The AT24C32 serial EEPROM on the hardware I2C bus: one byte written or
 * read at a 16-bit memory address. Both functions first send the address
 * in a transaction of its own; the write then sends the data byte in a
 * second transaction, the read receives one byte with a NACK.
 */
module At24c32 {
  import opened Common
  import opened HwI2c

  /** AT24C_ADDR: the device's 7-bit address, A2..A0 tied high. */
  const AT24C_ADDR: byte := 0x57

  /** `tmp`: the memory address as two bytes, high byte first. */
  function WordAddress(addr: bv16): (w: seq<byte>)
    ensures |w| == 2
    ensures ((w[0] as bv16) << 8) | (w[1] as bv16) == addr
  {
    [(addr >> 8) as byte, (addr & 0xFF) as byte]
  }

  /** The transaction both functions start with: the device addressed for writing, then the memory address. */
  function AddressTransaction(addr: bv16): seq<I2cEvent>
  {
    Transaction(AT24C_ADDR << 1, Transmitter, Sends(WordAddress(addr)))
  }

  /** The address byte on the wire is 0xAE for a write and 0xAF for a read, the device's address with the R/W bit. */
  lemma DeviceOnWire()
    ensures AddressByte(AT24C_ADDR << 1, Transmitter) == 0xAE
    ensures AddressByte(AT24C_ADDR << 1, Receiver) == 0xAF
    ensures AddressByte(AT24C_ADDR << 1, Receiver) >> 1 == AT24C_ADDR
  {
  }

  /** at24c_writeByte: always reports success. */
  method WriteByte(bus: Bus, addr: bv16, data: byte) returns (ok: bool)
    modifies bus`trace
    ensures ok
    ensures bus.trace == old(bus.trace) + AddressTransaction(addr) + Transaction(AT24C_ADDR << 1, Transmitter, [Send(data)])
  {
    var tmp := WordAddress(addr);
    bus.StartCondition();
    bus.AddressDirection(AT24C_ADDR << 1, Transmitter);
    bus.Transmit(tmp[0]);
    bus.Transmit(tmp[1]);
    bus.StopCondition();
    bus.StartCondition();
    bus.AddressDirection(AT24C_ADDR << 1, Transmitter);
    bus.Transmit(data);
    bus.StopCondition();
    ok := true;
  }

  /** at24c_readByte: `data` is the byte the device sends; always reports success. */
  method ReadByte(bus: Bus, addr: bv16) returns (ok: bool, data: byte)
    modifies bus`trace, bus`received
    ensures ok && data == bus.rx(old(bus.received)) && bus.received == old(bus.received) + 1
    ensures bus.trace == old(bus.trace) + AddressTransaction(addr) + Transaction(AT24C_ADDR << 1, Receiver, [Receive(data, false)])
  {
    var tmp := WordAddress(addr);
    bus.StartCondition();
    bus.AddressDirection(AT24C_ADDR << 1, Transmitter);
    bus.Transmit(tmp[0]);
    bus.Transmit(tmp[1]);
    bus.StopCondition();
    bus.StartCondition();
    bus.AddressDirection(AT24C_ADDR << 1, Receiver);
    data := bus.ReceiveByte(false);
    bus.StopCondition();
    ok := true;
  }

  /**
   * On the wire, a write is two transactions: the first carries exactly the
   * two address bytes and ends with STOP, and the data byte is alone in the
   * second.
   */
  lemma WriteIsTwoTransactions(addr: bv16, data: byte)
    ensures var t := AddressTransaction(addr) + Transaction(AT24C_ADDR << 1, Transmitter, [Send(data)]);
      |t| == 9 && t[4] == Stop && t[5] == Start && t[2..4] == Sends(WordAddress(addr)) && t[7] == Send(data)
  {
    var a := AddressTransaction(addr);
    assert a[2..4] == Sends(WordAddress(addr));
  }
}
