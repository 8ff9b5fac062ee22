/**
 * The SSD1306 OLED controller's I2C framing: one bus transaction per
 * command byte and one per block of display data. Each transaction starts
 * with the controller's address and a control byte that tells a command
 * stream (0x00) from a data stream (0x40).
 */
module Ssd1306I2c {
  import opened Common
  import opened HwI2c

  /** SSD1306_I2C_ADDR: the 7-bit address 0x3C already shifted into place. */
  const SSD1306_I2C_ADDR: byte := 0x78
  const CONTROL_COMMAND: byte := 0x00
  const CONTROL_DATA: byte := 0x40

  /** The transaction ssd1306_WriteCommand puts on the bus. */
  function CommandTransaction(b: byte): (t: seq<I2cEvent>)
    ensures |t| == 5
  {
    [Start, Address(SSD1306_I2C_ADDR), Send(CONTROL_COMMAND), Send(b), Stop]
  }

  /** The transaction ssd1306_WriteData puts on the bus. */
  function DataTransaction(bytes: seq<byte>): (t: seq<I2cEvent>)
    ensures |t| == |bytes| + 4
  {
    [Start, Address(SSD1306_I2C_ADDR), Send(CONTROL_DATA)] + Sends(bytes) + [Stop]
  }

  /** What the controller takes from one transaction. */
  datatype Message = Commands(bytes: seq<byte>) | Data(bytes: seq<byte>) | Malformed

  predicate AllSends(t: seq<I2cEvent>)
  {
    forall k :: 0 <= k < |t| ==> t[k].Send?
  }

  /** The bytes of a run of transmit events. */
  function SentBytes(t: seq<I2cEvent>): (d: seq<byte>)
    requires AllSends(t)
    ensures |d| == |t| && forall k :: 0 <= k < |t| ==> d[k] == t[k].b
  {
    seq(|t|, k requires 0 <= k < |t| => t[k].b)
  }

  /**
   * The controller's reading of a transaction: its own address written by
   * the master, a control byte, and the bytes up to the STOP condition.
   */
  function Receive(t: seq<I2cEvent>): Message
  {
    if |t| >= 4 && t[0] == Start && t[|t| - 1] == Stop
       && t[1] == Address(AddressByte(SSD1306_I2C_ADDR, Transmitter))
       && t[2].Send? && AllSends(t[3..|t| - 1])
    then
      if t[2].b == CONTROL_COMMAND then Commands(SentBytes(t[3..|t| - 1]))
      else if t[2].b == CONTROL_DATA then Data(SentBytes(t[3..|t| - 1]))
      else Malformed
    else Malformed
  }

  /** The controller reads each framed transaction as the command or data the driver meant. */
  lemma ReceiveFramed(b: byte, bytes: seq<byte>)
    ensures Receive(CommandTransaction(b)) == Commands([b])
    ensures Receive(DataTransaction(bytes)) == Data(bytes)
    ensures SSD1306_I2C_ADDR >> 1 == 0x3C
  {
    var t := DataTransaction(bytes);
    assert t[3..|t| - 1] == Sends(bytes);
    assert SentBytes(Sends(bytes)) == bytes;
    var c := CommandTransaction(b);
    assert c[3..|c| - 1] == [Send(b)];
  }

  /** ssd1306_WriteCommand. */
  method WriteCommand(bus: Bus, b: byte)
    modifies bus`trace
    ensures bus.trace == old(bus.trace) + CommandTransaction(b)
  {
    bus.StartCondition();
    bus.AddressDirection(SSD1306_I2C_ADDR, Transmitter);
    bus.Transmit(CONTROL_COMMAND);
    bus.Transmit(b);
    bus.StopCondition();
  }

  /** ssd1306_WriteData: `size` bytes of `buffer` from index `from`, in order. */
  method WriteData(bus: Bus, buffer: array<byte>, from: nat, size: u16)
    requires from + size <= buffer.Length
    modifies bus`trace
    ensures bus.trace == old(bus.trace) + DataTransaction(buffer[from..from + size])
  {
    bus.StartCondition();
    bus.AddressDirection(SSD1306_I2C_ADDR, Transmitter);
    bus.Transmit(CONTROL_DATA);
    ghost var t0 := bus.trace;
    var i: nat := 0;
    while i < size as nat
      invariant i <= size as nat
      invariant bus.trace == t0 + Sends(buffer[from..from + i])
    {
      bus.Transmit(buffer[from + i]);
      SendsSnoc(buffer[from..from + i], buffer[from + i]);
      assert buffer[from..from + i] + [buffer[from + i]] == buffer[from..from + i + 1];
      AppendAssoc(t0, Sends(buffer[from..from + i]), [Send(buffer[from + i])]);
      i := i + 1;
    }
    bus.StopCondition();
  }
}
