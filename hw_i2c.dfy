/**
 * The base station's hardware I2C master, seen from the bus: START and STOP
 * conditions, the address byte and the data bytes in order. The bytes a
 * slave sends back come from a script `rx`, indexed by the number of bytes
 * received so far.
 */
module HwI2c {
  import opened Common

  datatype Direction = Transmitter | Receiver

  /**
   * The byte I2C_Send7bitAddress puts on the wire: the caller's byte with
   * bit 0 set for a read and cleared for a write (the R/W bit of section
   * 3.1.10 of the I2C-bus specification UM10204).
   */
  function AddressByte(addr: byte, dir: Direction): (w: byte)
    ensures w & 0xFE == addr & 0xFE
    ensures (w & 1 == 1) <==> dir == Receiver
  {
    if dir == Receiver then addr | 1 else addr & 0xFE
  }

  /** A 7-bit slave address shifted into place, as the callers pass it, survives on the wire. */
  lemma AddressRoundTrip(a: byte, dir: Direction)
    requires a < 0x80
    ensures AddressByte(a << 1, dir) >> 1 == a
    ensures (AddressByte(a << 1, dir) & 1 == 1) <==> dir == Receiver
  {
  }

  datatype I2cEvent =
    | Start
    | Stop
    | Address(wire: byte)
    | Send(b: byte)
    | Receive(b: byte, ack: bool)

  /** One transfer event per transmitted byte, in order. */
  function Sends(bytes: seq<byte>): (t: seq<I2cEvent>)
    ensures |t| == |bytes| && forall k :: 0 <= k < |bytes| ==> t[k] == Send(bytes[k])
  {
    seq(|bytes|, k requires 0 <= k < |bytes| => Send(bytes[k]))
  }

  lemma SendsSnoc(bytes: seq<byte>, b: byte)
    ensures Sends(bytes + [b]) == Sends(bytes) + [Send(b)]
  {
    assert Sends(bytes + [b])[|bytes|] == Send(b);
  }

  /**
   * One transaction: START, the address byte for `wire` (the 7-bit address
   * already shifted into place) in direction `dir`, the transfers, STOP.
   */
  function Transaction(wire: byte, dir: Direction, body: seq<I2cEvent>): (t: seq<I2cEvent>)
    ensures |t| == |body| + 3 && t[0] == Start && t[|t| - 1] == Stop
    ensures t[1].Address? && t[1].wire >> 1 == wire >> 1 && ((t[1].wire & 1 == 1) <==> dir == Receiver)
  {
    [Start, Address(AddressByte(wire, dir))] + body + [Stop]
  }

  /** Bytes received one after the other, each acknowledged. */
  function Acked(bytes: seq<byte>): (t: seq<I2cEvent>)
    ensures |t| == |bytes| && forall k :: 0 <= k < |bytes| ==> t[k] == Receive(bytes[k], true)
  {
    if |bytes| == 0 then [] else Acked(bytes[..|bytes| - 1]) + [Receive(bytes[|bytes| - 1], true)]
  }

  /** A multi-byte read: every byte acknowledged except the last, which ends the read with a NACK. */
  function Receives(bytes: seq<byte>): (t: seq<I2cEvent>)
    ensures |t| == |bytes|
    ensures forall k :: 0 <= k < |bytes| ==> t[k] == Receive(bytes[k], k < |bytes| - 1)
  {
    if |bytes| == 0 then [] else Acked(bytes[..|bytes| - 1]) + [Receive(bytes[|bytes| - 1], false)]
  }

  /** i2c.c: the master as the firmware drives it. */
  class Bus {
    /** Everything on the bus so far. */
    var trace: seq<I2cEvent>
    /** Number of bytes received so far; indexes the slave's script. */
    var received: nat
    /** The byte the slave sends on each read. */
    const rx: nat -> byte

    constructor (rx: nat -> byte)
      ensures this.rx == rx && trace == [] && received == 0
    {
      this.rx := rx;
      trace := [];
      received := 0;
    }

    /** i2c_start. */
    method StartCondition()
      modifies this`trace
      ensures trace == old(trace) + [Start]
    {
      trace := trace + [Start];
    }

    /** i2c_stop. */
    method StopCondition()
      modifies this`trace
      ensures trace == old(trace) + [Stop]
    {
      trace := trace + [Stop];
    }

    /** i2c_address_direction. */
    method AddressDirection(addr: byte, dir: Direction)
      modifies this`trace
      ensures trace == old(trace) + [Address(AddressByte(addr, dir))]
    {
      trace := trace + [Address(AddressByte(addr, dir))];
    }

    /** i2c_transmit. */
    method Transmit(b: byte)
      modifies this`trace
      ensures trace == old(trace) + [Send(b)]
    {
      trace := trace + [Send(b)];
    }

    /** i2c_receive_ack and i2c_receive_nack. */
    method ReceiveByte(ack: bool) returns (b: byte)
      modifies this`trace, this`received
      ensures b == rx(old(received)) && received == old(received) + 1
      ensures trace == old(trace) + [Receive(b, ack)]
    {
      b := rx(received);
      received := received + 1;
      trace := trace + [Receive(b, ack)];
    }
  }
}
