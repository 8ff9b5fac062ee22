/**
 * The receive side of the base station: the receiver set-up, the start-up
 * gate on the transceiver self-test and the non-blocking receive step that
 * stores the collector temperature bytes in m_tCollector.
 */
module SwhRadio {
  import opened Common
  import opened Nrf24Lib
  import Nrf24Driver

  /**
   * The collector temperature as the pump controller reads it. The bytes
   * are stored through the unsigned union u_twoBytes but declared as the
   * signed twoBytes, so the 16-bit value, low byte first, is read as
   * int16_t.
   */
  function SignedView(b0: u8, b1: u8): (t: i16)
    ensures (t - (b0 + 0x100 * b1)) % 0x1_0000 == 0
  {
    var u := b0 + 0x100 * b1;
    if u < 0x8000 then u else u - 0x1_0000
  }

  /** The same two bytes read through u_twoBytes, as uint16_t. */
  function UnsignedView(b0: u8, b1: u8): (u: u16)
    ensures u % 0x100 == b0 && u / 0x100 == b1
  {
    b0 + 0x100 * b1
  }

  /** The low and high byte of an int16_t in two's complement. */
  function TwoBytes(t: i16): (b: (u8, u8))
    ensures (b.0 + 0x100 * b.1 - t) % 0x1_0000 == 0
  {
    var u := if t < 0 then t + 0x1_0000 else t;
    (u % 0x100, u / 0x100)
  }

  /** A temperature sent as its two bytes is read back unchanged, and only those bytes read as it. */
  lemma SignedViewRoundTrip(t: i16, b0: u8, b1: u8)
    ensures SignedView(TwoBytes(t).0, TwoBytes(t).1) == t
    ensures SignedView(b0, b1) == t <==> (b0, b1) == TwoBytes(t)
  {
  }

  /** The signed and unsigned views agree exactly when the high byte's top bit is clear. */
  lemma ViewsAgree(b0: u8, b1: u8)
    ensures SignedView(b0, b1) == UnsignedView(b0, b1) <==> b1 < 0x80
  {
  }

  /** The set-up calls of the enabled receiver variant (DEMO_RX_SINGLE). */
  function InitializeRXCalls(): (calls: seq<LibCall>)
    ensures |calls| == 11 && calls[10] == CeHigh
  {
    [DisableAA(0xFF), SetRFChannel(2), SetDataRate(Rate1Mbps), SetCRCScheme(Crc2Byte),
     SetAddrWidth(5), SetAddr(Pipe0, RX_ADDR_SWH), SetRXPipe(Pipe0, false, 5),
     SetRXPipe(Pipe2, false, 5), SetOperationalMode(ModeRx), SetPowerMode(PowerUp), CeHigh]
  }

  /** The receive path of the base station around the library stub. */
  class Receiver {
    /** The library calls made so far, in order. */
    var log: seq<LibCall>
    /** m_tCollector.b[0] and m_tCollector.b[1]. */
    var b0: u8
    var b1: u8
    /** The number of FIFO status reads and payload reads so far. */
    var fifoPolls: nat
    var payloadReads: nat
    /** Whether each FIFO status read reports the RX FIFO empty. */
    const rxEmpty: nat -> bool
    /** The payload each read delivers. */
    const packet: nat -> seq<u8>

    /** Payloads are at most 32 bytes long, the FIFO width. */
    ghost predicate Valid()
      reads this
    {
      forall i :: |packet(i)| <= 32
    }

    constructor (rxEmpty: nat -> bool, packet: nat -> seq<u8>)
      requires forall i :: |packet(i)| <= 32
      ensures Valid() && this.rxEmpty == rxEmpty && this.packet == packet
      ensures log == [] && fifoPolls == 0 && payloadReads == 0 && b0 == 0 && b1 == 0
    {
      this.rxEmpty := rxEmpty;
      this.packet := packet;
      log := [];
      b0, b1 := 0, 0;
      fifoPolls, payloadReads := 0, 0;
    }

    /** A library call with no result. */
    method Call(c: LibCall)
      modifies this`log
      ensures log == old(log) + [c]
    {
      log := log + [c];
    }

    /** nRF24_GetStatus_RXFIFO: whether the RX FIFO is empty. */
    method RxFifoStatus() returns (empty: bool)
      modifies this`log, this`fifoPolls
      ensures empty == rxEmpty(old(fifoPolls)) && fifoPolls == old(fifoPolls) + 1
      ensures log == old(log) + [GetStatusRxFifo]
    {
      empty := rxEmpty(fifoPolls);
      fifoPolls := fifoPolls + 1;
      log := log + [GetStatusRxFifo];
    }

    /** nRF24_ReadPayload: the next payload into the front of `buf`, and its length. */
    method ReadPayloadInto(buf: array<u8>) returns (len: u8)
      requires Valid() && buf.Length == 32
      modifies this`log, this`payloadReads, buf
      ensures len == |packet(old(payloadReads))| && buf[..len] == packet(old(payloadReads))
      ensures payloadReads == old(payloadReads) + 1 && log == old(log) + [ReadPayload]
    {
      var p := packet(payloadReads);
      var i := 0;
      while i < |p|
        invariant 0 <= i <= |p| && buf[..i] == p[..i]
        invariant log == old(log) && payloadReads == old(payloadReads)
      {
        buf[i] := p[i];
        i := i + 1;
      }
      len := |p|;
      payloadReads := payloadReads + 1;
      log := log + [ReadPayload];
    }

    /**
     * nRF24_Receive: when the RX FIFO holds a payload, read it, keep its
     * first two bytes as the collector temperature and clear the IRQ flags;
     * otherwise do nothing more. Bytes of a payload shorter than two come
     * from the uninitialised buffer and are not stated.
     */
    method Receive()
      requires Valid()
      modifies this
      ensures Valid() && fifoPolls == old(fifoPolls) + 1
      ensures rxEmpty(old(fifoPolls)) ==>
        log == old(log) + [GetStatusRxFifo] && payloadReads == old(payloadReads) && b0 == old(b0) && b1 == old(b1)
      ensures !rxEmpty(old(fifoPolls)) ==>
        log == old(log) + [GetStatusRxFifo, ReadPayload, ClearIRQFlags] && payloadReads == old(payloadReads) + 1
        && (|packet(old(payloadReads))| >= 1 ==> b0 == packet(old(payloadReads))[0])
        && (|packet(old(payloadReads))| >= 2 ==> b1 == packet(old(payloadReads))[1])
    {
      var payload := new u8[32];
      var empty := RxFifoStatus();
      if !empty {
        var len := ReadPayloadInto(payload);
        b0 := payload[0];
        b1 := payload[1];
        Call(ClearIRQFlags);
        assert len >= 1 ==> payload[0] == payload[..len][0];
        assert len >= 2 ==> payload[1] == payload[..len][1];
      }
    }

    /** nRF24_InitializeRX for the enabled receiver variant. */
    method InitializeRX()
      modifies this`log
      ensures log == old(log) + InitializeRXCalls()
    {
      Call(DisableAA(0xFF));
      Call(SetRFChannel(2));
      Call(SetDataRate(Rate1Mbps));
      Call(SetCRCScheme(Crc2Byte));
      Call(SetAddrWidth(5));
      Call(SetAddr(Pipe0, RX_ADDR_SWH));
      Call(SetRXPipe(Pipe0, false, 5));
      Call(SetRXPipe(Pipe2, false, 5));
      Call(SetOperationalMode(ModeRx));
      Call(SetPowerMode(PowerUp));
      Call(CeHigh);
    }

    /**
     * nRF24_Initialize: the self-test of the register-level driver gates
     * the library set-up. `halted` stands for the endless loop the source
     * enters when the test fails.
     */
    method Initialize(drv: Nrf24Driver.Driver, testAddr: array<u8>) returns (halted: bool)
      requires testAddr.Length >= 5
      modifies this`log, drv`trace, drv`transfers
      ensures halted <==>
        Nrf24Driver.Replies(drv.miso, old(drv.transfers) + 7, 5) != testAddr[..5]
      ensures halted ==> log == old(log) + [InitSpi, InitGpio, CeLow]
      ensures !halted ==> log == old(log) + [InitSpi, InitGpio, CeLow, Init] + InitializeRXCalls()
    {
      Call(InitSpi);
      Call(InitGpio);
      Call(CeLow);
      var ok := drv.Check(testAddr);
      if ok == 0 {
        return true;
      }
      Call(Init);
      InitializeRX();
      return false;
    }
  }
}
