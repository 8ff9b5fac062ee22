/**
 * The register-level nRF24L01+ driver of the base station. Every operation is
 * a sequence of SPI byte transfers grouped into chip-select (CSN) frames,
 * interleaved with chip-enable (CE) edges. The bytes the radio answers with
 * come from a script `miso`, indexed by the number of transfers so far.
 *
 * Commands and register addresses are those of the nRF24L01+ Product
 * Specification v1.0: the SPI commands of section 8.3.1 and the register map
 * of section 9.1.
 */
module Nrf24Driver {
  import opened Common
  import Lib = Nrf24Lib
  import StcRadio

  // SPI commands (section 8.3.1).
  const R_REGISTER: u8 := 0x00
  const W_REGISTER: u8 := 0x20
  const R_RX_PAYLOAD: u8 := 0x61
  const W_TX_PAYLOAD: u8 := 0xA0
  const FLUSH_TX: u8 := 0xE1
  const FLUSH_RX: u8 := 0xE2
  const R_RX_PL_WID: u8 := 0x60
  const NOP: u8 := 0xFF

  // Register map (section 9.1).
  const CONFIG: u8 := 0x00
  const EN_AA: u8 := 0x01
  const EN_RXADDR: u8 := 0x02
  const SETUP_RETR: u8 := 0x04
  const RF_CH: u8 := 0x05
  const RF_SETUP: u8 := 0x06
  const STATUS: u8 := 0x07
  const OBSERVE_TX: u8 := 0x08
  const TX_ADDR: u8 := 0x10
  const RX_PW_P0: u8 := 0x11
  const RX_PW_P1: u8 := 0x12
  const RX_PW_P2: u8 := 0x13
  const RX_PW_P3: u8 := 0x14
  const RX_PW_P4: u8 := 0x15
  const RX_PW_P5: u8 := 0x16
  const FIFO_STATUS: u8 := 0x17
  const DYNPD: u8 := 0x1C

  /** CONFIG base value: EN_CRC (bit 3) set, CRCO (bit 2) clear. */
  const NRF24_CONFIG: u8 := 0x08
  /** CONFIG with PWR_UP (bit 1) and PRIM_RX (bit 0), and with PWR_UP alone. */
  const CONFIG_RX: u8 := 0x0B
  const CONFIG_TX: u8 := 0x0A
  /** STATUS write-one-to-clear masks: RX_DR|TX_DS|MAX_RT, and RX_DR alone. */
  const CLEAR_ALL_IRQ: u8 := 0x70
  const CLEAR_RX_DR: u8 := 0x40
  /** RF_SETUP: RF_DR (bit 3) 0 for 1 Mbps, RF_PWR (bits 2:1) 3 for 0 dBm. */
  const RF_SETUP_1MBPS_0DBM: u8 := 0x06
  /** Pipes 0 and 1 set in EN_AA and EN_RXADDR. */
  const PIPES_0_1: u8 := 0x03
  /** SETUP_RETR: ARD (bits 7:4) 4, ARC (bits 3:0) 15. */
  const RETRANSMIT_SETUP: u8 := 0x4F
  const ARC_MAX: u8 := 0x0F

  /** What the host does on the SPI bus and the CE pin. */
  datatype SpiEvent = CsnLow | CsnHigh | CeLow | CeHigh | Xfer(mosi: u8)

  /** W_REGISTER | (REGISTER_MASK & addr) and R_REGISTER | (REGISTER_MASK & addr). */
  function WriteCommand(addr: u8): u8 { W_REGISTER + addr % 32 }
  function ReadCommand(addr: u8): u8 { R_REGISTER + addr % 32 }

  /** One transfer event per byte, in order. */
  function Xfers(bytes: seq<u8>): (t: seq<SpiEvent>)
    ensures |t| == |bytes| && forall k :: 0 <= k < |bytes| ==> t[k] == Xfer(bytes[k])
  {
    seq(|bytes|, k requires 0 <= k < |bytes| => Xfer(bytes[k]))
  }

  /** The bytes of one chip-select frame, between CSN low and CSN high. */
  function Frame(bytes: seq<u8>): (t: seq<SpiEvent>)
    ensures |t| == |bytes| + 2 && t[0] == CsnLow && t[|t| - 1] == CsnHigh
  {
    [CsnLow] + Xfers(bytes) + [CsnHigh]
  }

  /** The dummy bytes a read clocks out. */
  function Dummies(n: nat): (d: seq<u8>)
    ensures |d| == n && forall k :: 0 <= k < n ==> d[k] == 0xFF
  {
    seq(n, _ => 0xFF)
  }

  /** The radio's answers to the transfers numbered t, t+1, ..., t+n-1. */
  function Replies(miso: nat -> u8, t: nat, n: nat): (r: seq<u8>)
    ensures |r| == n && forall k :: 0 <= k < n ==> r[k] == miso(t + k)
  {
    seq(n, k requires 0 <= k => miso(t + k))
  }

  lemma XfersSnoc(bytes: seq<u8>, b: u8)
    ensures Xfers(bytes + [b]) == Xfers(bytes) + [Xfer(b)]
  {
    assert Xfers(bytes + [b])[|bytes|] == Xfer(b);
  }

  /** A frame, written as the events a command byte and its data produce. */
  lemma FrameEvents(t0: seq<SpiEvent>, c: u8, data: seq<u8>)
    ensures t0 + [CsnLow] + [Xfer(c)] + Xfers(data) + [CsnHigh] == t0 + Frame([c] + data)
  {
    var lhs := t0 + [CsnLow] + [Xfer(c)] + Xfers(data) + [CsnHigh];
    var rhs := t0 + Frame([c] + data);
    assert |lhs| == |rhs|;
    forall k | 0 <= k < |lhs|
      ensures lhs[k] == rhs[k]
    {
      if k > |t0| + 1 && k < |lhs| - 1 {
        assert lhs[k] == Xfers(data)[k - |t0| - 2];
        assert rhs[k] == Xfers([c] + data)[k - |t0| - 1];
      }
    }
  }

  /**
   * The radio's reading of a frame's bytes (section 8.3.1): the first byte
   * is the command, and a register command carries the register number in
   * its low five bits.
   */
  datatype Command =
    | ReadReg(reg: nat, count: nat)
    | WriteReg(reg: nat, data: seq<u8>)
    | ReadPayload(count: nat)
    | WritePayload(data: seq<u8>)
    | FlushTx
    | FlushRx
    | ReadPayloadWidth
    | Nop
    | Unknown

  function Decode(frame: seq<u8>): Command
  {
    if |frame| == 0 then Unknown
    else if frame[0] < 0x20 then ReadReg(frame[0], |frame| - 1)
    else if frame[0] < 0x40 then WriteReg(frame[0] - 0x20, frame[1..])
    else if frame[0] == R_RX_PAYLOAD then ReadPayload(|frame| - 1)
    else if frame[0] == W_TX_PAYLOAD then WritePayload(frame[1..])
    else if frame[0] == FLUSH_TX && |frame| == 1 then FlushTx
    else if frame[0] == FLUSH_RX && |frame| == 1 then FlushRx
    else if frame[0] == R_RX_PL_WID then ReadPayloadWidth
    else if frame[0] == NOP && |frame| == 1 then Nop
    else Unknown
  }

  /** The register commands the driver builds decode to the register it names. */
  lemma DecodeRegisterCommands(addr: u8, data: seq<u8>, n: nat)
    ensures Decode([WriteCommand(addr)] + data) == WriteReg(addr % 32, data)
    ensures Decode([ReadCommand(addr)] + Dummies(n)) == ReadReg(addr % 32, n)
  {
    assert ([WriteCommand(addr)] + data)[1..] == data;
  }

  /** The payload, flush and status commands decode to what the driver means by them. */
  lemma DecodeOtherCommands(data: seq<u8>, n: nat)
    ensures Decode([W_TX_PAYLOAD] + data) == WritePayload(data)
    ensures Decode([R_RX_PAYLOAD] + Dummies(n)) == ReadPayload(n)
    ensures Decode([FLUSH_TX]) == FlushTx && Decode([FLUSH_RX]) == FlushRx
    ensures Decode([NOP]) == Nop
    ensures Decode([R_RX_PL_WID, 0x00]) == ReadPayloadWidth
  {
    assert ([W_TX_PAYLOAD] + data)[1..] == data;
  }

  /** Outcome codes of NRF24LastMessageStatus. */
  datatype MessageStatus = TransmissionOk | MessageLost | StillSending

  /** NRF24LastMessageStatus on a STATUS byte: TX_DS is tested first. */
  function LastMessage(s: u8): (r: MessageStatus)
    ensures r == TransmissionOk <==> Lib.TxDs(s)
    ensures r == MessageLost <==> !Lib.TxDs(s) && Lib.MaxRt(s)
    ensures r == StillSending <==> !Lib.TxDs(s) && !Lib.MaxRt(s)
  {
    if Lib.TxDs(s) then TransmissionOk
    else if Lib.MaxRt(s) then MessageLost
    else StillSending
  }

  /** NRF24IsSending on a STATUS byte: neither TX_DS nor MAX_RT is set. */
  function Sending(s: u8): (r: bool)
    ensures r <==> LastMessage(s) == StillSending
  {
    !(Lib.TxDs(s) || Lib.MaxRt(s))
  }

  /**
   * When both TX_DS and MAX_RT are set, this driver reports the message as
   * delivered while the collector's transmit routine reports MAXRT.
   */
  lemma PrecedenceDiffers(s: u8)
    requires Lib.TxDs(s) && Lib.MaxRt(s)
    ensures LastMessage(s) == TransmissionOk && !Sending(s)
    ensures StcRadio.Classify(s) == StcRadio.TxMaxRt
  {
  }

  /** NRF24RetransmissionCount on an OBSERVE_TX byte: OBSERVE_TX & 0x0F. */
  function Retransmissions(observe: u8): (r: u8)
    ensures r <= ARC_MAX
  {
    observe % 16
  }

  /**
   * OBSERVE_TX holds PLOS_CNT in bits 7:4 and ARC_CNT in bits 3:0; the count
   * is the ARC_CNT field whatever the lost-packet count.
   */
  lemma RetransmissionsIsArcCnt(plos: nat, arc: nat)
    requires plos < 16 && arc < 16
    ensures Retransmissions(16 * plos + arc) == arc
  {
  }

  /** NRF24DataReady on STATUS and FIFO_STATUS. */
  function DataReadyFrom(status: u8, fifo: u8): (r: bool)
    ensures r <==> Lib.RxDr(status) || !Lib.RxEmpty(fifo)
  {
    if Lib.RxDr(status) then true else !Lib.RxEmpty(fifo)
  }

  /** Settings the caller hands to the driver (the nrf24_t context). */
  datatype Context = Context(payloadSize: u8, channel: u8)

  class Driver {
    /** Everything the driver has done on the bus so far. */
    var trace: seq<SpiEvent>
    /** Number of SPI transfers so far; indexes the answer script. */
    var transfers: nat
    /** NRF24PayloadSize. */
    var payloadSize: u8
    /** The byte the radio answers on each transfer. */
    const miso: nat -> u8

    constructor (miso: nat -> u8)
      ensures this.miso == miso && trace == [] && transfers == 0 && payloadSize == 0
    {
      this.miso := miso;
      trace := [];
      transfers := 0;
      payloadSize := 0;
    }

    /** A pin change on CSN or CE. */
    method Pin(e: SpiEvent)
      requires !e.Xfer?
      modifies this`trace
      ensures trace == old(trace) + [e]
    {
      trace := trace + [e];
    }

    /** spi_transfer: clocks one byte out and one in. */
    method SpiTransfer(b: u8) returns (r: u8)
      modifies this`trace, this`transfers
      ensures r == miso(old(transfers)) && transfers == old(transfers) + 1
      ensures trace == old(trace) + [Xfer(b)]
    {
      r := miso(transfers);
      transfers := transfers + 1;
      trace := trace + [Xfer(b)];
    }

    /** NRF24ReceiveBuffer: `len` dummy bytes out, the answers stored in order. */
    method ReceiveBuffer(dataIn: array<u8>, len: u8)
      requires len as int <= dataIn.Length
      modifies this`trace, this`transfers, dataIn
      ensures dataIn[..len] == Replies(miso, old(transfers), len)
      ensures dataIn[len..] == old(dataIn[len..])
      ensures trace == old(trace) + Xfers(Dummies(len)) && transfers == old(transfers) + len
    {
      ghost var t0 := transfers;
      var i: nat := 0;
      while i < len as nat
        invariant i <= len as nat && transfers == t0 + i
        invariant trace == old(trace) + Xfers(Dummies(i))
        invariant dataIn[..i] == Replies(miso, t0, i)
        invariant dataIn[len..] == old(dataIn[len..])
      {
        var r := SpiTransfer(0xFF);
        dataIn[i] := r;
        XfersSnoc(Dummies(i), 0xFF);
        assert Dummies(i) + [0xFF] == Dummies(i + 1);
        AppendAssoc(old(trace), Xfers(Dummies(i)), [Xfer(0xFF)]);
        assert dataIn[..i + 1] == dataIn[..i] + [r];
        assert Replies(miso, t0, i + 1) == Replies(miso, t0, i) + [miso(t0 + i)];
        i := i + 1;
      }
    }

    /** NRF24TransmitBuffer: the first `len` bytes of `data`, in order. */
    method TransmitBuffer(data: array<u8>, len: u8)
      requires len as int <= data.Length
      modifies this`trace, this`transfers
      ensures trace == old(trace) + Xfers(data[..len]) && transfers == old(transfers) + len
    {
      var i: nat := 0;
      while i < len as nat
        invariant i <= len as nat && transfers == old(transfers) + i
        invariant trace == old(trace) + Xfers(data[..i])
      {
        var _ := SpiTransfer(data[i]);
        XfersSnoc(data[..i], data[i]);
        assert data[..i] + [data[i]] == data[..i + 1];
        AppendAssoc(old(trace), Xfers(data[..i]), [Xfer(data[i])]);
        i := i + 1;
      }
    }

    /** NRF24ConfigRegister: one frame holding the write command and the value. */
    method ConfigRegister(addr: u8, value: u8)
      modifies this`trace, this`transfers
      ensures trace == old(trace) + Frame([WriteCommand(addr), value])
      ensures transfers == old(transfers) + 2
    {
      Pin(CsnLow);
      var _ := SpiTransfer(WriteCommand(addr));
      var _ := SpiTransfer(value);
      Pin(CsnHigh);
      assert Xfers([value]) == [Xfer(value)];
      FrameEvents(old(trace), WriteCommand(addr), [value]);
    }

    /** NRF24ReadRegister: the read command, then `len` answers into `data`. */
    method ReadRegister(addr: u8, data: array<u8>, len: u8)
      requires len as int <= data.Length
      modifies this`trace, this`transfers, data
      ensures trace == old(trace) + Frame([ReadCommand(addr)] + Dummies(len))
      ensures data[..len] == Replies(miso, old(transfers) + 1, len)
      ensures data[len..] == old(data[len..])
      ensures transfers == old(transfers) + 1 + len
    {
      Pin(CsnLow);
      var _ := SpiTransfer(ReadCommand(addr));
      ReceiveBuffer(data, len);
      Pin(CsnHigh);
      FrameEvents(old(trace), ReadCommand(addr), Dummies(len));
    }

    /** NRF24WriteRegister: the write command, then the first `len` bytes of `data`. */
    method WriteRegister(addr: u8, data: array<u8>, len: u8)
      requires len as int <= data.Length
      modifies this`trace, this`transfers
      ensures trace == old(trace) + Frame([WriteCommand(addr)] + data[..len])
      ensures transfers == old(transfers) + 1 + len
    {
      Pin(CsnLow);
      var _ := SpiTransfer(WriteCommand(addr));
      TransmitBuffer(data, len);
      Pin(CsnHigh);
      FrameEvents(old(trace), WriteCommand(addr), data[..len]);
    }

    /**
     * nRF24_Check: writes the five test bytes to TX_ADDR, reads TX_ADDR
     * back and answers 1 exactly when all five read-back bytes match.
     */
    method Check(testAddr: array<u8>) returns (ok: u8)
      requires testAddr.Length >= 5
      modifies this`trace, this`transfers
      ensures ok == 0 || ok == 1
      ensures ok == 1 <==> Replies(miso, old(transfers) + 7, 5) == testAddr[..5]
      ensures trace == old(trace) + Frame([WriteCommand(W_REGISTER + TX_ADDR)] + testAddr[..5])
        + Frame([ReadCommand(R_REGISTER + TX_ADDR)] + Dummies(5))
      ensures transfers == old(transfers) + 12
    {
      var rxbuf := new u8[5];
      WriteRegister(W_REGISTER + TX_ADDR, testAddr, 5);
      ReadRegister(R_REGISTER + TX_ADDR, rxbuf, 5);
      ghost var answers := Replies(miso, old(transfers) + 7, 5);
      assert rxbuf[..] == answers;
      var i := 0;
      while i < 5
        invariant 0 <= i <= 5
        invariant forall k :: 0 <= k < i ==> answers[k] == testAddr[k]
      {
        if rxbuf[i] != testAddr[i] {
          return 0;
        }
        i := i + 1;
      }
      return 1;
    }

    /** A frame holding a single command byte; returns the radio's answer. */
    method CommandFrame(c: u8) returns (r: u8)
      modifies this`trace, this`transfers
      ensures r == miso(old(transfers)) && transfers == old(transfers) + 1
      ensures trace == old(trace) + Frame([c])
    {
      Pin(CsnLow);
      r := SpiTransfer(c);
      Pin(CsnHigh);
      assert Frame([c]) == [CsnLow] + [Xfer(c)] + [CsnHigh];
    }

    /** NRF24GetStatus: a NOP frame; the radio answers with STATUS. */
    method GetStatus() returns (s: u8)
      modifies this`trace, this`transfers
      ensures s == miso(old(transfers)) && transfers == old(transfers) + 1
      ensures trace == old(trace) + Frame([NOP])
    {
      s := CommandFrame(NOP);
    }

    /** NRF24IsSending. */
    method IsSending() returns (r: bool)
      modifies this`trace, this`transfers
      ensures r == Sending(miso(old(transfers)))
      ensures trace == old(trace) + Frame([NOP]) && transfers == old(transfers) + 1
    {
      var status := GetStatus();
      if Lib.TxDs(status) || Lib.MaxRt(status) {
        return false;
      }
      return true;
    }

    /** NRF24LastMessageStatus. */
    method LastMessageStatus() returns (r: MessageStatus)
      modifies this`trace, this`transfers
      ensures r == LastMessage(miso(old(transfers)))
      ensures trace == old(trace) + Frame([NOP]) && transfers == old(transfers) + 1
    {
      var rv := GetStatus();
      if Lib.TxDs(rv) {
        return TransmissionOk;
      } else if Lib.MaxRt(rv) {
        return MessageLost;
      } else {
        return StillSending;
      }
    }

    /** NRF24RxFifoEmpty: reads FIFO_STATUS and tests RX_EMPTY. */
    method RxFifoEmpty() returns (empty: bool)
      modifies this`trace, this`transfers
      ensures empty <==> Lib.RxEmpty(miso(old(transfers) + 1))
      ensures trace == old(trace) + Frame([ReadCommand(FIFO_STATUS)] + Dummies(1))
      ensures transfers == old(transfers) + 2
    {
      var fifoStatus := new u8[1];
      ReadRegister(FIFO_STATUS, fifoStatus, 1);
      assert fifoStatus[0] == fifoStatus[..1][0];
      empty := Lib.RxEmpty(fifoStatus[0]);
    }

    /**
     * NRF24DataReady: true at once when RX_DR is set; only otherwise is
     * FIFO_STATUS read.
     */
    method DataReady() returns (ready: bool)
      modifies this`trace, this`transfers
      ensures var status := miso(old(transfers));
        if Lib.RxDr(status) then
          ready && trace == old(trace) + Frame([NOP]) && transfers == old(transfers) + 1
        else
          ready == DataReadyFrom(status, miso(old(transfers) + 2))
          && trace == old(trace) + Frame([NOP]) + Frame([ReadCommand(FIFO_STATUS)] + Dummies(1))
          && transfers == old(transfers) + 3
    {
      var status := GetStatus();
      if Lib.RxDr(status) {
        return true;
      }
      var empty := RxFifoEmpty();
      return !empty;
    }

    /** NRF24RetransmissionCount: reads OBSERVE_TX and keeps ARC_CNT. */
    method RetransmissionCount() returns (rv: u8)
      modifies this`trace, this`transfers
      ensures rv == Retransmissions(miso(old(transfers) + 1))
      ensures trace == old(trace) + Frame([ReadCommand(OBSERVE_TX)] + Dummies(1))
      ensures transfers == old(transfers) + 2
    {
      var buf := new u8[1];
      ReadRegister(OBSERVE_TX, buf, 1);
      assert buf[0] == buf[..1][0];
      rv := buf[0] % 16;
    }

    /** NRF24PowerUpRx: flush RX, clear the IRQ flags, then CONFIG for RX with CE low. */
    method PowerUpRx()
      modifies this`trace, this`transfers
      ensures trace == old(trace) + Frame([FLUSH_RX]) + Frame([WriteCommand(STATUS), CLEAR_ALL_IRQ])
        + [CeLow] + Frame([WriteCommand(CONFIG), CONFIG_RX]) + [CeHigh]
      ensures transfers == old(transfers) + 5
    {
      var _ := CommandFrame(FLUSH_RX);
      ConfigRegister(STATUS, CLEAR_ALL_IRQ);
      Pin(CeLow);
      ConfigRegister(CONFIG, CONFIG_RX);
      Pin(CeHigh);
    }

    /** NRF24PowerUpTx: clear the IRQ flags, then CONFIG for TX. */
    method PowerUpTx()
      modifies this`trace, this`transfers
      ensures trace == old(trace) + Frame([WriteCommand(STATUS), CLEAR_ALL_IRQ])
        + Frame([WriteCommand(CONFIG), CONFIG_TX])
      ensures transfers == old(transfers) + 4
    {
      ConfigRegister(STATUS, CLEAR_ALL_IRQ);
      ConfigRegister(CONFIG, CONFIG_TX);
    }

    /** NRF24PowerDown: CE low, then CONFIG without PWR_UP. */
    method PowerDown()
      modifies this`trace, this`transfers
      ensures trace == old(trace) + [CeLow] + Frame([WriteCommand(CONFIG), NRF24_CONFIG])
      ensures transfers == old(transfers) + 2
    {
      Pin(CeLow);
      ConfigRegister(CONFIG, NRF24_CONFIG);
    }

    /**
     * NRF24Send: standby, power up for TX, flush the TX FIFO, write the
     * payload of PayloadSize bytes, and pulse CE high to start sending.
     */
    method Send(ctx: Context, txData: array<u8>)
      requires ctx.payloadSize as int <= txData.Length
      modifies this`trace, this`transfers
      ensures trace == old(trace) + [CeLow] + Frame([WriteCommand(STATUS), CLEAR_ALL_IRQ])
        + Frame([WriteCommand(CONFIG), CONFIG_TX]) + Frame([FLUSH_TX])
        + Frame([W_TX_PAYLOAD] + txData[..ctx.payloadSize]) + [CeHigh]
      ensures transfers == old(transfers) + 6 + ctx.payloadSize
    {
      Pin(CeLow);
      ghost var t0 := trace;
      PowerUpTx();
      AppendAssoc(t0, Frame([WriteCommand(STATUS), CLEAR_ALL_IRQ]), Frame([WriteCommand(CONFIG), CONFIG_TX]));
      var _ := CommandFrame(FLUSH_TX);
      ghost var t2 := trace;
      Pin(CsnLow);
      var _ := SpiTransfer(W_TX_PAYLOAD);
      TransmitBuffer(txData, ctx.payloadSize);
      Pin(CsnHigh);
      FrameEvents(t2, W_TX_PAYLOAD, txData[..ctx.payloadSize]);
      Pin(CeHigh);
    }

    /**
     * NRF24GetData: R_RX_PAYLOAD and PayloadSize answers into `rxData` in
     * one frame, then STATUS <- RX_DR to clear the data-ready flag.
     */
    method GetData(ctx: Context, rxData: array<u8>)
      requires ctx.payloadSize as int <= rxData.Length
      modifies this`trace, this`transfers, rxData
      ensures rxData[..ctx.payloadSize] == Replies(miso, old(transfers) + 1, ctx.payloadSize)
      ensures rxData[ctx.payloadSize..] == old(rxData[ctx.payloadSize..])
      ensures trace == old(trace) + Frame([R_RX_PAYLOAD] + Dummies(ctx.payloadSize))
        + Frame([WriteCommand(STATUS), CLEAR_RX_DR])
      ensures transfers == old(transfers) + 3 + ctx.payloadSize
    {
      Pin(CsnLow);
      var _ := SpiTransfer(R_RX_PAYLOAD);
      ReceiveBuffer(rxData, ctx.payloadSize);
      Pin(CsnHigh);
      FrameEvents(old(trace), R_RX_PAYLOAD, Dummies(ctx.payloadSize));
      ConfigRegister(STATUS, CLEAR_RX_DR);
    }

    /** NRF24TxPayloadLength. */
    method TxPayloadLength() returns (n: u8)
      ensures n == payloadSize
    {
      n := payloadSize;
    }

    /**
     * nRF24_Config: stores the payload size, programs the channel, the
     * pipe widths (pipe 1 carries the payload, every other pipe 0), rate
     * and power, CRC, auto-acknowledge and receive addresses on pipes 0 and
     * 1, retransmission, static payloads, and ends listening.
     */
    method Config(ctx: Context)
      modifies this
      ensures payloadSize == ctx.payloadSize
      ensures trace == old(trace)
        + Frame([WriteCommand(RF_CH), ctx.channel])
        + Frame([WriteCommand(RX_PW_P0), 0x00])
        + Frame([WriteCommand(RX_PW_P1), ctx.payloadSize])
        + Frame([WriteCommand(RX_PW_P2), 0x00])
        + Frame([WriteCommand(RX_PW_P3), 0x00])
        + Frame([WriteCommand(RX_PW_P4), 0x00])
        + Frame([WriteCommand(RX_PW_P5), 0x00])
        + Frame([WriteCommand(RF_SETUP), RF_SETUP_1MBPS_0DBM])
        + Frame([WriteCommand(CONFIG), NRF24_CONFIG])
        + Frame([WriteCommand(EN_AA), PIPES_0_1])
        + Frame([WriteCommand(EN_RXADDR), PIPES_0_1])
        + Frame([WriteCommand(SETUP_RETR), RETRANSMIT_SETUP])
        + Frame([WriteCommand(DYNPD), 0x00])
        + Frame([FLUSH_RX]) + Frame([WriteCommand(STATUS), CLEAR_ALL_IRQ])
        + [CeLow] + Frame([WriteCommand(CONFIG), CONFIG_RX]) + [CeHigh]
      ensures transfers == old(transfers) + 31
    {
      payloadSize := ctx.payloadSize;
      ConfigRegister(RF_CH, ctx.channel);
      ConfigRegister(RX_PW_P0, 0x00);
      ConfigRegister(RX_PW_P1, ctx.payloadSize);
      ConfigRegister(RX_PW_P2, 0x00);
      ConfigRegister(RX_PW_P3, 0x00);
      ConfigRegister(RX_PW_P4, 0x00);
      ConfigRegister(RX_PW_P5, 0x00);
      ConfigRegister(RF_SETUP, RF_SETUP_1MBPS_0DBM);
      ConfigRegister(CONFIG, NRF24_CONFIG);
      ConfigRegister(EN_AA, PIPES_0_1);
      ConfigRegister(EN_RXADDR, PIPES_0_1);
      ConfigRegister(SETUP_RETR, RETRANSMIT_SETUP);
      ConfigRegister(DYNPD, 0x00);
      PowerUpRx();
    }
  }
}
