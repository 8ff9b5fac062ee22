/**
 * The calls both firmwares make into the nRF24L01+ support library (CE pin,
 * payload, IRQ and FIFO helpers, and the setters the demo set-up routines
 * use). The library itself is not part of this model: a call is recorded by
 * name and arguments.
 */
module Nrf24Lib {
  import opened Common

  datatype DataRate = Rate250kbps | Rate1Mbps | Rate2Mbps
  datatype CrcScheme = CrcOff | Crc1Byte | Crc2Byte
  datatype Pipe = Pipe0 | Pipe1 | Pipe2 | Pipe3 | Pipe4 | Pipe5 | PipeTx
  datatype OpMode = ModeTx | ModeRx
  datatype PowerMode = PowerDown | PowerUp
  datatype TxPower = TxPowerMinus18dBm | TxPowerMinus12dBm | TxPowerMinus6dBm | TxPower0dBm

  /** One call into the library, or one pin or set-up call of the low level. */
  datatype LibCall =
    | InitSpi
    | InitGpio
    | CeLow
    | CeHigh
    | Check
    | Init
    | DisableAA(pipes: u8)
    | SetRFChannel(channel: u8)
    | SetDataRate(rate: DataRate)
    | SetCRCScheme(scheme: CrcScheme)
    | SetAddrWidth(width: u8)
    | SetAddr(pipe: Pipe, addr: seq<u8>)
    | SetRXPipe(pipe: Pipe, autoAck: bool, width: u8)
    | SetTXPower(power: TxPower)
    | SetOperationalMode(mode: OpMode)
    | SetPowerMode(powerMode: PowerMode)
    | ClearIRQFlags
    | FlushTX
    | WritePayload(payload: seq<u8>)
    | GetStatus
    | GetStatusRxFifo
    | ReadPayload

  /**
   * Bits of the STATUS and FIFO_STATUS registers (nRF24L01+ Product
   * Specification v1.0, section 9.1): RX_DR is STATUS bit 6 (0x40), TX_DS
   * bit 5 (0x20), MAX_RT bit 4 (0x10); RX_EMPTY is FIFO_STATUS bit 0.
   */
  predicate RxDr(s: u8) { BitSet(s, 6) }
  predicate TxDs(s: u8) { BitSet(s, 5) }
  predicate MaxRt(s: u8) { BitSet(s, 4) }
  predicate RxEmpty(f: u8) { BitSet(f, 0) }

  /** Bit k of v: set when v / 2^k is odd. */
  predicate BitSet(v: nat, k: nat)
  {
    if k == 0 then v % 2 == 1 else BitSet(v / 2, k - 1)
  }

  /** The 3-byte transmit address of the collector node. */
  const TX_ADDR_STC: seq<u8> := [0xE7, 0x1C, 0xE3]
  /** The 5-byte pipe 0 address of the base station. */
  const RX_ADDR_SWH: seq<u8> := [0xC0, 0xE7, 0xE7, 0xE7, 0xE7]
}
