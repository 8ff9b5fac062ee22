/**
 * The collector node's radio transmitter: one packet send with a bounded
 * poll of the status register, the 5-byte counter payload, and the start-up
 * gate that stops when the transceiver does not answer the self-test.
 *
 * The support library is a stub: every call is appended to `log`, and the
 * k-th status read (counting from 0 over the life of the object) returns
 * `status(k)`.
 */
module StcRadio {
  import opened Common
  import opened Nrf24Lib

  /** nRF24_WAIT_TIMEOUT, the initial value of the poll budget. */
  const WAIT_TIMEOUT: u32 := 0x000F_FFFF

  const PAYLOAD_LEN: nat := 5

  datatype TxResult = TxError | TxSuccess | TxTimeout | TxMaxRt

  /** `status & (TX_DS | MAX_RT)` is nonzero: a status byte that ends the poll loop. */
  predicate Flagged(s: u8)
  {
    TxDs(s) || MaxRt(s)
  }

  /** No status read lo .. hi-1 shows a flag. */
  predicate Quiet(status: nat -> u8, lo: nat, hi: nat)
  {
    forall i :: lo <= i < hi ==> !Flagged(status(i))
  }

  /** The offset of the first flagged status among reads from .. from+count-1. */
  function FirstFlag(status: nat -> u8, from: nat, count: nat): (r: Option<nat>)
    ensures r.Some? ==> r.value < count && Flagged(status(from + r.value)) && Quiet(status, from, from + r.value)
    ensures r.None? <==> Quiet(status, from, from + count)
    decreases count
  {
    if count == 0 then None
    else if Flagged(status(from)) then Some(0)
    else match FirstFlag(status, from + 1, count - 1)
      case None => None
      case Some(k) => Some(k + 1)
  }

  /** The classification made after the flags were cleared: MAX_RT before TX_DS. */
  function Classify(s: u8): (r: TxResult)
    ensures r == TxMaxRt <==> MaxRt(s)
    ensures r == TxSuccess <==> !MaxRt(s) && TxDs(s)
    ensures r == TxError <==> !Flagged(s)
  {
    if MaxRt(s) then TxMaxRt
    else if TxDs(s) then TxSuccess
    else TxError
  }

  function Polls(n: nat): (r: seq<LibCall>)
    ensures |r| == n && forall i :: 0 <= i < n ==> r[i] == GetStatus
  {
    seq(n, _ => GetStatus)
  }

  /** What one send does: its result, the calls it makes and the status reads it uses. */
  datatype TxRun = TxRun(result: TxResult, calls: seq<LibCall>, polls: nat)

  /**
   * nRF24_TransmitPacket as written, for a poll budget `wait` that starts at
   * `budget` (WAIT_TIMEOUT in the source). The test `wait--` runs after every
   * poll that shows no flag, so at most budget + 1 polls are made: a flag on
   * poll k (counting from 0) leaves wait = budget - k, and a budget spent
   * without a flag wraps wait to 0xFFFFFFFF. So TIMEOUT is reported only when
   * the flag first shows on the very last poll, and an exhausted budget is
   * reported as ERROR.
   */
  function TransmitRun(status: nat -> u8, p0: nat, payload: seq<u8>, budget: u32): TxRun
  {
    var (result, n) := match FirstFlag(status, p0, budget + 1)
      case None => (TxError, budget + 1)
      case Some(k) => (if k == budget then TxTimeout else Classify(status(p0 + k)), k + 1);
    TxRun(result, Start(payload) + Polls(n) + Tail(result), n)
  }

  /** The calls before the poll loop: CE low, the payload, CE high. */
  function Start(payload: seq<u8>): seq<LibCall>
  {
    [CeLow, WritePayload(payload), CeHigh]
  }

  /**
   * The calls after the poll loop for each outcome: CE low, then, except on
   * TIMEOUT, the IRQ flags cleared, and on ERROR the TX FIFO flushed.
   */
  function Tail(result: TxResult): seq<LibCall>
  {
    match result
    case TxTimeout => [CeLow]
    case TxError => [CeLow, ClearIRQFlags, FlushTX]
    case _ => [CeLow, ClearIRQFlags]
  }

  /**
   * The calls after the corrected poll loop: CE low and the IRQ flags
   * cleared in all outcomes, TIMEOUT included, and the TX FIFO flushed on
   * ERROR.
   */
  function TailIntended(result: TxResult): seq<LibCall>
  {
    match result
    case TxError => [CeLow, ClearIRQFlags, FlushTX]
    case _ => [CeLow, ClearIRQFlags]
  }

  /**
   * What the poll loop as written leaves (n status reads, the last read s,
   * the budget counter wait) decides the run: n polls, and TIMEOUT when
   * wait is 0, otherwise the classification of s.
   */
  lemma AsWrittenOutcome(status: nat -> u8, p0: nat, p1: nat, payload: seq<u8>, budget: u32, s: u8, wait: u32)
    requires p1 > p0 && Quiet(status, p0, p1 - 1) && s == status(p1 - 1)
    requires Flagged(s) ==> FirstFlag(status, p0, budget + 1) == Some(p1 - 1 - p0)
    requires Flagged(s) ==> wait == budget - (p1 - 1 - p0)
    requires !Flagged(s) ==> Quiet(status, p0, p1) && p1 - p0 == budget + 1 && wait == 0xFFFF_FFFF
    ensures var r := TransmitRun(status, p0, payload, budget);
      r.polls == p1 - p0 && r.result == (if wait == 0 then TxTimeout else Classify(s))
      && r.calls == Start(payload) + Polls(p1 - p0) + Tail(r.result)
  {
  }

  /** The same for the corrected loop, which leaves no budget counter to test. */
  lemma IntendedOutcome(status: nat -> u8, p0: nat, p1: nat, payload: seq<u8>, budget: u32, s: u8)
    requires p1 > p0 && Quiet(status, p0, p1 - 1) && s == status(p1 - 1)
    requires Flagged(s) ==> FirstFlag(status, p0, budget + 1) == Some(p1 - 1 - p0)
    requires !Flagged(s) ==> Quiet(status, p0, p1) && p1 - p0 == budget + 1
    ensures var r := TransmitRunIntended(status, p0, payload, budget);
      r.polls == p1 - p0 && r.result == (if Flagged(s) then Classify(s) else TxTimeout)
      && r.calls == Start(payload) + Polls(p1 - p0) + TailIntended(r.result)
  {
  }

  /** The count of one call in a call sequence. */
  function Occurrences(calls: seq<LibCall>, c: LibCall): (n: nat)
    ensures n <= |calls|
    ensures n == 0 <==> c !in calls
  {
    if calls == [] then 0
    else (if calls[0] == c then 1 else 0) + Occurrences(calls[1..], c)
  }

  lemma {:induction false} OccurrencesAppend(a: seq<LibCall>, b: seq<LibCall>, c: LibCall)
    ensures Occurrences(a + b, c) == Occurrences(a, c) + Occurrences(b, c)
    decreases |a|
  {
    if a != [] {
      assert (a + b)[1..] == a[1..] + b;
      OccurrencesAppend(a[1..], b, c);
    } else {
      assert a + b == b;
    }
  }



  /**
   * The poll loop reads the status at least once and at most budget + 1
   * times, and stops at the first read that shows TX_DS or MAX_RT.
   */
  lemma PollBound(status: nat -> u8, p0: nat, payload: seq<u8>, budget: u32)
    ensures var r := TransmitRun(status, p0, payload, budget);
      1 <= r.polls <= budget + 1
      && Quiet(status, p0, p0 + r.polls - 1)
      && (r.polls <= budget ==> Flagged(status(p0 + r.polls - 1)))
  {
  }

  /**
   * CE goes low before the payload is written and high right after it, the
   * status reads come next, then CE low, and no later call touches CE.
   */
  lemma CeSequence(status: nat -> u8, p0: nat, payload: seq<u8>, budget: u32)
    ensures var r := TransmitRun(status, p0, payload, budget);
      |r.calls| >= 4 + r.polls
      && r.calls[..3] == [CeLow, WritePayload(payload), CeHigh]
      && r.calls[3..3 + r.polls] == Polls(r.polls)
      && r.calls[3 + r.polls] == CeLow
      && forall i :: 3 + r.polls < i < |r.calls| ==> r.calls[i] != CeHigh && r.calls[i] != CeLow
  {
  }

  /**
   * TIMEOUT is returned exactly when the first flag shows on the last poll,
   * and that path never clears the IRQ flags.
   */
  lemma TimeoutIff(status: nat -> u8, p0: nat, payload: seq<u8>, budget: u32)
    ensures var r := TransmitRun(status, p0, payload, budget);
      (r.result == TxTimeout <==> FirstFlag(status, p0, budget + 1) == Some(budget))
      && (r.result == TxTimeout ==> ClearIRQFlags !in r.calls)
  {
  }

  /**
   * ERROR is returned exactly when no poll shows a flag; the IRQ flags are
   * then cleared and the TX FIFO flushed, in that order, after CE low.
   */
  lemma ErrorIff(status: nat -> u8, p0: nat, payload: seq<u8>, budget: u32)
    ensures var r := TransmitRun(status, p0, payload, budget);
      (r.result == TxError <==> Quiet(status, p0, p0 + budget + 1))
      && (r.result == TxError ==> r.calls[|r.calls| - 3..] == [CeLow, ClearIRQFlags, FlushTX])
  {
  }

  /**
   * Off the timeout path the IRQ flags are cleared exactly once; the TX FIFO
   * is flushed only on the ERROR path.
   */
  lemma ClearOnceOffTimeout(status: nat -> u8, p0: nat, payload: seq<u8>, budget: u32)
    ensures var r := TransmitRun(status, p0, payload, budget);
      (r.result != TxTimeout ==> Occurrences(r.calls, ClearIRQFlags) == 1)
      && (FlushTX in r.calls <==> r.result == TxError)
  {
    var r := TransmitRun(status, p0, payload, budget);
    var head := Start(payload) + Polls(r.polls);
    assert ClearIRQFlags !in head && FlushTX !in head;
    OccurrencesAppend(head, Tail(r.result), ClearIRQFlags);
  }

  /** A final status with both flags set is reported as MAXRT, not SUCCESS. */
  lemma MaxRtPrecedence(status: nat -> u8, p0: nat, payload: seq<u8>, budget: u32, k: nat)
    requires FirstFlag(status, p0, budget + 1) == Some(k) && k < budget
    requires MaxRt(status(p0 + k))
    ensures TransmitRun(status, p0, payload, budget).result == TxMaxRt
  {
  }

  /**
   * The send with the outcome test corrected: an exhausted budget is a
   * TIMEOUT, and a flag on any poll, the last one included, is classified.
   * The number of polls is the source's, budget + 1, and the IRQ flags are
   * cleared on every outcome.
   */
  function TransmitRunIntended(status: nat -> u8, p0: nat, payload: seq<u8>, budget: u32): TxRun
  {
    var (result, n) := match FirstFlag(status, p0, budget + 1)
      case None => (TxTimeout, budget + 1)
      case Some(k) => (Classify(status(p0 + k)), k + 1);
    TxRun(result, Start(payload) + Polls(n) + TailIntended(result), n)
  }

  /**
   * The corrected send reports TIMEOUT exactly when no poll shows a flag,
   * never reports ERROR, and otherwise reports MAXRT exactly when the first
   * flagged status has MAX_RT set. In every outcome the IRQ flags are
   * cleared exactly once and the TX FIFO is not flushed.
   */
  lemma IntendedTimeoutIff(status: nat -> u8, p0: nat, payload: seq<u8>, budget: u32)
    ensures var r := TransmitRunIntended(status, p0, payload, budget);
      (r.result == TxTimeout <==> Quiet(status, p0, p0 + budget + 1))
      && r.result != TxError
      && (r.result == TxMaxRt <==> exists k :: FirstFlag(status, p0, budget + 1) == Some(k) && MaxRt(status(p0 + k)))
    ensures var r := TransmitRunIntended(status, p0, payload, budget);
      Occurrences(r.calls, ClearIRQFlags) == 1 && FlushTX !in r.calls
  {
    var r := TransmitRunIntended(status, p0, payload, budget);
    IntendedCallsClearOnce(payload, r.polls, r.result);
  }

  /** A corrected run that does not end in ERROR clears the IRQ flags once and never flushes. */
  lemma IntendedCallsClearOnce(payload: seq<u8>, n: nat, result: TxResult)
    requires result != TxError
    ensures var calls := Start(payload) + Polls(n) + TailIntended(result);
      Occurrences(calls, ClearIRQFlags) == 1 && FlushTX !in calls
  {
    var head := Start(payload) + Polls(n);
    assert ClearIRQFlags !in head && FlushTX !in head;
    OccurrencesAppend(head, TailIntended(result), ClearIRQFlags);
  }

  /**
   * The two disagree where the finding says: a transceiver that never raises
   * a flag gives ERROR as written and TIMEOUT as intended, and one whose
   * TX_DS first shows on the last poll gives TIMEOUT as written although the
   * packet went out.
   */
  lemma WrittenVersusIntended(p0: nat, payload: seq<u8>, budget: u32)
    ensures TransmitRun(_ => 0x00, p0, payload, budget).result == TxError
    ensures TransmitRunIntended(_ => 0x00, p0, payload, budget).result == TxTimeout
    ensures var late := (n: nat) => if n == p0 + budget then 0x20 else 0x00;
      TransmitRun(late, p0, payload, budget).result == TxTimeout
      && TransmitRunIntended(late, p0, payload, budget).result == TxSuccess
  {
    var quiet: nat -> u8 := _ => 0x00;
    assert Quiet(quiet, p0, p0 + budget + 1);
    var late: nat -> u8 := (n: nat) => if n == p0 + budget then 0x20 else 0x00;
    var f := FirstFlag(late, p0, budget + 1);
    assert Flagged(late(p0 + budget));
    assert f == Some(budget) by {
      if f.Some? {
        assert Flagged(late(p0 + f.value));
      }
    }
  }

  /** The value of the global counter j after it has been incremented from j0 by d (d < 256). */
  function Wrapped(j0: u8, d: nat): (v: u8)
    requires d < 256
    ensures v == (j0 + d) % 256
  {
    if j0 + d < 256 then j0 + d else j0 + d - 256
  }

  /** The bytes nRF24_Transmit sends when the global counter holds j0. */
  function CounterPayload(j0: u8): (p: seq<u8>)
    ensures |p| == PAYLOAD_LEN
  {
    seq(PAYLOAD_LEN, i requires 0 <= i < PAYLOAD_LEN => Wrapped(j0, i))
  }

  /**
   * Successive payloads continue the count: the first byte is the counter,
   * each byte is one more than the previous, wrapping 255 to 0, and the
   * next call's first byte follows this call's last.
   */
  lemma CounterContinues(j0: u8)
    ensures CounterPayload(j0)[0] == j0
    ensures forall i :: 0 < i < PAYLOAD_LEN ==> CounterPayload(j0)[i] == Wrapped(CounterPayload(j0)[i - 1], 1)
    ensures CounterPayload(Wrapped(j0, PAYLOAD_LEN))[0] == Wrapped(CounterPayload(j0)[PAYLOAD_LEN - 1], 1)
  {
  }

  /** The calls nRF24_InitializeTX makes. */
  function InitializeTXCalls(): (calls: seq<LibCall>)
    ensures |calls| == 10
  {
    [DisableAA(0xFF), SetRFChannel(115), SetDataRate(Rate250kbps), SetCRCScheme(Crc2Byte),
     SetAddrWidth(3), SetAddr(PipeTx, TX_ADDR_STC), SetTXPower(TxPower0dBm),
     SetOperationalMode(ModeTx), ClearIRQFlags, SetPowerMode(PowerUp)]
  }

  /** The transmit path of the collector node around the library stub. */
  class Transmitter {
    /** The library calls made so far, in order. */
    var log: seq<LibCall>
    /** The number of status reads made so far. */
    var polls: nat
    /** The global payload counter `j`. */
    var j: u32
    /** The status byte returned by each read. */
    const status: nat -> u8
    /** Whether the library self-test finds the transceiver. */
    const checkPasses: bool

    predicate Valid()
      reads this
    {
      j <= 0xFF
    }

    constructor (status: nat -> u8, checkPasses: bool)
      ensures Valid() && log == [] && polls == 0 && j == 0
      ensures this.status == status && this.checkPasses == checkPasses
    {
      this.status := status;
      this.checkPasses := checkPasses;
      log := [];
      polls := 0;
      j := 0;
    }

    /** A library call with no result. */
    method Call(c: LibCall)
      modifies this
      ensures log == old(log) + [c] && polls == old(polls) && j == old(j)
    {
      log := log + [c];
    }

    /** nRF24_GetStatus: the next scripted status byte. */
    method ReadStatus() returns (s: u8)
      modifies this
      ensures s == status(old(polls)) && polls == old(polls) + 1
      ensures log == old(log) + [GetStatus] && j == old(j)
    {
      s := status(polls);
      polls := polls + 1;
      log := log + [GetStatus];
    }

    /** The poll loop of nRF24_TransmitPacket as written, from a budget of `wait`. */
    method PollAsWritten(budget: u32) returns (s: u8, wait: u32)
      modifies this
      ensures polls > old(polls) && log == old(log) + Polls(polls - old(polls)) && j == old(j)
      ensures Quiet(status, old(polls), polls - 1) && s == status(polls - 1)
      ensures Flagged(s) ==> FirstFlag(status, old(polls), budget + 1) == Some(polls - 1 - old(polls))
      ensures Flagged(s) ==> wait == budget - (polls - 1 - old(polls))
      ensures !Flagged(s) ==> Quiet(status, old(polls), polls) && polls - old(polls) == budget + 1 && wait == 0xFFFF_FFFF
    {
      ghost var p0 := polls;
      wait := budget;
      while true
        invariant wait <= budget && polls == p0 + (budget - wait)
        invariant Quiet(status, p0, polls)
        invariant log == old(log) + Polls(polls - p0) && j == old(j)
        decreases wait
      {
        s := ReadStatus();
        assert log == old(log) + Polls(polls - p0);
        if Flagged(s) {
          break;
        }
        var before := wait;
        wait := Sub32(wait, 1);
        if before == 0 {
          break;
        }
      }
    }

    /**
     * nRF24_TransmitPacket, with the payload length taken as |payload|:
     * TransmitPacketWith for the source's budget.
     */
    method TransmitPacket(payload: seq<u8>) returns (res: TxResult)
      requires |payload| <= 0xFF
      modifies this
      ensures var r := TransmitRun(status, old(polls), payload, WAIT_TIMEOUT);
        res == r.result && log == old(log) + r.calls && polls == old(polls) + r.polls
      ensures j == old(j)
    {
      res := TransmitPacketWith(payload, WAIT_TIMEOUT);
    }

    /** The body of nRF24_TransmitPacket for a poll budget starting at `budget`. */
    method TransmitPacketWith(payload: seq<u8>, budget: u32) returns (res: TxResult)
      requires |payload| <= 0xFF
      modifies this
      ensures var r := TransmitRun(status, old(polls), payload, budget);
        res == r.result && log == old(log) + r.calls && polls == old(polls) + r.polls
      ensures j == old(j)
    {
      ghost var p0 := polls;
      ghost var log0 := log;
      Call(CeLow);
      Call(WritePayload(payload));
      Call(CeHigh);
      assert log == log0 + Start(payload);
      var s, wait := PollAsWritten(budget);
      AsWrittenOutcome(status, p0, polls, payload, budget, s, wait);
      ghost var n := polls - p0;
      AppendAssoc(log0, Start(payload), Polls(n));
      res := Conclude(s, wait);
      AppendAssoc(log0, Start(payload) + Polls(n), Tail(res));
    }

    /**
     * What nRF24_TransmitPacket does after its poll loop: CE low, TIMEOUT
     * when the budget counter is 0, otherwise clear the IRQ flags and report
     * MAXRT, SUCCESS, or flush the TX FIFO and report ERROR.
     */
    method Conclude(s: u8, wait: u32) returns (res: TxResult)
      modifies this
      ensures res == (if wait == 0 then TxTimeout else Classify(s))
      ensures log == old(log) + Tail(res) && polls == old(polls) && j == old(j)
    {
      Call(CeLow);
      if wait == 0 {
        return TxTimeout;
      }
      Call(ClearIRQFlags);
      if MaxRt(s) {
        return TxMaxRt;
      }
      if TxDs(s) {
        return TxSuccess;
      }
      Call(FlushTX);
      return TxError;
    }

    /** The poll loop with the corrected exit: it stops on a flag or after budget + 1 polls. */
    method PollIntended(budget: u32) returns (s: u8)
      modifies this
      ensures polls > old(polls) && log == old(log) + Polls(polls - old(polls)) && j == old(j)
      ensures Quiet(status, old(polls), polls - 1) && s == status(polls - 1)
      ensures Flagged(s) ==> FirstFlag(status, old(polls), budget + 1) == Some(polls - 1 - old(polls))
      ensures !Flagged(s) ==> Quiet(status, old(polls), polls) && polls - old(polls) == budget + 1
    {
      ghost var p0 := polls;
      var wait: u32 := budget;
      while true
        invariant wait <= budget && polls == p0 + (budget - wait)
        invariant Quiet(status, p0, polls)
        invariant log == old(log) + Polls(polls - p0) && j == old(j)
        decreases wait
      {
        s := ReadStatus();
        assert log == old(log) + Polls(polls - p0);
        if Flagged(s) || wait == 0 {
          break;
        }
        wait := wait - 1;
      }
    }

    /** The same send with the corrected outcome test (see TransmitRunIntended). */
    method TransmitPacketIntended(payload: seq<u8>, budget: u32) returns (res: TxResult)
      requires |payload| <= 0xFF
      modifies this
      ensures var r := TransmitRunIntended(status, old(polls), payload, budget);
        res == r.result && log == old(log) + r.calls && polls == old(polls) + r.polls
      ensures j == old(j)
    {
      ghost var p0 := polls;
      ghost var log0 := log;
      Call(CeLow);
      Call(WritePayload(payload));
      Call(CeHigh);
      assert log == log0 + Start(payload);
      var s := PollIntended(budget);
      IntendedOutcome(status, p0, polls, payload, budget, s);
      ghost var n := polls - p0;
      AppendAssoc(log0, Start(payload), Polls(n));
      res := ConcludeIntended(s);
      AppendAssoc(log0, Start(payload) + Polls(n), TailIntended(res));
    }

    /**
     * The corrected conclusion: TIMEOUT exactly when the last status shows
     * no flag, with the IRQ flags cleared on every outcome.
     */
    method ConcludeIntended(s: u8) returns (res: TxResult)
      modifies this
      ensures res == (if Flagged(s) then Classify(s) else TxTimeout)
      ensures log == old(log) + TailIntended(res) && polls == old(polls) && j == old(j)
    {
      Call(CeLow);
      Call(ClearIRQFlags);
      if !Flagged(s) {
        return TxTimeout;
      }
      if MaxRt(s) {
        return TxMaxRt;
      }
      return TxSuccess;
    }

    /** nRF24_InitializeTX: the transmitter set-up calls, in order. */
    method InitializeTX()
      modifies this
      ensures log == old(log) + InitializeTXCalls() && polls == old(polls) && j == old(j)
    {
      Call(DisableAA(0xFF));
      Call(SetRFChannel(115));
      Call(SetDataRate(Rate250kbps));
      Call(SetCRCScheme(Crc2Byte));
      Call(SetAddrWidth(3));
      Call(SetAddr(PipeTx, TX_ADDR_STC));
      Call(SetTXPower(TxPower0dBm));
      Call(SetOperationalMode(ModeTx));
      Call(ClearIRQFlags);
      Call(SetPowerMode(PowerUp));
    }

    /**
     * nRF24_Initialize: when the self-test fails the routine spins forever
     * (reported here as `halted`) and neither the library initialisation
     * nor the transmitter set-up is reached.
     */
    method Initialize() returns (halted: bool)
      modifies this
      ensures halted <==> !checkPasses
      ensures halted ==> log == old(log) + [InitSpi, InitGpio, CeLow, Check]
      ensures !halted ==> log == old(log) + [InitSpi, InitGpio, CeLow, Check, Init] + InitializeTXCalls()
      ensures polls == old(polls) && j == old(j)
    {
      Call(InitSpi);
      Call(InitGpio);
      Call(CeLow);
      Call(Check);
      if !checkPasses {
        return true;
      }
      Call(Init);
      InitializeTX();
      return false;
    }

    /**
     * nRF24_Transmit: fills the payload from the running counter and sends
     * it with the corrected poll loop; the result is what the source prints.
     */
    method Transmit() returns (payload: seq<u8>, res: TxResult)
      requires Valid()
      modifies this
      ensures Valid()
      ensures payload == CounterPayload(old(j)) && j == Wrapped(old(j), PAYLOAD_LEN)
      ensures var r := TransmitRunIntended(status, old(polls), payload, WAIT_TIMEOUT);
        res == r.result && log == old(log) + r.calls && polls == old(polls) + r.polls
    {
      var buf := new u8[32];
      ghost var j0: u8 := j;
      var i: u32 := 0;
      while i < PAYLOAD_LEN as u32
        invariant i <= PAYLOAD_LEN && j == Wrapped(j0, i)
        invariant forall k :: 0 <= k < i ==> buf[k] == Wrapped(j0, k)
        invariant log == old(log) && polls == old(polls)
      {
        buf[i] := j;
        j := j + 1;
        if j > 0xFF {
          j := 0;
        }
        i := i + 1;
      }
      payload := buf[..PAYLOAD_LEN];
      res := TransmitPacketIntended(payload, WAIT_TIMEOUT);
    }
  }
}
