/**
 * The configuration record in the serial EEPROM, kept over the bit-banged
 * bus of SwI2c. The record m_EEPROM_Array is a header 0x5A, twelve payload
 * bytes and a CRC byte, stored at addresses 0 to 13; the CRC byte makes
 * the XOR of all fourteen bytes zero. EEPROMPut writes the record one byte
 * per transaction and EEPROMGet reads it back and checks it.
 *
 * What the EEPROM answers is the bus's SDA script: each function below
 * gives, for the script `sda` from sample `n` on, what a driver call does
 * on the pins and how many samples it takes.
 */
module Eeprom {
  import opened Common
  import opened SwI2c

  /** The device's control byte for writing: 1010, block 000, R/W 0. */
  const EEPROM_ADDRESS: byte := 0xA0
  const HEADER: byte := 0x5A
  const MAX_NUMBER_OF_PAYLOAD_BYTES: nat := 12
  /** Header, payload and CRC byte. */
  const RECORD_SIZE: nat := MAX_NUMBER_OF_PAYLOAD_BYTES + 2
  /** Where the CRC byte goes: right after the payload at addresses 1 to 12. */
  const CHECK_ADDRESS: bv16 := 13
  /** ACK_Poll's retry count and the pause before each control byte, in microseconds. */
  const POLL_RETRIES: nat := 64
  const POLL_DELAY_US: nat := 100

  /**
   * The control byte for `addr`: the device bits of `eaddr` with address
   * bits 8 to 10 in control bits 1 to 3, which select the 256-byte block.
   */
  function Control(eaddr: byte, addr: bv32): byte
  {
    (eaddr & 0xF1) | (((addr >> 7) & 0x0E) as byte)
  }

  /** The control byte keeps the device bits and carries address bits 8 to 10 in bits 1 to 3. */
  lemma ControlBits(eaddr: byte, addr: bv32)
    ensures Control(eaddr, addr) & 0xF1 == eaddr & 0xF1
    ensures (Control(eaddr, addr) >> 1) & 7 == ((addr >> 8) & 7) as byte
  {
  }

  /** The address as byte_out takes it: its low eight bits. */
  function LowByte(addr: bv32): byte
  {
    (addr & 0xFF) as byte
  }

  lemma LowByteIsMod(addr: bv32)
    ensures LowByte(addr) as bv32 == addr % 0x100
  {
  }

  /**
   * What a call did on the bus: whether the EEPROM acknowledged, the bus
   * history afterwards, and the number of SDA samples taken.
   */
  datatype Outcome = Outcome(ok: bool, log: Log, used: nat)

  /**
   * ACK_Poll's loop with `retries` attempts left, after `log`: a START,
   * then, while attempts remain, a pause and the control byte, again as
   * long as it is not acknowledged. `ok` says whether some attempt was
   * acknowledged.
   */
  function Polls(sda: iset<nat>, n: nat, control: byte, retries: nat, log: Log): (r: Outcome)
    ensures r.used <= retries
    decreases retries, n
  {
    if retries == 0 then Outcome(false, Snoc(log, Begin), 0)
    else
      var attempt := Snoc(Snoc(Snoc(log, Begin), Wait(POLL_DELAY_US)), Out(control, (n in sda)));
      if (n in sda) then
        var rest := Polls(sda, n + 1, control, retries - 1, attempt);
        Outcome(rest.ok, rest.log, rest.used + 1)
      else Outcome(true, attempt, 1)
  }

  /**
   * ACK_Poll ends well exactly when its last attempt was acknowledged; it
   * ends badly only after all its attempts, and every attempt before the
   * last went unanswered.
   */
  lemma {:induction false} PollsMeaning(sda: iset<nat>, n: nat, control: byte, retries: nat, log: Log)
    ensures var r := Polls(sda, n, control, retries, log);
      && (r.ok <==> 0 < r.used && !(n + r.used - 1 in sda))
      && (!r.ok ==> r.used == retries)
      && (forall j :: n <= j < n + r.used - 1 ==> (j in sda))
    decreases retries
  {
    if retries > 0 && (n in sda) {
      PollsMeaning(sda, n + 1, control, retries - 1, Snoc(Snoc(Snoc(log, Begin), Wait(POLL_DELAY_US)), Out(control, true)));
    }
  }

  /** `k` unanswered attempts of ACK_Poll after `log`. */
  function Tries(log: Log, control: byte, k: nat): (r: Log)
    ensures k > 0 ==> r.Snoc? && r.last == Out(control, true)
  {
    if k == 0 then log
    else Snoc(Snoc(Snoc(Tries(log, control, k - 1), Begin), Wait(POLL_DELAY_US)), Out(control, true))
  }

  lemma {:induction false} TriesFirst(log: Log, control: byte, k: nat)
    requires k > 0
    ensures Tries(Snoc(Snoc(Snoc(log, Begin), Wait(POLL_DELAY_US)), Out(control, true)), control, k - 1) == Tries(log, control, k)
  {
    if k > 1 {
      TriesFirst(log, control, k - 1);
    }
  }

  /**
   * ACK_Poll after `k` unanswered attempts goes on as a poll with the
   * attempts left, after the log of those `k` attempts.
   */
  lemma {:induction false} PollsAfterTries(sda: iset<nat>, n: nat, control: byte, retries: nat, log: Log, k: nat)
    requires k <= retries
    requires forall j :: n <= j < n + k ==> (j in sda)
    ensures var rest := Polls(sda, n + k, control, retries - k, Tries(log, control, k));
      Polls(sda, n, control, retries, log) == Outcome(rest.ok, rest.log, rest.used + k)
    decreases k
  {
    if k > 0 {
      var attempt := Snoc(Snoc(Snoc(log, Begin), Wait(POLL_DELAY_US)), Out(control, true));
      assert (n in sda);
      PollsAfterTries(sda, n + 1, control, retries - 1, attempt, k - 1);
      TriesFirst(log, control, k);
    }
  }

  /** ACK_Poll when all `retries` attempts go unanswered. */
  lemma PollsExhausted(sda: iset<nat>, n: nat, control: byte, retries: nat, log: Log)
    requires forall j :: n <= j < n + retries ==> (j in sda)
    ensures Polls(sda, n, control, retries, log) == Outcome(false, Snoc(Tries(log, control, retries), Begin), retries)
  {
    PollsAfterTries(sda, n, control, retries, log, retries);
  }

  /** ACK_Poll when attempt `k` (from 0) is the first to be acknowledged. */
  lemma PollsAnswered(sda: iset<nat>, n: nat, control: byte, retries: nat, log: Log, k: nat)
    requires k < retries && !(n + k in sda)
    requires forall j :: n <= j < n + k ==> (j in sda)
    ensures Polls(sda, n, control, retries, log) ==
      Outcome(true, Snoc(Snoc(Snoc(Tries(log, control, k), Begin), Wait(POLL_DELAY_US)), Out(control, false)), k + 1)
  {
    PollsAfterTries(sda, n, control, retries, log, k);
  }

  /**
   * LowDensByteWrite after `log`: control byte, low address byte and data,
   * each of which must be acknowledged; on the first NAK the call gives up
   * with no STOP. After the data byte: STOP, then ACK_Poll with `eaddr`.
   */
  function WriteOutcome(sda: iset<nat>, n: nat, eaddr: byte, addr: bv32, data: byte, log: Log): (r: Outcome)
    ensures r.ok <==> !(n in sda) && !(n + 1 in sda) && !(n + 2 in sda)
    ensures !r.ok ==> r.used == if (n in sda) then 1 else if (n + 1 in sda) then 2 else 3
    ensures r.ok ==> 3 <= r.used <= 3 + POLL_RETRIES
  {
    var control := Control(eaddr, addr);
    var l0 := Snoc(Snoc(log, Begin), Out(control, (n in sda)));
    if (n in sda) then Outcome(false, l0, 1)
    else
      var l1 := Snoc(l0, Out(LowByte(addr), (n + 1 in sda)));
      if (n + 1 in sda) then Outcome(false, l1, 2)
      else
        var l2 := Snoc(l1, Out(data, (n + 2 in sda)));
        if (n + 2 in sda) then Outcome(false, l2, 3)
        else
          var poll := Polls(sda, n + 3, eaddr, POLL_RETRIES, Snoc(l2, End));
          Outcome(true, Snoc(poll.log, End), 3 + poll.used)
  }

  /**
   * The three bytes of a write after `log`: `control`, the low address
   * byte `low` and `data`; it stops at the first NAK.
   */
  function WriteAddressing(sda: iset<nat>, n: nat, control: byte, low: byte, data: byte, log: Log): (r: Outcome)
    ensures r.ok <==> !(n in sda) && !(n + 1 in sda) && !(n + 2 in sda)
    ensures r.used == if (n in sda) then 1 else if (n + 1 in sda) then 2 else 3
  {
    var l0 := Snoc(Snoc(log, Begin), Out(control, (n in sda)));
    if (n in sda) then Outcome(false, l0, 1)
    else
      var l1 := Snoc(l0, Out(low, (n + 1 in sda)));
      if (n + 1 in sda) then Outcome(false, l1, 2)
      else Outcome(!(n + 2 in sda), Snoc(l1, Out(data, (n + 2 in sda))), 3)
  }

  /** A write is its three bytes, then, when all were acknowledged, a STOP and ACK_Poll. */
  lemma WriteInTwoParts(sda: iset<nat>, n: nat, eaddr: byte, addr: bv32, data: byte, log: Log)
    ensures var a := WriteAddressing(sda, n, Control(eaddr, addr), LowByte(addr), data, log);
      WriteOutcome(sda, n, eaddr, addr, data, log) ==
        if !a.ok then a
        else
          var poll := Polls(sda, n + 3, eaddr, POLL_RETRIES, Snoc(a.log, End));
          Outcome(true, Snoc(poll.log, End), 3 + poll.used)
  {
  }

  /** A read: whether it succeeded, the value of the destination afterwards, the bus history and the samples. */
  datatype Reply = Reply(ok: bool, value: byte, log: Log, used: nat)

  /**
   * LowDensByteRead after `log`: control byte and low address byte, a
   * repeated START, the control byte for reading, then one byte read with
   * NAKBIT and a STOP. On the first NAK the call gives up with no STOP and
   * the destination keeps its value `cell`.
   */
  function ReadOutcome(sda: iset<nat>, n: nat, eaddr: byte, addr: bv32, cell: byte, log: Log): (r: Reply)
    ensures r.ok <==> !(n in sda) && !(n + 1 in sda) && !(n + 2 in sda)
    ensures r.ok ==> r.used == 11 && r.value == FromMsb(Levels(sda, n + 3, 8))
    ensures !r.ok ==> r.value == cell && r.used == if (n in sda) then 1 else if (n + 1 in sda) then 2 else 3
  {
    var control := Control(eaddr, addr);
    var l0 := Snoc(Snoc(log, Begin), Out(control, (n in sda)));
    if (n in sda) then Reply(false, cell, l0, 1)
    else
      var l1 := Snoc(l0, Out(LowByte(addr), (n + 1 in sda)));
      if (n + 1 in sda) then Reply(false, cell, l1, 2)
      else
        var l2 := Snoc(Snoc(l1, Begin), Out(control | 0x01, (n + 2 in sda)));
        if (n + 2 in sda) then Reply(false, cell, l2, 3)
        else
          var levels := Levels(sda, n + 3, 8);
          Reply(true, FromMsb(levels), Snoc(Snoc(l2, In(levels, NAKBIT)), End), 11)
  }

  /**
   * The addressing part of a read after `log`: `control` and the low
   * address byte `low` (the dummy write that sets the address), a repeated
   * START and `control` with the read bit; it stops at the first NAK.
   */
  function ReadAddressing(sda: iset<nat>, n: nat, control: byte, low: byte, log: Log): (r: Outcome)
    ensures r.ok <==> !(n in sda) && !(n + 1 in sda) && !(n + 2 in sda)
    ensures r.used == if (n in sda) then 1 else if (n + 1 in sda) then 2 else 3
  {
    var l0 := Snoc(Snoc(log, Begin), Out(control, (n in sda)));
    if (n in sda) then Outcome(false, l0, 1)
    else
      var l1 := Snoc(l0, Out(low, (n + 1 in sda)));
      if (n + 1 in sda) then Outcome(false, l1, 2)
      else Outcome(!(n + 2 in sda), Snoc(Snoc(l1, Begin), Out(control | 0x01, (n + 2 in sda))), 3)
  }

  /** A read is its addressing part, then, when that was acknowledged, one byte read with NAKBIT and a STOP. */
  lemma ReadInTwoParts(sda: iset<nat>, n: nat, eaddr: byte, addr: bv32, cell: byte, log: Log)
    ensures var a := ReadAddressing(sda, n, Control(eaddr, addr), LowByte(addr), log);
      ReadOutcome(sda, n, eaddr, addr, cell, log) ==
        if !a.ok then Reply(false, cell, a.log, a.used)
        else
          var levels := Levels(sda, n + 3, 8);
          Reply(true, FromMsb(levels), Snoc(Snoc(a.log, In(levels, NAKBIT)), End), 11)
  {
  }

  /** The address of byte `k` of a run from `base`, counting in 16 bits as the drivers' `tmpAddress` does. */
  function AddrAt(base: bv16, k: nat): bv16
  {
    if k == 0 then base else AddrAt(base, k - 1) + 1
  }

  /**
   * The first `k` of successive LowDensByteWrite calls putting `bytes` from
   * address `addr` on, each made whatever the ones before it did; `ok`
   * says all of them were acknowledged.
   */
  function Writes(sda: iset<nat>, n: nat, addr: bv16, bytes: seq<byte>, k: nat, log: Log): Outcome
    requires k <= |bytes|
  {
    if k == 0 then Outcome(true, log, 0)
    else
      var prefix := Writes(sda, n, addr, bytes, k - 1, log);
      var last := WriteOutcome(sda, n + prefix.used, EEPROM_ADDRESS, AddrAt(addr, k - 1) as bv32, bytes[k - 1], prefix.log);
      Outcome(prefix.ok && last.ok, last.log, prefix.used + last.used)
  }

  /**
   * One more write of a run, seen from the bus: a write of `bytes[i]` at
   * AddrAt(1, i) that starts where the first i writes left the bus leaves
   * it where the first i + 1 leave it.
   */
  lemma WritesAfter(sda: iset<nat>, n: nat, bytes: seq<byte>, i: nat, log: Log, address: bv16, m: nat, before: Log, ok: bool, after: Log, used: nat)
    requires i < |bytes| && address == AddrAt(1, i)
    requires m == n + Writes(sda, n, 1, bytes, i, log).used && before == Writes(sda, n, 1, bytes, i, log).log
    requires ok == WriteOutcome(sda, m, EEPROM_ADDRESS, address as bv32, bytes[i], before).ok
    requires used == WriteOutcome(sda, m, EEPROM_ADDRESS, address as bv32, bytes[i], before).used
    requires after == WriteOutcome(sda, m, EEPROM_ADDRESS, address as bv32, bytes[i], before).log
    ensures after == Writes(sda, n, 1, bytes, i + 1, log).log
    ensures m + used == n + Writes(sda, n, 1, bytes, i + 1, log).used
  {
    assert i + 1 - 1 == i;
  }

  /** The values, bus history and samples of successive reads. */
  datatype Reads = Reads(values: seq<byte>, log: Log, used: nat)

  /**
   * The first `k` of successive LowDensByteRead calls from address `addr`
   * on, into destinations holding `cells`, each made whatever the ones
   * before it did.
   */
  function ReadsFrom(sda: iset<nat>, n: nat, addr: bv16, cells: seq<byte>, k: nat, log: Log): (r: Reads)
    requires k <= |cells|
    ensures |r.values| == k
  {
    if k == 0 then Reads([], log, 0)
    else
      var prefix := ReadsFrom(sda, n, addr, cells, k - 1, log);
      var last := ReadOutcome(sda, n + prefix.used, EEPROM_ADDRESS, AddrAt(addr, k - 1) as bv32, cells[k - 1], prefix.log);
      Reads(prefix.values + [last.value], last.log, prefix.used + last.used)
  }

  /**
   * One more read of a run, seen from the bus: a read at AddrAt(1, i) into
   * a destination holding `cells[i]`, starting where the first i reads left
   * the bus, adds its value to theirs and leaves the bus where the first
   * i + 1 leave it.
   */
  lemma ReadsAfter(sda: iset<nat>, n: nat, cells: seq<byte>, i: nat, log: Log, address: bv16, m: nat, before: Log, value: byte, used: nat, after: Log)
    requires i < |cells| && address == AddrAt(1, i)
    requires m == n + ReadsFrom(sda, n, 1, cells, i, log).used && before == ReadsFrom(sda, n, 1, cells, i, log).log
    requires value == ReadOutcome(sda, m, EEPROM_ADDRESS, address as bv32, cells[i], before).value
    requires used == ReadOutcome(sda, m, EEPROM_ADDRESS, address as bv32, cells[i], before).used
    requires after == ReadOutcome(sda, m, EEPROM_ADDRESS, address as bv32, cells[i], before).log
    ensures ReadsFrom(sda, n, 1, cells, i + 1, log) == Reads(ReadsFrom(sda, n, 1, cells, i, log).values + [value], after, m + used - n)
  {
    assert i + 1 - 1 == i;
  }

  /** The XOR of all bytes of `s`, accumulated from the front as the drivers do. */
  function Xor(s: seq<byte>): byte
  {
    if |s| == 0 then 0 else Xor(s[..|s| - 1]) ^ s[|s| - 1]
  }

  lemma {:induction false} XorAppend(a: seq<byte>, b: seq<byte>)
    ensures Xor(a + b) == Xor(a) ^ Xor(b)
    decreases |b|
  {
    if |b| > 0 {
      assert (a + b)[..|a + b| - 1] == a + b[..|b| - 1];
      XorAppend(a, b[..|b| - 1]);
    } else {
      assert a + b == a;
    }
  }

  /** The XOR of the first `k` bytes of `s`, as a loop accumulates it. */
  function XorPrefix(s: seq<byte>, k: nat): byte
    requires k <= |s|
  {
    if k == 0 then 0 else XorPrefix(s, k - 1) ^ s[k - 1]
  }

  lemma {:induction false} XorPrefixIsXor(s: seq<byte>, k: nat)
    requires k <= |s|
    ensures XorPrefix(s, k) == Xor(s[..k])
  {
    if k > 0 {
      XorPrefixIsXor(s, k - 1);
      assert s[..k][..k - 1] == s[..k - 1];
    }
  }

  lemma {:induction false} XorPrefixSnoc(s: seq<byte>, x: byte, k: nat)
    requires k <= |s|
    ensures XorPrefix(s + [x], k) == XorPrefix(s, k)
  {
    if k > 0 {
      XorPrefixSnoc(s, x, k - 1);
    }
  }

  /** One more byte into a running CRC byte that started at `a`. */
  lemma XorPrefixStep(a: byte, s: seq<byte>, k: nat, c: byte)
    requires k < |s| && c == a ^ XorPrefix(s, k)
    ensures c ^ s[k] == a ^ XorPrefix(s, k + 1)
  {
  }

  /** The XOR of a byte followed by `s`, as the drivers accumulate it. */
  lemma XorCons(a: byte, s: seq<byte>)
    ensures Xor([a] + s) == a ^ XorPrefix(s, |s|)
  {
    XorPrefixIsXor(s, |s|);
    assert s[..|s|] == s;
    XorAppend([a], s);
    assert [a][..0] == [];
  }

  /**
   * A running CRC byte that started at `first` and took in `vals`,
   * XORed with `last`, is the XOR of the whole record.
   */
  lemma XorClose(first: byte, vals: seq<byte>, last: byte, k: nat, check: byte)
    requires k == |vals| && check == first ^ XorPrefix(vals, k)
    ensures Xor([first] + (vals + [last])) == check ^ last
  {
    var s := vals + [last];
    XorCons(first, s);
    XorPrefixLast(vals, last, k);
    assert |s| == k + 1;
  }

  lemma XorPrefixLast(vals: seq<byte>, last: byte, k: nat)
    requires k == |vals|
    ensures XorPrefix(vals + [last], k + 1) == XorPrefix(vals, k) ^ last
  {
    XorPrefixSnoc(vals, last, k);
    assert (vals + [last])[k] == last;
  }

  /** A running CRC byte after one more byte is appended to what it covers. */
  lemma XorGrow(start: byte, got: seq<byte>, value: byte, k: nat, check: byte)
    requires k == |got| && check == start ^ XorPrefix(got, k)
    ensures check ^ value == start ^ XorPrefix(got + [value], k + 1)
  {
    XorPrefixLast(got, value, k);
  }

  /** The CRC byte EEPROMPut computes: the header XOR every payload byte. */
  function Check(payload: seq<byte>): byte
  {
    Xor([HEADER] + payload)
  }

  /** The CRC byte closes the record: header, payload and CRC byte XOR to zero. */
  lemma CheckCloses(payload: seq<byte>)
    ensures Xor([HEADER] + payload + [Check(payload)]) == 0
  {
  }

  /** The record EEPROMPut stores at addresses 0 to 13. */
  function Image(payload: seq<byte>): (record: seq<byte>)
    requires |payload| == MAX_NUMBER_OF_PAYLOAD_BYTES
    ensures |record| == RECORD_SIZE && record[0] == HEADER
    ensures record[1..RECORD_SIZE - 1] == payload
    ensures Xor(record) == 0
  {
    CheckCloses(payload);
    [HEADER] + payload + [Check(payload)]
  }

  /** Changing any one byte of a record whose XOR is zero makes it nonzero, so EEPROMGet rejects it. */
  lemma CorruptionDetected(record: seq<byte>, k: nat, v: byte)
    requires Xor(record) == 0 && k < |record| && v != record[k]
    ensures Xor(record[k := v]) != 0
  {
    var a, b := record[..k], record[k + 1..];
    assert record == a + [record[k]] + b;
    assert record[k := v] == a + [v] + b;
    XorAppend(a + [record[k]], b);
    XorAppend(a + [v], b);
  }

  /**
   * EEPROMPut's effect after `log`: the header write, then, only if it was
   * acknowledged, the payload and its CRC byte from address 1 on,
   * whatever those writes did.
   */
  function PutOutcome(sda: iset<nat>, n: nat, payload: seq<byte>, log: Log): (r: Outcome)
    requires |payload| == MAX_NUMBER_OF_PAYLOAD_BYTES
    ensures r.used > 0
    ensures r.ok <==> WriteOutcome(sda, n, EEPROM_ADDRESS, 0, HEADER, log).ok
  {
    var h := WriteOutcome(sda, n, EEPROM_ADDRESS, 0, HEADER, log);
    if !h.ok then h
    else
      var body := Writes(sda, n + h.used, 1, payload, MAX_NUMBER_OF_PAYLOAD_BYTES, h.log);
      var last := WriteOutcome(sda, n + h.used + body.used, EEPROM_ADDRESS, CHECK_ADDRESS as bv32, Check(payload), body.log);
      Outcome(true, last.log, h.used + body.used + last.used)
  }

  /** Counting up from address 1 over the twelve payload bytes, in 16 bits, reaches the CRC byte's address. */
  lemma CheckAddressFollows()
    ensures AddrAt(1, MAX_NUMBER_OF_PAYLOAD_BYTES) == CHECK_ADDRESS
  {
  }

  /**
   * EEPROMPut puts the record Image(payload) in place, byte k at address k:
   * the header at 0, and, only when that write was acknowledged, the
   * payload from address 1 on and the CRC byte at 13. A failed header
   * write is the whole of its effect.
   */
  lemma PutWritesImage(sda: iset<nat>, n: nat, payload: seq<byte>, log: Log)
    requires |payload| == MAX_NUMBER_OF_PAYLOAD_BYTES
    ensures var h := WriteOutcome(sda, n, EEPROM_ADDRESS, 0, Image(payload)[0], log);
      var r := PutOutcome(sda, n, payload, log);
      (!r.ok ==> r == h) &&
      (r.ok ==>
        var body := Writes(sda, n + h.used, 1, Image(payload)[1..RECORD_SIZE - 1], MAX_NUMBER_OF_PAYLOAD_BYTES, h.log);
        var last := WriteOutcome(sda, n + h.used + body.used, EEPROM_ADDRESS, CHECK_ADDRESS as bv32,
                                 Image(payload)[RECORD_SIZE - 1], body.log);
        r == Outcome(true, last.log, h.used + body.used + last.used))
  {
  }

  /**
   * EEPROMPut's last write, the CRC byte at address 13, after an
   * acknowledged header and the twelve payload writes, completes PutOutcome.
   */
  lemma PutFinish(sda: iset<nat>, n: nat, log: Log, payload: seq<byte>, base: nat, hl: Log, address: bv16,
                  m: nat, before: Log, ok: bool, after: Log, used: nat)
    requires |payload| == MAX_NUMBER_OF_PAYLOAD_BYTES && address == CHECK_ADDRESS
    requires WriteOutcome(sda, n, EEPROM_ADDRESS, 0, HEADER, log).ok
    requires base == n + WriteOutcome(sda, n, EEPROM_ADDRESS, 0, HEADER, log).used
    requires hl == WriteOutcome(sda, n, EEPROM_ADDRESS, 0, HEADER, log).log
    requires m == base + Writes(sda, base, 1, payload, MAX_NUMBER_OF_PAYLOAD_BYTES, hl).used
    requires before == Writes(sda, base, 1, payload, MAX_NUMBER_OF_PAYLOAD_BYTES, hl).log
    requires ok == WriteOutcome(sda, m, EEPROM_ADDRESS, address as bv32, Check(payload), before).ok
    requires used == WriteOutcome(sda, m, EEPROM_ADDRESS, address as bv32, Check(payload), before).used
    requires after == WriteOutcome(sda, m, EEPROM_ADDRESS, address as bv32, Check(payload), before).log
    ensures PutOutcome(sda, n, payload, log) == Outcome(true, after, m + used - n)
  {
  }

  /** What EEPROMGet found: its verdict, the record afterwards, the bus history and the samples. */
  datatype Fetched = Fetched(ok: bool, record: seq<byte>, log: Log, used: nat)

  /**
   * EEPROMGet over the record held in `h0`, `stored` and `c0` (header,
   * payload, CRC byte) after `log`: the header read, and, only if it
   * succeeded, the twelve payload reads and the read of the CRC byte,
   * whose failures are not looked at.
   */
  function GetOutcome(sda: iset<nat>, n: nat, h0: byte, stored: seq<byte>, c0: byte, log: Log): (r: Fetched)
    requires |stored| == MAX_NUMBER_OF_PAYLOAD_BYTES
    ensures |r.record| == RECORD_SIZE
  {
    var h := ReadOutcome(sda, n, EEPROM_ADDRESS, 0, h0, log);
    if !h.ok then Fetched(false, [h0] + (stored + [c0]), h.log, h.used)
    else
      var rest := GetRest(sda, n + h.used, h.value, stored, c0, h.log);
      Fetched(rest.ok, rest.record, rest.log, h.used + rest.used)
  }

  /**
   * EEPROMGet after a header read that returned `first`, from sample `n`
   * and `log` on: the twelve payload reads into `stored` and the read of
   * the CRC byte into `c0`, and the verdict on the record they leave.
   */
  function GetRest(sda: iset<nat>, n: nat, first: byte, stored: seq<byte>, c0: byte, log: Log): (r: Fetched)
    requires |stored| == MAX_NUMBER_OF_PAYLOAD_BYTES
    ensures |r.record| == RECORD_SIZE && r.record[0] == first
  {
    var body := ReadsFrom(sda, n, 1, stored, MAX_NUMBER_OF_PAYLOAD_BYTES, log);
    var last := ReadOutcome(sda, n + body.used, EEPROM_ADDRESS, CHECK_ADDRESS as bv32, c0, body.log);
    var got := [first] + (body.values + [last.value]);
    Fetched(first == HEADER && Xor(got) == 0, got, last.log, body.used + last.used)
  }

  /**
   * EEPROMGet's last read, the CRC byte at address 13, after the twelve
   * payload reads, completes GetRest: the record read back is the header,
   * the payload values and the CRC byte, accepted when the header is
   * 0x5A and the running CRC byte XOR the last byte is zero.
   */
  lemma GetFinish(sda: iset<nat>, n: nat, log: Log, first: byte, stored: seq<byte>, c0: byte,
                  body: Reads, check: byte, last: Reply, ok: bool, record: seq<byte>, samples: nat, after: Log)
    requires |stored| == MAX_NUMBER_OF_PAYLOAD_BYTES
    requires body == ReadsFrom(sda, n, 1, stored, MAX_NUMBER_OF_PAYLOAD_BYTES, log)
    requires check == first ^ XorPrefix(body.values, MAX_NUMBER_OF_PAYLOAD_BYTES)
    requires last == ReadOutcome(sda, n + body.used, EEPROM_ADDRESS, CHECK_ADDRESS as bv32, c0, body.log)
    requires record == [first] + (body.values + [last.value])
    requires ok == (first == HEADER && check ^ last.value == 0)
    requires samples == n + body.used + last.used && after == last.log
    ensures record == GetRest(sda, n, first, stored, c0, log).record
    ensures ok == GetRest(sda, n, first, stored, c0, log).ok
    ensures samples == n + GetRest(sda, n, first, stored, c0, log).used
    ensures after == GetRest(sda, n, first, stored, c0, log).log
  {
    XorClose(first, body.values, last.value, MAX_NUMBER_OF_PAYLOAD_BYTES, check);
  }

  /** EEPROMGet whose header read fails: that read is all it does, and the record keeps its bytes. */
  lemma GetRefused(sda: iset<nat>, n: nat, log: Log, h0: byte, stored: seq<byte>, c0: byte, h: Reply)
    requires |stored| == MAX_NUMBER_OF_PAYLOAD_BYTES
    requires h == ReadOutcome(sda, n, EEPROM_ADDRESS, 0, h0, log) && !h.ok
    ensures GetOutcome(sda, n, h0, stored, c0, log) == Fetched(false, [h0] + (stored + [c0]), h.log, h.used)
  {
  }

  /**
   * How a memory answers sample `m` (from 0 to 10) of a read of byte `b`:
   * low for the acknowledges of the two control bytes and the address,
   * then the bits of `b`, most significant first.
   */
  function Answer(b: byte, m: nat): bool
    requires m < 11
  {
    m >= 3 && Bits(b)[m - 3]
  }

  /** The script from sample `n` on is that of a memory holding `record` from address 0 on, read byte by byte. */
  ghost predicate Holds(sda: iset<nat>, n: nat, record: seq<byte>)
  {
    forall i, m :: 0 <= i < |record| && 0 <= m < 11 ==> (n + 11 * i + m in sda) == Answer(record[i], m)
  }

  /** Read number `i` of a memory holding `record` is acknowledged and answers with `record[i]`. */
  lemma HoldsRead(sda: iset<nat>, n: nat, record: seq<byte>, i: nat)
    requires Holds(sda, n, record) && i < |record|
    ensures !(n + 11 * i in sda) && !(n + 11 * i + 1 in sda) && !(n + 11 * i + 2 in sda)
    ensures Levels(sda, n + 11 * i + 3, 8) == Bits(record[i])
  {
    assert !Answer(record[i], 0) && !Answer(record[i], 1) && !Answer(record[i], 2);
    forall t | 0 <= t < 8
      ensures Levels(sda, n + 11 * i + 3, 8)[t] == Bits(record[i])[t]
    {
      assert Answer(record[i], 3 + t) == Bits(record[i])[t];
    }
  }

  /** A read whose three bytes are acknowledged and whose answer is the bits of `b` returns `b`. */
  lemma ReadsByte(sda: iset<nat>, n: nat, eaddr: byte, addr: bv32, cell: byte, log: Log, b: byte)
    requires !(n in sda) && !(n + 1 in sda) && !(n + 2 in sda) && Levels(sda, n + 3, 8) == Bits(b)
    ensures ReadOutcome(sda, n, eaddr, addr, cell, log).ok
    ensures ReadOutcome(sda, n, eaddr, addr, cell, log).value == b
    ensures ReadOutcome(sda, n, eaddr, addr, cell, log).used == 11
  {
    MsbRoundTrip(b);
  }

  /** A memory that holds `record` holds its tail from the next read on. */
  lemma HoldsTail(sda: iset<nat>, n: nat, record: seq<byte>)
    requires |record| > 0 && Holds(sda, n, record)
    ensures Holds(sda, n + 11, record[1..])
  {
    forall i, m | 0 <= i < |record| - 1 && 0 <= m < 11
      ensures (n + 11 + 11 * i + m in sda) == Answer(record[1..][i], m)
    {
      assert n + 11 + 11 * i + m == n + 11 * (i + 1) + m;
      assert record[1..][i] == record[i + 1];
    }
  }

  /**
   * Reading a memory that holds `record`: EEPROMGet ends with exactly that
   * record, and accepts it when its header is 0x5A and its XOR is zero.
   */
  lemma GetFaithful(sda: iset<nat>, n: nat, record: seq<byte>, h0: byte, stored: seq<byte>, c0: byte, log: Log)
    requires |record| == RECORD_SIZE && |stored| == MAX_NUMBER_OF_PAYLOAD_BYTES
    requires Holds(sda, n, record)
    ensures GetOutcome(sda, n, h0, stored, c0, log).record == record
    ensures GetOutcome(sda, n, h0, stored, c0, log).ok <==> record[0] == HEADER && Xor(record) == 0
  {
    HeaderRead(sda, n, record, h0, log);
    HoldsTail(sda, n, record);
    var h := ReadOutcome(sda, n, EEPROM_ADDRESS, 0, h0, log);
    RestFaithful(sda, n + 11, record[0], record[1..], stored, c0, h.log);
    assert record == [record[0]] + record[1..];
  }

  /** After a header read that returned `first`, a memory holding `tail` next gives back exactly that tail. */
  lemma RestFaithful(sda: iset<nat>, n: nat, first: byte, tail: seq<byte>, stored: seq<byte>, c0: byte, log: Log)
    requires |tail| == RECORD_SIZE - 1 && |stored| == MAX_NUMBER_OF_PAYLOAD_BYTES
    requires Holds(sda, n, tail)
    ensures GetRest(sda, n, first, stored, c0, log).record == [first] + tail
    ensures GetRest(sda, n, first, stored, c0, log).ok <==> first == HEADER && Xor([first] + tail) == 0
  {
    ReadsFaithful(sda, n, stored, MAX_NUMBER_OF_PAYLOAD_BYTES, log, tail);
    var body := ReadsFrom(sda, n, 1, stored, MAX_NUMBER_OF_PAYLOAD_BYTES, log);
    HoldsReadOutcome(sda, n, tail, MAX_NUMBER_OF_PAYLOAD_BYTES, CHECK_ADDRESS as bv32, c0, body.log);
    assert tail == tail[..MAX_NUMBER_OF_PAYLOAD_BYTES] + [tail[MAX_NUMBER_OF_PAYLOAD_BYTES]];
  }

  /** The header read of a memory holding `record` returns its first byte. */
  lemma HeaderRead(sda: iset<nat>, n: nat, record: seq<byte>, cell: byte, log: Log)
    requires |record| > 0 && Holds(sda, n, record)
    ensures ReadOutcome(sda, n, EEPROM_ADDRESS, 0, cell, log).ok
    ensures ReadOutcome(sda, n, EEPROM_ADDRESS, 0, cell, log).value == record[0]
    ensures ReadOutcome(sda, n, EEPROM_ADDRESS, 0, cell, log).used == 11
  {
    HoldsRead(sda, n, record, 0);
    ReadsByte(sda, n, EEPROM_ADDRESS, 0, cell, log, record[0]);
  }

  /** Successive reads of a memory holding `record` return it, whatever the destinations held. */
  lemma {:induction false} ReadsFaithful(sda: iset<nat>, n: nat, cells: seq<byte>, k: nat, log: Log, record: seq<byte>)
    requires k <= |cells| && k <= |record| && Holds(sda, n, record)
    ensures ReadsFrom(sda, n, 1, cells, k, log).values == record[..k]
    ensures ReadsFrom(sda, n, 1, cells, k, log).used == 11 * k
  {
    if k > 0 {
      ReadsFaithful(sda, n, cells, k - 1, log, record);
      ReadsExtend(sda, n, cells, k - 1, log, record);
    }
  }

  /** A faithful run of i reads extends to i + 1 when record[i] is the next answer. */
  lemma ReadsExtend(sda: iset<nat>, n: nat, cells: seq<byte>, i: nat, log: Log, record: seq<byte>)
    requires i < |cells| && i < |record| && Holds(sda, n, record)
    requires ReadsFrom(sda, n, 1, cells, i, log).values == record[..i]
    requires ReadsFrom(sda, n, 1, cells, i, log).used == 11 * i
    ensures ReadsFrom(sda, n, 1, cells, i + 1, log).values == record[..i + 1]
    ensures ReadsFrom(sda, n, 1, cells, i + 1, log).used == 11 * (i + 1)
  {
    var prefix := ReadsFrom(sda, n, 1, cells, i, log);
    HoldsReadOutcome(sda, n, record, i, AddrAt(1, i) as bv32, cells[i], prefix.log);
    var last := ReadOutcome(sda, n + prefix.used, EEPROM_ADDRESS, AddrAt(1, i) as bv32, cells[i], prefix.log);
    ReadsAfter(sda, n, cells, i, log, AddrAt(1, i), n + prefix.used, prefix.log, last.value, last.used, last.log);
    ReadsStep(sda, n, cells, i, log, record, prefix, ReadsFrom(sda, n, 1, cells, i + 1, log));
  }

  /** One more read that returns record[i] in eleven samples extends a faithful run by one. */
  lemma {:induction false} ReadsStep(sda: iset<nat>, n: nat, cells: seq<byte>, i: nat, log: Log, record: seq<byte>, prefix: Reads, next: Reads)
    requires i < |cells| && i < |record|
    requires prefix == ReadsFrom(sda, n, 1, cells, i, log) && prefix.values == record[..i] && prefix.used == 11 * i
    requires next == Reads(prefix.values + [record[i]], next.log, prefix.used + 11)
    ensures next.values == record[..i + 1] && next.used == 11 * (i + 1)
  {
    assert record[..i + 1] == record[..i] + [record[i]];
  }

  /** Read number `i` of a memory holding `record`, wherever it points, returns `record[i]` in eleven samples. */
  lemma HoldsReadOutcome(sda: iset<nat>, n: nat, record: seq<byte>, i: nat, addr: bv32, cell: byte, log: Log)
    requires Holds(sda, n, record) && i < |record|
    ensures ReadOutcome(sda, n + 11 * i, EEPROM_ADDRESS, addr, cell, log).ok
    ensures ReadOutcome(sda, n + 11 * i, EEPROM_ADDRESS, addr, cell, log).value == record[i]
    ensures ReadOutcome(sda, n + 11 * i, EEPROM_ADDRESS, addr, cell, log).used == 11
  {
    HoldsRead(sda, n, record, i);
    ReadsByte(sda, n + 11 * i, EEPROM_ADDRESS, addr, cell, log, record[i]);
  }

  /**
   * The round trip: a memory that answers with the record EEPROMPut wrote
   * makes EEPROMGet succeed with the same payload.
   */
  lemma RoundTrip(sda: iset<nat>, n: nat, payload: seq<byte>, h0: byte, stored: seq<byte>, c0: byte, log: Log)
    requires |payload| == MAX_NUMBER_OF_PAYLOAD_BYTES && |stored| == MAX_NUMBER_OF_PAYLOAD_BYTES
    requires Holds(sda, n, Image(payload))
    ensures GetOutcome(sda, n, h0, stored, c0, log).ok
    ensures GetOutcome(sda, n, h0, stored, c0, log).record[1..RECORD_SIZE - 1] == payload
  {
    GetFaithful(sda, n, Image(payload), h0, stored, c0, log);
  }

  /** m_EEPROM_Array, and the bus the EEPROM is on. */
  class Store {
    const bus: Bus
    var header: byte
    var payload: seq<byte>
    var crc: byte

    /** The record as it is laid out in the EEPROM. */
    function Record(): (r: seq<byte>)
      reads this
      ensures |r| == |payload| + 2 && r[0] == header && r[|r| - 1] == crc
      ensures r[1..|r| - 1] == payload
    {
      [header] + (payload + [crc])
    }

    /** The record is a zero-initialised global. */
    constructor (bus: Bus)
      ensures this.bus == bus && payload == seq(MAX_NUMBER_OF_PAYLOAD_BYTES, _ => 0)
      ensures header == 0 && crc == 0
    {
      this.bus := bus;
      header := 0;
      payload := seq(MAX_NUMBER_OF_PAYLOAD_BYTES, _ => 0);
      crc := 0;
    }

    /** ACK_Poll: control bytes until one is acknowledged or 64 have gone unanswered, then STOP. */
    method AckPoll(control: byte)
      modifies bus
      ensures bus.samples == old(bus.samples) + Polls(bus.sda, old(bus.samples), control, POLL_RETRIES, old(bus.log)).used
      ensures bus.log == Snoc(Polls(bus.sda, old(bus.samples), control, POLL_RETRIES, old(bus.log)).log, End)
    {
      var retryCnt := POLL_RETRIES;
      var result: byte := 1;
      while true
        invariant 0 <= retryCnt <= POLL_RETRIES
        invariant bus.samples == old(bus.samples) + (POLL_RETRIES - retryCnt)
        invariant bus.log == Tries(old(bus.log), control, POLL_RETRIES - retryCnt)
        invariant forall j :: old(bus.samples) <= j < bus.samples ==> (j in bus.sda)
        decreases retryCnt
      {
        ghost var tried := POLL_RETRIES - retryCnt;
        bus.BStart();
        if retryCnt == 0 {
          PollsExhausted(bus.sda, old(bus.samples), control, POLL_RETRIES, old(bus.log));
          break;
        }
        retryCnt := retryCnt - 1;
        bus.DelayUs(POLL_DELAY_US);
        result := bus.ByteOut(control);
        if result != 1 {
          PollsAnswered(bus.sda, old(bus.samples), control, POLL_RETRIES, old(bus.log), tried);
          break;
        }
      }
      bus.BStop();
    }

    /** LowDensByteWrite: true when the control byte, the address and the data were all acknowledged. */
    method LowDensByteWrite(eaddr: byte, addr: bv32, data: byte) returns (ok: bool)
      modifies bus
      ensures ok == WriteOutcome(bus.sda, old(bus.samples), eaddr, addr, data, old(bus.log)).ok
      ensures bus.samples == old(bus.samples) + WriteOutcome(bus.sda, old(bus.samples), eaddr, addr, data, old(bus.log)).used
      ensures bus.log == WriteOutcome(bus.sda, old(bus.samples), eaddr, addr, data, old(bus.log)).log
    {
      WriteInTwoParts(bus.sda, bus.samples, eaddr, addr, data, bus.log);
      var control := Control(eaddr, addr);
      ok := WriteBytes(control, LowByte(addr), data);
      if !ok {
        return;
      }
      bus.BStop();
      AckPoll(eaddr);
    }

    /** The three bytes of LowDensByteWrite: true when all were acknowledged. */
    method WriteBytes(control: byte, low: byte, data: byte) returns (ok: bool)
      modifies bus
      ensures old(bus.samples) <= bus.samples
      ensures WriteAddressing(bus.sda, old(bus.samples), control, low, data, old(bus.log)) == Outcome(ok, bus.log, bus.samples - old(bus.samples))
    {
      ok := false;
      bus.BStart();
      var ack := bus.ByteOut(control);
      if ack != 0 {
        return;
      }
      ack := bus.ByteOut(low);
      if ack != 0 {
        return;
      }
      ack := bus.ByteOut(data);
      ok := ack == 0;
    }

    /**
     * LowDensByteRead into a destination holding `data`: `value` is the
     * destination afterwards, the byte read when `ok` and `data` otherwise.
     */
    method LowDensByteRead(eaddr: byte, addr: bv32, data: byte) returns (ok: bool, value: byte)
      modifies bus
      ensures old(bus.samples) <= bus.samples
      ensures ReadOutcome(bus.sda, old(bus.samples), eaddr, addr, data, old(bus.log)) == Reply(ok, value, bus.log, bus.samples - old(bus.samples))
    {
      ReadInTwoParts(bus.sda, bus.samples, eaddr, addr, data, bus.log);
      ok := false;
      value := data;
      var control := Control(eaddr, addr);
      var addressed := ReadAddress(control, LowByte(addr));
      if !addressed {
        return;
      }
      value := bus.ByteIn(NAKBIT);
      ok := true;
      bus.BStop();
    }

    /** The addressing part of LowDensByteRead: true when all three bytes were acknowledged. */
    method ReadAddress(control: byte, low: byte) returns (ok: bool)
      modifies bus
      ensures old(bus.samples) <= bus.samples
      ensures ReadAddressing(bus.sda, old(bus.samples), control, low, old(bus.log)) == Outcome(ok, bus.log, bus.samples - old(bus.samples))
    {
      ok := false;
      bus.BStart();
      var ack := bus.ByteOut(control);
      if ack != 0 {
        return;
      }
      ack := bus.ByteOut(low);
      if ack != 0 {
        return;
      }
      bus.BStart();
      ack := bus.ByteOut(control | 0x01);
      ok := ack == 0;
    }

    /**
     * EEPROMPut's loop: the twelve payload bytes at addresses 1 to 12, one
     * LowDensByteWrite each whatever the previous one returned, each byte
     * folded into the CRC byte, which starts at `start` and is stored in
     * crc at the end; the address after the last one is returned.
     */
    method PutPayload(start: byte) returns (address: bv16)
      requires |payload| == MAX_NUMBER_OF_PAYLOAD_BYTES
      modifies this`crc, bus
      ensures address == CHECK_ADDRESS
      ensures crc == start ^ XorPrefix(payload, MAX_NUMBER_OF_PAYLOAD_BYTES)
      ensures bus.samples == old(bus.samples) + Writes(bus.sda, old(bus.samples), 1, payload, MAX_NUMBER_OF_PAYLOAD_BYTES, old(bus.log)).used
      ensures bus.log == Writes(bus.sda, old(bus.samples), 1, payload, MAX_NUMBER_OF_PAYLOAD_BYTES, old(bus.log)).log
    {
      ghost var sda, base, hl, p := bus.sda, bus.samples, bus.log, payload;
      var sum := start;
      address := 1;
      for index := 0 to MAX_NUMBER_OF_PAYLOAD_BYTES
        invariant address == AddrAt(1, index)
        invariant payload == p && sum == start ^ XorPrefix(p, index)
        invariant bus.samples == base + Writes(sda, base, 1, p, index, hl).used
        invariant bus.log == Writes(sda, base, 1, p, index, hl).log
      {
        var b := payload[index];
        ghost var m, before := bus.samples, bus.log;
        var written := LowDensByteWrite(EEPROM_ADDRESS, address as bv32, b);
        WritesAfter(sda, base, p, index, hl, address, m, before, written, bus.log, bus.samples - m);
        XorPrefixStep(start, p, index, sum);
        sum := sum ^ b;
        address := address + 1;
      }
      CheckAddressFollows();
      crc := sum;
    }

    /**
     * EEPROMPut: the header 0x5A at address 0, then, only when that write
     * was acknowledged, the payload from address 1 on and the CRC byte
     * after it; false only when the header was not acknowledged.
     */
    method EEPROMPut() returns (ok: bool)
      requires |payload| == MAX_NUMBER_OF_PAYLOAD_BYTES
      modifies this`header, this`crc, bus
      ensures header == HEADER && crc == if ok then Check(payload) else HEADER
      ensures ok == PutOutcome(bus.sda, old(bus.samples), payload, old(bus.log)).ok
      ensures bus.samples == old(bus.samples) + PutOutcome(bus.sda, old(bus.samples), payload, old(bus.log)).used
      ensures bus.log == PutOutcome(bus.sda, old(bus.samples), payload, old(bus.log)).log
    {
      ghost var sda, n0, l0 := bus.sda, bus.samples, bus.log;
      header := HEADER;
      crc := HEADER;
      ok := LowDensByteWrite(EEPROM_ADDRESS, 0, HEADER);
      if !ok {
        return;
      }
      ghost var base, hl := bus.samples, bus.log;
      var address := PutPayload(HEADER);
      XorCons(HEADER, payload);
      ghost var m, before := bus.samples, bus.log;
      var written := LowDensByteWrite(EEPROM_ADDRESS, address as bv32, crc);
      PutFinish(sda, n0, l0, payload, base, hl, address, m, before, written, bus.log, bus.samples - m);
    }

    /**
     * EEPROMGet's loop: twelve LowDensByteRead calls from address 1 on, each
     * into its payload byte whatever the previous one returned; the running
     * XOR starts at `start` and takes in every byte the payload holds
     * after its read. The address after the last one is returned.
     */
    method GetPayload(start: byte) returns (address: bv16, check: byte)
      requires |payload| == MAX_NUMBER_OF_PAYLOAD_BYTES
      modifies this`payload, bus
      ensures address == CHECK_ADDRESS
      ensures payload == ReadsFrom(bus.sda, old(bus.samples), 1, old(payload), MAX_NUMBER_OF_PAYLOAD_BYTES, old(bus.log)).values
      ensures check == start ^ XorPrefix(payload, MAX_NUMBER_OF_PAYLOAD_BYTES)
      ensures bus.samples == old(bus.samples) + ReadsFrom(bus.sda, old(bus.samples), 1, old(payload), MAX_NUMBER_OF_PAYLOAD_BYTES, old(bus.log)).used
      ensures bus.log == ReadsFrom(bus.sda, old(bus.samples), 1, old(payload), MAX_NUMBER_OF_PAYLOAD_BYTES, old(bus.log)).log
    {
      ghost var sda, base, hl, cells := bus.sda, bus.samples, bus.log, payload;
      var got: seq<byte> := [];
      check := start;
      address := 1;
      for index := 0 to MAX_NUMBER_OF_PAYLOAD_BYTES
        invariant address == AddrAt(1, index)
        invariant payload == cells && |got| == index
        invariant check == start ^ XorPrefix(got, index)
        invariant got == ReadsFrom(sda, base, 1, cells, index, hl).values
        invariant bus.samples == base + ReadsFrom(sda, base, 1, cells, index, hl).used
        invariant bus.log == ReadsFrom(sda, base, 1, cells, index, hl).log
      {
        var b := payload[index];
        ghost var m, before := bus.samples, bus.log;
        var read, value := LowDensByteRead(EEPROM_ADDRESS, address as bv32, b);
        ReadsAfter(sda, base, cells, index, hl, address, m, before, value, bus.samples - m, bus.log);
        XorGrow(start, got, value, index, check);
        got := got + [value];
        check := check ^ value;
        address := address + 1;
      }
      CheckAddressFollows();
      payload := got;
    }

    /**
     * EEPROMGet: reads the header, and, only when that read succeeded, the
     * payload and the CRC byte into the record; true when the header is
     * 0x5A and the XOR of the fourteen bytes is zero.
     */
    method EEPROMGet() returns (ok: bool)
      requires |payload| == MAX_NUMBER_OF_PAYLOAD_BYTES
      modifies this`header, this`payload, this`crc, bus
      ensures [header] + (payload + [crc]) == GetOutcome(bus.sda, old(bus.samples), old(header), old(payload), old(crc), old(bus.log)).record
      ensures ok == GetOutcome(bus.sda, old(bus.samples), old(header), old(payload), old(crc), old(bus.log)).ok
      ensures bus.samples == old(bus.samples) + GetOutcome(bus.sda, old(bus.samples), old(header), old(payload), old(crc), old(bus.log)).used
      ensures bus.log == GetOutcome(bus.sda, old(bus.samples), old(header), old(payload), old(crc), old(bus.log)).log
    {
      ghost var sda, n0, l0, h0, stored, c0 := bus.sda, bus.samples, bus.log, header, payload, crc;
      var read: bool;
      var first: byte;
      read, first := LowDensByteRead(EEPROM_ADDRESS, 0, header);
      ghost var h := ReadOutcome(sda, n0, EEPROM_ADDRESS, 0, h0, l0);
      if !read {
        GetRefused(sda, n0, l0, h0, stored, c0, h);
        header := first;
        return false;
      }
      ok := FetchRest(first);
    }

    /**
     * EEPROMGet after a header read that returned `first`: the payload
     * reads and the read of the CRC byte, then the verdict.
     */
    method FetchRest(first: byte) returns (ok: bool)
      requires |payload| == MAX_NUMBER_OF_PAYLOAD_BYTES
      modifies this`header, this`payload, this`crc, bus
      ensures [header] + (payload + [crc]) == GetRest(bus.sda, old(bus.samples), first, old(payload), old(crc), old(bus.log)).record
      ensures ok == GetRest(bus.sda, old(bus.samples), first, old(payload), old(crc), old(bus.log)).ok
      ensures bus.samples == old(bus.samples) + GetRest(bus.sda, old(bus.samples), first, old(payload), old(crc), old(bus.log)).used
      ensures bus.log == GetRest(bus.sda, old(bus.samples), first, old(payload), old(crc), old(bus.log)).log
    {
      ghost var sda, n0, l0, stored, c0 := bus.sda, bus.samples, bus.log, payload, crc;
      ghost var body := ReadsFrom(sda, n0, 1, stored, MAX_NUMBER_OF_PAYLOAD_BYTES, l0);
      var address, check := GetPayload(first);
      ghost var reply := ReadOutcome(sda, bus.samples, EEPROM_ADDRESS, address as bv32, c0, bus.log);
      var read: bool;
      var last: byte;
      read, last := LowDensByteRead(EEPROM_ADDRESS, address as bv32, crc);
      header, crc := first, last;
      ghost var sum := check;
      check := check ^ last;
      ok := first == HEADER && check == 0;
      GetFinish(sda, n0, l0, first, stored, c0, body, sum, reply, ok, [header] + (payload + [crc]), bus.samples, bus.log);
    }
  }
}
