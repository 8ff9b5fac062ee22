/**
 * The 1-Wire master of the base station, bit-banged on one open-drain pin at
 * standard speed. The master's effect is the sequence of line events it
 * produces (drive low, release, wait, sample); what it samples comes from a
 * script `line`, the set of sample numbers (counted from the first sample)
 * at which the line reads high. A slave's
 * reading of a write slot is modelled by `SlaveBits`: a slot whose low pulse
 * is shorter than 15 us is a 1, a longer one a 0 (the timing of Maxim
 * application note 126, table 2).
 */
module OneWire {
  import opened Common

  /** Standard-speed delays in microseconds. */
  const DELAY_A: nat := 6
  const DELAY_B: nat := 64
  const DELAY_C: nat := 60
  const DELAY_D: nat := 10
  const DELAY_E: nat := 9
  const DELAY_F: nat := 55
  const DELAY_G: nat := 0
  const DELAY_H: nat := 480
  const DELAY_I: nat := 70
  const DELAY_J: nat := 410

  /** 1-Wire ROM and DS18B20 function commands. */
  const OW_CMD_SEARCHROM: int := 0xF0
  const OW_CMD_MATCHROM: int := 0x55
  const OW_CMD_SKIPROM: int := 0xCC
  const OW_CONVERT_TEMPERATURE: int := 0x44
  const OW_READ_SCRATCHPAD: int := 0xBE

  datatype LineEvent = DriveLow | Release | Delay(us: nat) | Sample(high: bool)

  /** OW_reset: a 480 us low pulse, then the sampled presence level. */
  function ResetTrace(high: bool): seq<LineEvent>
  {
    [Delay(DELAY_G), DriveLow, Delay(DELAY_H), Release, Delay(DELAY_I), Sample(high), Delay(DELAY_J)]
  }

  /** OW_writeBit: a short low pulse for 1, a long one for 0, then the rest of the slot. */
  function WriteSlot(bit: bool): seq<LineEvent>
  {
    if bit then [DriveLow, Delay(DELAY_A), Release, Delay(DELAY_B)]
    else [DriveLow, Delay(DELAY_C), Release, Delay(DELAY_D)]
  }

  /** OW_readBit: a short low pulse, then the sampled level. */
  function ReadSlot(high: bool): seq<LineEvent>
  {
    [DriveLow, Delay(DELAY_A), Release, Delay(DELAY_E), Sample(high), Delay(DELAY_F)]
  }

  /** One write slot per bit, in order. */
  function WriteSlots(bits: seq<bool>): seq<LineEvent>
  {
    if |bits| == 0 then [] else WriteSlot(bits[0]) + WriteSlots(bits[1..])
  }

  /** One read slot per sampled level, in order. */
  function ReadSlots(levels: seq<bool>): seq<LineEvent>
  {
    if |levels| == 0 then [] else ReadSlot(levels[0]) + ReadSlots(levels[1..])
  }

  lemma {:induction false} WriteSlotsSnoc(bits: seq<bool>, b: bool)
    ensures WriteSlots(bits + [b]) == WriteSlots(bits) + WriteSlot(b)
    decreases |bits|
  {
    if |bits| == 0 {
      assert bits + [b] == [b];
      assert [b][1..] == [];
    } else {
      assert (bits + [b])[1..] == bits[1..] + [b];
      WriteSlotsSnoc(bits[1..], b);
      AppendAssoc(WriteSlot(bits[0]), WriteSlots(bits[1..]), WriteSlot(b));
    }
  }

  lemma {:induction false} ReadSlotsSnoc(levels: seq<bool>, b: bool)
    ensures ReadSlots(levels + [b]) == ReadSlots(levels) + ReadSlot(b)
    decreases |levels|
  {
    if |levels| == 0 {
      assert levels + [b] == [b];
      assert [b][1..] == [];
    } else {
      assert (levels + [b])[1..] == levels[1..] + [b];
      ReadSlotsSnoc(levels[1..], b);
      AppendAssoc(ReadSlot(levels[0]), ReadSlots(levels[1..]), ReadSlot(b));
    }
  }

  /** A slave's reading of a run of write slots: low for less than 15 us is a 1. */
  function SlaveBits(t: seq<LineEvent>): seq<bool>
  {
    if |t| >= 4 && t[0] == DriveLow && t[1].Delay? && t[2] == Release && t[3].Delay?
    then [t[1].us < 15] + SlaveBits(t[4..])
    else []
  }

  /** Every slot OW_writeBit produces is read by a slave as the bit that was written. */
  lemma {:induction false} SlaveReadsSlots(bits: seq<bool>)
    ensures SlaveBits(WriteSlots(bits)) == bits
    decreases |bits|
  {
    if |bits| > 0 {
      var t := WriteSlots(bits);
      assert t[4..] == WriteSlots(bits[1..]);
      SlaveReadsSlots(bits[1..]);
    }
  }

  /**
   * The low n bits of `d`, least significant first, as OW_writeByte takes
   * them: test bit 0, then shift right. Dafny's `%` and `/` by 2 agree with
   * `& 1` and an arithmetic `>> 1` on two's complement, negative `d` included.
   */
  function LsbBits(d: int, n: nat): (bits: seq<bool>)
    ensures |bits| == n
    decreases n
  {
    if n == 0 then [] else [d % 2 == 1] + LsbBits(d / 2, n - 1)
  }

  /** The value of bits given least significant first. */
  function FromLsb(bits: seq<bool>): (v: nat)
    ensures v < Pow2(|bits|)
  {
    if |bits| == 0 then 0 else (if bits[0] then 1 else 0) + 2 * FromLsb(bits[1..])
  }

  lemma MulSign(k: int, x: int)
    requires k > 0
    ensures x >= 1 ==> k * x >= k
    ensures x <= -1 ==> k * x <= -k
  {
  }

  /** Division with remainder is unique. */
  lemma DivModUnique(d: int, k: int, q: int, r: int)
    requires k > 0 && d == k * q + r && 0 <= r < k
    ensures d / k == q && d % k == r
  {
    var q0, r0 := d / k, d % k;
    assert k * (q - q0) == r0 - r;
    MulSign(k, q - q0);
  }

  lemma ModSplit(d: int, m: nat)
    requires m >= 1
    ensures d % (2 * m) == d % 2 + 2 * ((d / 2) % m)
  {
    var q, r := d / 2, d % 2;
    var q', r' := q / m, q % m;
    assert d == 2 * q + r;
    assert q == m * q' + r';
    assert d == (2 * m) * q' + (2 * r' + r);
    DivModUnique(d, 2 * m, q', 2 * r' + r);
  }

  /** The bits written, read back least significant first, are `d` modulo 2^n: `d & 0xFF` for a byte. */
  lemma {:induction false} LsbRoundTrip(d: int, n: nat)
    ensures FromLsb(LsbBits(d, n)) == d % Pow2(n)
    decreases n
  {
    if n > 0 {
      var bits := LsbBits(d, n);
      assert bits[1..] == LsbBits(d / 2, n - 1);
      LsbRoundTrip(d / 2, n - 1);
      ModSplit(d, Pow2(n - 1));
    }
  }

  lemma {:induction false} FromLsbSnoc(bits: seq<bool>, b: bool)
    ensures FromLsb(bits + [b]) == FromLsb(bits) + (if b then Pow2(|bits|) else 0)
    decreases |bits|
  {
    if |bits| == 0 {
      assert bits + [b] == [b];
      assert [b][1..] == [];
    } else {
      assert (bits + [b])[1..] == bits[1..] + [b];
      FromLsbSnoc(bits[1..], b);
    }
  }

  /** The value OW_readByte assembles has the first level read as bit 0 and the i-th as bit i. */
  lemma {:induction false} FromLsbBits(levels: seq<bool>)
    ensures LsbBits(FromLsb(levels), |levels|) == levels
    decreases |levels|
  {
    if |levels| > 0 {
      var v := FromLsb(levels);
      assert v % 2 == 1 <==> levels[0];
      assert v / 2 == FromLsb(levels[1..]);
      FromLsbBits(levels[1..]);
    }
  }

  lemma {:induction false} FromLsbZeros(n: nat)
    ensures FromLsb(seq(n, _ => false)) == 0
  {
    if n > 0 {
      assert seq(n, _ => false)[1..] == seq(n - 1, _ => false);
      FromLsbZeros(n - 1);
    }
  }

  /** OW_readByte's step: the byte halved, with the new level as bit 7, is the window moved on by one level. */
  lemma ShiftWindow(window: seq<bool>, levels: seq<bool>, v: int, b: bool)
    requires |levels| < 8 && window == seq(8 - |levels|, _ => false) + levels && v == FromLsb(window)
    ensures v / 2 + (if b then 0x80 else 0) == FromLsb(window[1..] + [b])
    ensures window[1..] + [b] == seq(8 - |levels| - 1, _ => false) + (levels + [b])
  {
    assert window[0] == false;
    FromLsbSnoc(window[1..], b);
    assert Pow2(7) == 0x80;
  }

  /**
   * A byte written with OW_writeByte is read by a slave as its eight bits,
   * least significant first; bits read back in the same order give `d & 0xFF`.
   */
  lemma ByteRoundTrip(d: int)
    ensures SlaveBits(WriteSlots(LsbBits(d, 8))) == LsbBits(d, 8)
    ensures FromLsb(LsbBits(d, 8)) == d % 0x100
  {
    SlaveReadsSlots(LsbBits(d, 8));
    LsbRoundTrip(d, 8);
    assert Pow2(8) == 0x100;
  }

  /** The byte OW_writeByte puts on the line: the low eight bits of its `int` argument. */
  function LowByte(d: int): (b: u8)
    ensures 0 <= d < 0x100 ==> b == d
    ensures (b - d) % 0x100 == 0
  {
    d % 0x100
  }

  /**
   * The line as the device drivers above the bit routines see it: one entry
   * per reset (with whether a presence pulse answered), byte written, byte
   * read and delay between them.
   */
  datatype WireOp = Presence(present: bool) | Wrote(b: u8) | Got(b: u8) | Pause(us: nat)

  /** One 1-Wire pin. */
  class Line {
    /** Every line event so far. */
    var trace: seq<LineEvent>
    /** The same history, one entry per driver-level call. */
    ghost var ops: seq<WireOp>
    /** Number of samples taken so far; indexes the script. */
    var samples: nat
    /** The samples at which the line reads high. */
    const line: iset<nat>

    constructor (line: iset<nat>)
      ensures this.line == line && trace == [] && samples == 0 && ops == []
    {
      ops := [];
      this.line := line;
      trace := [];
      samples := 0;
    }

    /** The levels of the next n samples from `from` on. */
    function Levels(from: nat, n: nat): (levels: seq<bool>)
      ensures |levels| == n && forall i :: 0 <= i < n ==> levels[i] == (from + i in line)
    {
      if n == 0 then [] else Levels(from, n - 1) + [from + n - 1 in line]
    }

    /** GPIO_ResetBits on the pin. */
    method Low()
      modifies this`trace
      ensures trace == old(trace) + [DriveLow]
    {
      trace := trace + [DriveLow];
    }

    /** GPIO_SetBits on the open-drain pin: the pull-up takes the line high unless a slave holds it. */
    method Free()
      modifies this`trace
      ensures trace == old(trace) + [Release]
    {
      trace := trace + [Release];
    }

    /** _DelayUS. */
    method Wait(us: nat)
      modifies this`trace
      ensures trace == old(trace) + [Delay(us)]
    {
      trace := trace + [Delay(us)];
    }

    /** GPIO_ReadInputDataBit. */
    method SampleLevel() returns (high: bool)
      modifies this`trace, this`samples
      ensures high == (old(samples) in line) && samples == old(samples) + 1
      ensures trace == old(trace) + [Sample(high)]
    {
      high := samples in line;
      samples := samples + 1;
      trace := trace + [Sample(high)];
    }

    /** OW_reset: 1 when no slave answered with a presence pulse, 0 otherwise. */
    method Reset() returns (result: int)
      modifies this`trace, this`samples, this`ops
      ensures result == (if old(samples) in line then 1 else 0) && samples == old(samples) + 1
      ensures trace == old(trace) + ResetTrace(old(samples) in line)
      ensures ops == old(ops) + [Presence(result == 0)]
    {
      ops := ops + [Presence(samples !in line)];
      Wait(DELAY_G);
      Low();
      Wait(DELAY_H);
      Free();
      Wait(DELAY_I);
      var high := SampleLevel();
      Wait(DELAY_J);
      result := if high then 1 else 0;
    }

    /** OW_writeBit: any nonzero `bit` writes a 1. */
    method WriteBit(bit: int)
      modifies this`trace
      ensures trace == old(trace) + WriteSlot(bit != 0)
    {
      if bit != 0 {
        Low();
        Wait(DELAY_A);
        Free();
        Wait(DELAY_B);
      } else {
        Low();
        Wait(DELAY_C);
        Free();
        Wait(DELAY_D);
      }
    }

    /** OW_readBit. */
    method ReadBit() returns (result: int)
      modifies this`trace, this`samples
      ensures result == (if old(samples) in line then 1 else 0) && samples == old(samples) + 1
      ensures trace == old(trace) + ReadSlot(old(samples) in line)
    {
      Low();
      Wait(DELAY_A);
      Free();
      Wait(DELAY_E);
      var high := SampleLevel();
      Wait(DELAY_F);
      result := if high then 1 else 0;
    }

    /** OW_writeByte: the low eight bits of `data`, least significant first. */
    method WriteByte(data: int)
      modifies this`trace, this`ops
      ensures trace == old(trace) + WriteSlots(LsbBits(data, 8))
      ensures ops == old(ops) + [Wrote(LowByte(data))]
    {
      var d := data;
      var loop := 0;
      while loop < 8
        invariant 0 <= loop <= 8
        invariant LsbBits(data, 8)[loop..] == LsbBits(d, 8 - loop)
        invariant trace == old(trace) + WriteSlots(LsbBits(data, 8)[..loop])
        invariant ops == old(ops)
      {
        WriteBit(d % 2);
        assert LsbBits(d, 8 - loop)[0] == (d % 2 == 1);
        assert LsbBits(data, 8)[..loop + 1] == LsbBits(data, 8)[..loop] + [d % 2 == 1];
        WriteSlotsSnoc(LsbBits(data, 8)[..loop], d % 2 == 1);
        AppendAssoc(old(trace), WriteSlots(LsbBits(data, 8)[..loop]), WriteSlot(d % 2 == 1));
        assert LsbBits(data, 8)[loop + 1..] == LsbBits(d, 8 - loop)[1..];
        d := d / 2;
        loop := loop + 1;
      }
      assert LsbBits(data, 8)[..8] == LsbBits(data, 8);
      ops := ops + [Wrote(LowByte(data))];
    }

    /** OW_readByte: the first bit read is bit 0 of the result, the eighth bit 7. */
    method ReadByte() returns (result: int)
      modifies this`trace, this`samples, this`ops
      ensures result == FromLsb(Levels(old(samples), 8)) && 0 <= result < 0x100
      ensures samples == old(samples) + 8
      ensures trace == old(trace) + ReadSlots(Levels(old(samples), 8))
      ensures ops == old(ops) + [Got(result)]
    {
      result := 0;
      var loop := 0;
      // the eight bits of `result`, least significant first
      ghost var window: seq<bool> := seq(8, _ => false);
      FromLsbZeros(8);
      while loop < 8
        invariant 0 <= loop <= 8 && samples == old(samples) + loop
        invariant |window| == 8 && result == FromLsb(window)
        invariant window == seq(8 - loop, _ => false) + Levels(old(samples), loop)
        invariant trace == old(trace) + ReadSlots(Levels(old(samples), loop))
        invariant ops == old(ops)
      {
        ghost var high := samples in line;
        result, window := ShiftInBit(result, old(samples), window);
        ReadSlotsSnoc(Levels(old(samples), loop), high);
        AppendAssoc(old(trace), ReadSlots(Levels(old(samples), loop)), ReadSlot(high));
        loop := loop + 1;
      }
      assert window == Levels(old(samples), 8);
      assert Pow2(8) == 0x100;
      ops := ops + [Got(result)];
    }

    /** One pass of OW_readByte's loop: the byte so far shifted down, the bit read into bit 7. */
    method ShiftInBit(result: int, ghost from: nat, ghost window: seq<bool>) returns (next: int, ghost window': seq<bool>)
      requires from <= samples < from + 8
      requires window == seq(8 - (samples - from), _ => false) + Levels(from, samples - from)
      requires result == FromLsb(window)
      modifies this`trace, this`samples
      ensures samples == old(samples) + 1
      ensures window' == seq(8 - (samples - from), _ => false) + Levels(from, samples - from)
      ensures next == FromLsb(window') && |window'| == 8
      ensures trace == old(trace) + ReadSlot(old(samples) in line)
    {
      ghost var levels := Levels(from, samples - from);
      next := result / 2;
      var bit := ReadBit();
      if bit != 0 {
        // bit 7 of `next` is clear here, so `|= 0x80` adds 0x80
        next := next + 0x80;
      }
      ShiftWindow(window, levels, result, bit == 1);
      window' := window[1..] + [bit == 1];
      assert Levels(from, samples - from) == levels + [bit == 1];
    }

    /** _DelayUS called by a device driver between its bus operations. */
    method DriverDelay(us: nat)
      modifies this`trace, this`ops
      ensures trace == old(trace) + [Delay(us)] && ops == old(ops) + [Pause(us)]
    {
      Wait(us);
      ops := ops + [Pause(us)];
    }
  }
}
