/**
 * The EEPROM's bit-banged I2C master on two open-drain pins, SCL and SDA.
 * The master's effect is its sequence of pin operations; what it reads from
 * SDA comes from a script `sda`, the set of sample numbers (counted from the
 * first sample) at which SDA reads high. `Run` is the bus as a slave sees it: a START or STOP when SDA changes
 * while SCL is high, and a clocked bit on each rising edge of SCL.
 */
module SwI2c {
  import opened Common

  /** ACKBIT and NAKBIT, the values byte_in takes for its acknowledge. */
  const ACKBIT: byte := 0x00
  const NAKBIT: byte := 0x80

  datatype Signal =
    | SdaHigh      // SDA_HIGH: SDA as output, released high
    | SdaLow       // SDA_LOW: SDA as output, driven low
    | SdaRelease   // Set_SDA_Input: SDA as input with pull-up
    | SclHigh
    | SclLow
    | Delay(us: nat)
    | Sample(high: bool)

  /** bstart. */
  function StartTrace(): seq<Signal>
  {
    [SdaHigh, Delay(2), SclHigh, Delay(2), SdaLow, Delay(2), SclLow, Delay(2)]
  }

  /** bstop. */
  function StopTrace(): seq<Signal>
  {
    [SclLow, Delay(2), SdaLow, Delay(2), SclHigh, Delay(2), SdaHigh]
  }

  /** bit_out: SDA set up, then one clock pulse. */
  function BitOutTrace(high: bool): seq<Signal>
  {
    [if high then SdaHigh else SdaLow, Delay(1), SclHigh, Delay(4), SclLow, Delay(1)]
  }

  /** bit_in: SDA released, one clock pulse, SDA sampled while SCL is high. */
  function BitInTrace(high: bool): seq<Signal>
  {
    [SdaRelease, SclHigh, Delay(4), Sample(high), SclLow, Delay(1)]
  }

  function BitOuts(bits: seq<bool>): seq<Signal>
  {
    if |bits| == 0 then [] else BitOuts(bits[..|bits| - 1]) + BitOutTrace(bits[|bits| - 1])
  }

  function BitIns(levels: seq<bool>): seq<Signal>
  {
    if |levels| == 0 then [] else BitIns(levels[..|levels| - 1]) + BitInTrace(levels[|levels| - 1])
  }

  lemma BitOutsSnoc(bits: seq<bool>, b: bool)
    ensures BitOuts(bits + [b]) == BitOuts(bits) + BitOutTrace(b)
  {
    assert (bits + [b])[..|bits|] == bits;
  }

  lemma BitOutsTake(bits: seq<bool>, i: nat)
    requires i < |bits|
    ensures BitOuts(bits[..i + 1]) == BitOuts(bits[..i]) + BitOutTrace(bits[i])
  {
    assert bits[..i + 1] == bits[..i] + [bits[i]];
    BitOutsSnoc(bits[..i], bits[i]);
  }

  /** The byte whose bits, most significant first, end in `bits`. */
  function FromMsb(bits: seq<bool>): byte
  {
    if |bits| == 0 then 0
    else (FromMsb(bits[..|bits| - 1]) << 1) | (if bits[|bits| - 1] then 1 else 0)
  }

  /** byte_in's step: the byte so far shifted up, with the sampled bit in bit 0. */
  lemma ShiftInSample(prev: byte, r: byte, high: bool)
    requires r & 0xFE == (prev << 1) & 0xFE && (r & 1 == 1) == high
    ensures r == (prev << 1) | (if high then 1 else 0)
  {
  }

  /** bit_in's result with bit 0 taken from the line, when the other bits were clear. */
  lemma AckValue(r: byte, prev: byte, high: bool)
    requires prev <= 1 && r & 0xFE == prev & 0xFE && (r & 1 == 1) == high
    ensures r == if high then 1 else 0
  {
  }

  /** The bits of `d`, most significant first. */
  function Bits(d: byte): (bits: seq<bool>)
    ensures |bits| == 8
  {
    [d & 0x80 != 0, d & 0x40 != 0, d & 0x20 != 0, d & 0x10 != 0,
     d & 0x08 != 0, d & 0x04 != 0, d & 0x02 != 0, d & 0x01 != 0]
  }

  /** `d` shifted left i places, one place at a time as byte_out does. */
  function Shl(d: byte, i: nat): byte
  {
    if i == 0 then d else Shl(d, i - 1) << 1
  }

  /** Bit 7 of `d` shifted left i places is the i-th bit byte_out sends. */
  lemma TopBit(d: byte, i: nat)
    requires i < 8
    ensures (Shl(d, i) & 0x80 != 0) == Bits(d)[i]
  {
    assert Shl(d, 1) == d << 1;
    assert Shl(d, 2) == d << 2;
    assert Shl(d, 3) == d << 3;
    assert Shl(d, 4) == d << 4;
    assert Shl(d, 5) == d << 5;
    assert Shl(d, 6) == d << 6;
    assert Shl(d, 7) == d << 7;
  }

  lemma FromBitsHigh(d: byte)
    ensures FromMsb(Bits(d)[..4]) == d >> 4
  {
    var m := Bits(d);
    assert m[..1][..0] == [];
    assert FromMsb(m[..1]) == d >> 7;
    assert m[..2][..1] == m[..1];
    assert FromMsb(m[..2]) == d >> 6;
    assert m[..3][..2] == m[..2];
    assert FromMsb(m[..3]) == d >> 5;
    assert m[..4][..3] == m[..3];
  }

  /** Eight bits sent most significant first and assembled the same way give back the byte. */
  lemma MsbRoundTrip(d: byte)
    ensures FromMsb(Bits(d)) == d
  {
    var m := Bits(d);
    FromBitsHigh(d);
    assert m[..5][..4] == m[..4];
    assert FromMsb(m[..5]) == d >> 3;
    assert m[..6][..5] == m[..5];
    assert FromMsb(m[..6]) == d >> 2;
    assert m[..7][..6] == m[..6];
    assert FromMsb(m[..7]) == d >> 1;
    assert m[..8] == m && m[..8][..7] == m[..7];
  }

  /** The levels of SDA and SCL, and whether the master drives SDA. */
  datatype Wire = Wire(sda: bool, scl: bool, driven: bool)

  /** What a slave sees: the conditions, the bits the master clocks out, and the bits the master samples. */
  datatype Symbol = Start | Stop | Clock(high: bool) | Sampled(high: bool)

  datatype Seen = Seen(wire: Wire, symbols: seq<Symbol>)

  function Next(w: Wire, e: Signal): Seen
  {
    match e
    case SdaHigh => Seen(Wire(true, w.scl, true), if w.scl && !w.sda then [Stop] else [])
    case SdaLow => Seen(Wire(false, w.scl, true), if w.scl && w.sda then [Start] else [])
    case SdaRelease => Seen(w.(driven := false), [])
    case SclHigh => Seen(w.(scl := true), if !w.scl && w.driven then [Clock(w.sda)] else [])
    case SclLow => Seen(w.(scl := false), [])
    case Delay(_) => Seen(w, [])
    case Sample(high) => Seen(w, [Sampled(high)])
  }

  /** The bus after a run of signals, and what it showed a slave. */
  function Run(w: Wire, t: seq<Signal>): Seen
  {
    if |t| == 0 then Seen(w, [])
    else
      var before := Run(w, t[..|t| - 1]);
      var step := Next(before.wire, t[|t| - 1]);
      Seen(step.wire, before.symbols + step.symbols)
  }

  lemma {:induction false} RunAppend(w: Wire, a: seq<Signal>, b: seq<Signal>)
    ensures Run(w, a + b).wire == Run(Run(w, a).wire, b).wire
    ensures Run(w, a + b).symbols == Run(w, a).symbols + Run(Run(w, a).wire, b).symbols
    decreases |b|
  {
    if |b| == 0 {
      assert a + b == a;
    } else {
      var init, e := b[..|b| - 1], b[|b| - 1];
      var mid := Run(w, a).wire;
      assert (a + b)[..|a + b| - 1] == a + init && (a + b)[|a + b| - 1] == e;
      RunAppend(w, a, init);
      var step := Next(Run(mid, init).wire, e);
      assert Run(w, a + b) == Seen(step.wire, Run(w, a + init).symbols + step.symbols);
      assert Run(mid, b) == Seen(step.wire, Run(mid, init).symbols + step.symbols);
      AppendAssoc(Run(w, a).symbols, Run(mid, init).symbols, step.symbols);
    }
  }

  /** Running the first k signals of a trace is running the first k - 1 and then the k-th. */
  lemma RunTake(w: Wire, t: seq<Signal>, k: nat)
    requires 0 < k <= |t|
    ensures Run(w, t[..k]) ==
      Seen(Next(Run(w, t[..k - 1]).wire, t[k - 1]).wire,
           Run(w, t[..k - 1]).symbols + Next(Run(w, t[..k - 1]).wire, t[k - 1]).symbols)
  {
    assert t[..k][..k - 1] == t[..k - 1];
  }

  /** The first half of bstart: both lines high. */
  lemma RunStartSetup(w: Wire)
    ensures Run(w, StartTrace()[..4]) ==
      Seen(Wire(true, true, true), if !w.scl then [Clock(true)] else if !w.sda then [Stop] else [])
  {
    var t := StartTrace()[..4];
    assert t[..0] == [];
    RunTake(w, t, 1);
    RunTake(w, t, 2);
    RunTake(w, t, 3);
    RunTake(w, t, 4);
    assert t[..4] == t;
  }

  /** The second half of bstart: SDA falls while SCL is high, then SCL falls. */
  lemma RunStartHold()
    ensures Run(Wire(true, true, true), StartTrace()[4..]) == Seen(Wire(false, false, true), [Start])
  {
    var w, t := Wire(true, true, true), StartTrace()[4..];
    assert t[..0] == [];
    RunTake(w, t, 1);
    RunTake(w, t, 2);
    RunTake(w, t, 3);
    RunTake(w, t, 4);
    assert t[..4] == t;
  }

  /**
   * bstart shows a START, SDA falling while SCL is high, and leaves both lines
   * low. From the idle bus that is all; after a byte (SCL low) the clock rise
   * that sets it up shows one more bit, a 1, and from SCL high with SDA low
   * the rise of SDA shows a STOP first.
   */
  lemma RunStart(w: Wire)
    ensures Run(w, StartTrace()) ==
      Seen(Wire(false, false, true),
           (if !w.scl then [Clock(true)] else if !w.sda then [Stop] else []) + [Start])
  {
    var t := StartTrace();
    assert t == t[..4] + t[4..];
    RunAppend(w, t[..4], t[4..]);
    RunStartSetup(w);
    RunStartHold();
  }

  /** The first half of bstop: both lines pulled low, which a slave does not see. */
  lemma RunStopSetup(w: Wire)
    ensures Run(w, StopTrace()[..4]) == Seen(Wire(false, false, true), [])
  {
    var t := StopTrace()[..4];
    assert t[..0] == [];
    RunTake(w, t, 1);
    RunTake(w, t, 2);
    RunTake(w, t, 3);
    RunTake(w, t, 4);
    assert t[..4] == t;
  }

  /** The second half of bstop: SCL rises with SDA low, then SDA rises while SCL is high. */
  lemma RunStopHold()
    ensures Run(Wire(false, false, true), StopTrace()[4..]) == Seen(Wire(true, true, true), [Clock(false), Stop])
  {
    var w, t := Wire(false, false, true), StopTrace()[4..];
    assert t[..0] == [];
    RunTake(w, t, 1);
    RunTake(w, t, 2);
    RunTake(w, t, 3);
    assert t[..3] == t;
  }

  /** bstop shows one clock with SDA low, then a STOP, SDA rising while SCL is high; the bus is left idle. */
  lemma RunStop(w: Wire)
    ensures Run(w, StopTrace()) == Seen(Wire(true, true, true), [Clock(false), Stop])
  {
    var t := StopTrace();
    assert t == t[..4] + t[4..];
    RunAppend(w, t[..4], t[4..]);
    RunStopSetup(w);
    RunStopHold();
  }

  /** The first half of bit_out: SDA set up, then the clock rise that shows it. */
  lemma RunBitOutRise(w: Wire, high: bool)
    requires !w.scl
    ensures Run(w, BitOutTrace(high)[..3]) == Seen(Wire(high, true, true), [Clock(high)])
  {
    var t := BitOutTrace(high)[..3];
    assert t[..0] == [];
    RunTake(w, t, 1);
    RunTake(w, t, 2);
    RunTake(w, t, 3);
    assert t[..3] == t;
  }

  /** The second half of bit_out: SCL falls again, which a slave does not see. */
  lemma RunBitOutFall(high: bool)
    ensures Run(Wire(high, true, true), BitOutTrace(high)[3..]) == Seen(Wire(high, false, true), [])
  {
    var w, t := Wire(high, true, true), BitOutTrace(high)[3..];
    assert t[..0] == [];
    RunTake(w, t, 1);
    RunTake(w, t, 2);
    RunTake(w, t, 3);
    assert t[..3] == t;
  }

  /** bit_out shows exactly one clocked bit, the one it was given, and leaves SCL low. */
  lemma RunBitOut(w: Wire, high: bool)
    requires !w.scl
    ensures Run(w, BitOutTrace(high)) == Seen(Wire(high, false, true), [Clock(high)])
  {
    var t := BitOutTrace(high);
    assert t == t[..3] + t[3..];
    RunAppend(w, t[..3], t[3..]);
    RunBitOutRise(w, high);
    RunBitOutFall(high);
  }

  /** The first half of bit_in: SDA released before SCL rises, so the rise shows no bit of the master's. */
  lemma RunBitInRise(w: Wire)
    requires !w.scl
    ensures Run(w, BitInTrace(false)[..3]) == Seen(Wire(w.sda, true, false), [])
  {
    var t := BitInTrace(false)[..3];
    assert t[..0] == [];
    RunTake(w, t, 1);
    RunTake(w, t, 2);
    RunTake(w, t, 3);
    assert t[..3] == t;
  }

  /** The second half of bit_in: the sample, then SCL falls. */
  lemma RunBitInFall(sda: bool, high: bool)
    ensures Run(Wire(sda, true, false), BitInTrace(high)[3..]) == Seen(Wire(sda, false, false), [Sampled(high)])
  {
    var w, t := Wire(sda, true, false), BitInTrace(high)[3..];
    assert t[..0] == [];
    RunTake(w, t, 1);
    RunTake(w, t, 2);
    RunTake(w, t, 3);
    assert t[..3] == t;
  }

  /** bit_in shows no clocked bit of the master's, only its sample, and leaves SCL low and SDA released. */
  lemma RunBitIn(w: Wire, high: bool)
    requires !w.scl
    ensures Run(w, BitInTrace(high)) == Seen(Wire(w.sda, false, false), [Sampled(high)])
  {
    var t := BitInTrace(high);
    assert t == BitInTrace(false)[..3] + t[3..];
    RunAppend(w, BitInTrace(false)[..3], t[3..]);
    RunBitInRise(w);
    RunBitInFall(w.sda, high);
  }

  function Clocks(bits: seq<bool>): (s: seq<Symbol>)
    ensures |s| == |bits| && forall k :: 0 <= k < |bits| ==> s[k] == Clock(bits[k])
  {
    seq(|bits|, k requires 0 <= k < |bits| => Clock(bits[k]))
  }

  function Sampleds(levels: seq<bool>): (s: seq<Symbol>)
    ensures |s| == |levels| && forall k :: 0 <= k < |levels| ==> s[k] == Sampled(levels[k])
  {
    seq(|levels|, k requires 0 <= k < |levels| => Sampled(levels[k]))
  }

  lemma ClocksSnoc(bits: seq<bool>, b: bool)
    ensures Clocks(bits + [b]) == Clocks(bits) + [Clock(b)]
  {
  }

  lemma SampledsSnoc(levels: seq<bool>, l: bool)
    ensures Sampleds(levels + [l]) == Sampleds(levels) + [Sampled(l)]
  {
  }

  lemma {:induction false} RunBitOuts(w: Wire, bits: seq<bool>)
    requires !w.scl
    ensures !Run(w, BitOuts(bits)).wire.scl
    ensures Run(w, BitOuts(bits)).symbols == Clocks(bits)
    decreases |bits|
  {
    if |bits| > 0 {
      var init, b := bits[..|bits| - 1], bits[|bits| - 1];
      assert bits == init + [b];
      RunBitOuts(w, init);
      RunAppend(w, BitOuts(init), BitOutTrace(b));
      RunBitOut(Run(w, BitOuts(init)).wire, b);
      ClocksSnoc(init, b);
    }
  }

  lemma {:induction false} RunBitIns(w: Wire, levels: seq<bool>)
    requires !w.scl
    ensures !Run(w, BitIns(levels)).wire.scl
    ensures Run(w, BitIns(levels)).symbols == Sampleds(levels)
    decreases |levels|
  {
    if |levels| > 0 {
      var init, l := levels[..|levels| - 1], levels[|levels| - 1];
      assert levels == init + [l];
      RunBitIns(w, init);
      RunAppend(w, BitIns(init), BitInTrace(l));
      RunBitIn(Run(w, BitIns(init)).wire, l);
      SampledsSnoc(init, l);
    }
  }

  /** The levels of SDA at the n samples from `from` on. */
  function Levels(sda: iset<nat>, from: nat, n: nat): (levels: seq<bool>)
    ensures |levels| == n && forall i :: 0 <= i < n ==> levels[i] == (from + i in sda)
  {
    if n == 0 then [] else Levels(sda, from, n - 1) + [from + n - 1 in sda]
  }

  /** One more sample: its level goes in bit 0 of the byte and at the end of the trace. */
  lemma LevelsNext(sda: iset<nat>, from: nat, i: nat, prev: byte, r: byte)
    requires prev == FromMsb(Levels(sda, from, i))
    requires r & 0xFE == (prev << 1) & 0xFE && (r & 1 == 1) == (from + i in sda)
    ensures r == FromMsb(Levels(sda, from, i + 1))
    ensures BitIns(Levels(sda, from, i + 1)) == BitIns(Levels(sda, from, i)) + BitInTrace(from + i in sda)
  {
    var levels := Levels(sda, from, i + 1);
    assert levels[..i] == Levels(sda, from, i);
    ShiftInSample(prev, r, from + i in sda);
  }

  /** byte_out: the eight bits of `d`, then the acknowledge sampled at `ackLevel`. */
  function ByteOutTrace(d: byte, ackLevel: bool): seq<Signal>
  {
    BitOuts(Bits(d)) + BitInTrace(ackLevel)
  }

  /** byte_in: eight samples, then its own acknowledge clocked out. */
  function ByteInTrace(levels: seq<bool>, ack: byte): seq<Signal>
  {
    BitIns(levels) + BitOutTrace(ack != 0)
  }

  /** The bus operations the drivers are written in. */
  datatype Op =
    | Begin                               // bstart
    | End                                 // bstop
    | Out(data: byte, ackLevel: bool)     // byte_out, and the level of its acknowledge
    | In(levels: seq<bool>, ack: byte)    // byte_in, the levels it sampled and its own acknowledge
    | Wait(us: nat)                       // _DelayUS

  /** A history of bus operations, the latest last. */
  datatype Log = Nil | Snoc(init: Log, last: Op)

  /**
   * byte_out shows the slave the eight bits of `d`, most significant first,
   * and then samples the slave's acknowledge; byte_in samples eight bits and
   * clocks out its acknowledge, low for ACKBIT and high for any other value.
   */
  lemma RunBytes(w: Wire, d: byte, ackLevel: bool, levels: seq<bool>, ack: byte)
    requires !w.scl
    ensures Run(w, ByteOutTrace(d, ackLevel)).symbols == Clocks(Bits(d)) + [Sampled(ackLevel)]
    ensures Run(w, ByteInTrace(levels, ack)).symbols == Sampleds(levels) + [Clock(ack != 0)]
  {
    RunBitOuts(w, Bits(d));
    RunAppend(w, BitOuts(Bits(d)), BitInTrace(ackLevel));
    RunBitIn(Run(w, BitOuts(Bits(d))).wire, ackLevel);
    RunBitIns(w, levels);
    RunAppend(w, BitIns(levels), BitOutTrace(ack != 0));
    RunBitOut(Run(w, BitIns(levels)).wire, ack != 0);
  }

  /** The two pins of the EEPROM bus. */
  class Bus {
    /** Every pin operation so far. */
    var trace: seq<Signal>
    /** Number of SDA samples so far; indexes the script. */
    var samples: nat
    /** The samples at which SDA reads high. */
    const sda: iset<nat>
    /** The same history as bus operations. */
    ghost var log: Log

    constructor (sda: iset<nat>)
      ensures this.sda == sda && trace == [] && samples == 0 && log == Nil
    {
      this.sda := sda;
      trace := [];
      samples := 0;
      log := Nil;
    }

    /** _DelayUS. */
    method DelayUs(us: nat)
      modifies this`trace, this`log
      ensures trace == old(trace) + [Delay(us)] && log == Snoc(old(log), Wait(us))
    {
      trace := trace + [Delay(us)];
      log := Snoc(log, Wait(us));
    }

    /** One pin operation or delay. */
    method Put(e: Signal)
      requires !e.Sample?
      modifies this`trace
      ensures trace == old(trace) + [e]
    {
      trace := trace + [e];
    }

    /** GPIO_ReadInputDataBit on SDA. */
    method ReadSda() returns (high: bool)
      modifies this`trace, this`samples
      ensures high == (old(samples) in sda) && samples == old(samples) + 1
      ensures trace == old(trace) + [Sample(high)]
    {
      high := (samples in sda);
      samples := samples + 1;
      trace := trace + [Sample(high)];
    }

    /** bstart. */
    method BStart()
      modifies this`trace, this`log
      ensures trace == old(trace) + StartTrace() && log == Snoc(old(log), Begin)
    {
      Put(SdaHigh);
      Put(Delay(2));
      Put(SclHigh);
      Put(Delay(2));
      Put(SdaLow);
      Put(Delay(2));
      Put(SclLow);
      Put(Delay(2));
      log := Snoc(log, Begin);
    }

    /** bstop. */
    method BStop()
      modifies this`trace, this`log
      ensures trace == old(trace) + StopTrace() && log == Snoc(old(log), End)
    {
      Put(SclLow);
      Put(Delay(2));
      Put(SdaLow);
      Put(Delay(2));
      Put(SclHigh);
      Put(Delay(2));
      Put(SdaHigh);
      log := Snoc(log, End);
    }

    /** bit_out: SDA low for 0 and high for any other value. */
    method BitOut(data: byte)
      modifies this`trace
      ensures trace == old(trace) + BitOutTrace(data != 0)
    {
      if data == 0 {
        Put(SdaLow);
      } else {
        Put(SdaHigh);
      }
      Put(Delay(1));
      Put(SclHigh);
      Put(Delay(4));
      Put(SclLow);
      Put(Delay(1));
    }

    /** bit_in: replaces bit 0 of `data` by the level of SDA and keeps the others. */
    method BitIn(data: byte) returns (result: byte)
      modifies this`trace, this`samples
      ensures result & 0xFE == data & 0xFE
      ensures (result & 1 == 1) == (old(samples) in sda)
      ensures samples == old(samples) + 1
      ensures trace == old(trace) + BitInTrace((old(samples) in sda))
    {
      Put(SdaRelease);
      Put(SclHigh);
      Put(Delay(4));
      result := data & 0xFE;
      var high := ReadSda();
      if high {
        result := result | 0x01;
      }
      Put(SclLow);
      Put(Delay(1));
    }

    /** The loop of byte_out: the bits of `data`, most significant first; returns the last bit sent. */
    method BitsOut(data: byte) returns (last: byte)
      modifies this`trace
      ensures last == if data & 1 != 0 then 1 else 0
      ensures trace == old(trace) + BitOuts(Bits(data))
    {
      last := 0;
      ghost var bits := Bits(data);
      var d := data;
      var i := 0;
      while i < 8
        invariant 0 <= i <= 8 && d == Shl(data, i)
        invariant i > 0 ==> last == if bits[i - 1] then 1 else 0
        invariant trace == old(trace) + BitOuts(bits[..i])
      {
        TopBit(data, i);
        last := if d & 0x80 != 0 then 1 else 0;
        assert (last != 0) == bits[i];
        BitOut(last);
        BitOutsTake(bits, i);
        AppendAssoc(old(trace), BitOuts(bits[..i]), BitOutTrace(bits[i]));
        d := d << 1;
        i := i + 1;
      }
      assert bits[..8] == bits;
    }

    /** byte_out: the bits of `data`, most significant first; returns the acknowledge, 0 when SDA was low. */
    method ByteOut(data: byte) returns (ack: byte)
      modifies this`trace, this`samples, this`log
      ensures ack == if (old(samples) in sda) then 1 else 0
      ensures samples == old(samples) + 1
      ensures trace == old(trace) + ByteOutTrace(data, (old(samples) in sda))
      ensures log == Snoc(old(log), Out(data, (old(samples) in sda)))
    {
      log := Snoc(log, Out(data, (samples in sda)));
      ack := BitsOut(data);
      ghost var prev := ack;
      ack := BitIn(ack);
      AckValue(ack, prev, (old(samples) in sda));
      AppendAssoc(old(trace), BitOuts(Bits(data)), BitInTrace((old(samples) in sda)));
    }

    /** The loop of byte_in: eight samples assembled most significant first. */
    method BitsIn() returns (retval: byte)
      modifies this`trace, this`samples
      ensures retval == FromMsb(Levels(sda, old(samples), 8))
      ensures samples == old(samples) + 8
      ensures trace == old(trace) + BitIns(Levels(sda, old(samples), 8))
    {
      retval := 0;
      for i := 0 to 8
        invariant samples == old(samples) + i
        invariant retval == FromMsb(Levels(sda, old(samples), i))
        invariant trace == old(trace) + BitIns(Levels(sda, old(samples), i))
      {
        ghost var prev := retval;
        retval := BitIn(retval << 1);
        LevelsNext(sda, old(samples), i, prev, retval);
        AppendAssoc(old(trace), BitIns(Levels(sda, old(samples), i)), BitInTrace(old(samples) + i in sda));
      }
    }

    /** byte_in: eight samples assembled most significant first, then `ack` clocked out. */
    method ByteIn(ack: byte) returns (retval: byte)
      modifies this`trace, this`samples, this`log
      ensures retval == FromMsb(Levels(sda, old(samples), 8))
      ensures samples == old(samples) + 8
      ensures trace == old(trace) + ByteInTrace(Levels(sda, old(samples), 8), ack)
      ensures log == Snoc(old(log), In(Levels(sda, old(samples), 8), ack))
    {
      ghost var levels := Levels(sda, samples, 8);
      retval := BitsIn();
      BitOut(ack);
      AppendAssoc(old(trace), BitIns(levels), BitOutTrace(ack != 0));
      log := Snoc(log, In(levels, ack));
    }
  }
}
