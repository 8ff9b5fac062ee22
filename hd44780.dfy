/**
 * The HD44780 character LCD on the base station, driven in 4-bit mode over
 * pins PA0..PA5 (RS, EN, D4, D5, D6, D7). The driver's effect is the
 * sequence of GPIO writes and delays it issues. The controller side is
 * modelled by `Run`: it follows the port's output register and latches the
 * data lines, with the level of RS, on every falling edge of EN; in 4-bit
 * mode it pairs the latched nibbles, high nibble first, into bytes.
 */
module Hd44780 {
  import opened Common

  /** The GPIO_Pin_x masks of the LCD lines. */
  const RS: byte := 0x01
  const EN: byte := 0x02
  const D4: byte := 0x04
  const D5: byte := 0x08
  const D6: byte := 0x10
  const D7: byte := 0x20
  const ALL_PINS: byte := 0x3F

  /** LCD_REGISTER_TYPE: which register a byte is written to. */
  datatype RegisterType = Command | Data

  /** GPIO_SetBits (high) or GPIO_ResetBits (low) on a pin mask, and the busy-wait delays. */
  datatype PinEvent = Pins(mask: byte, high: bool) | Delay(us: nat)

  const LCD_CLEAR: byte := 0x01

  // ---------------------------------------------------------------------
  // The controller's view of the pins
  // ---------------------------------------------------------------------

  /** Four data lines latched together, with the level RS had. */
  datatype Nibble = Nibble(rs: bool, value: byte)

  /** The output register's low byte after a trace, and the nibbles latched along it. */
  datatype Observed = Observed(odr: byte, nibbles: seq<Nibble>)

  /** The value on D7..D4. */
  function DataValue(odr: byte): (v: byte)
    ensures v < 16
  {
    (odr >> 2) & 0x0F
  }

  /** One event: the new output register, and the nibble latched if EN fell. */
  function Step(odr: byte, e: PinEvent): Observed
  {
    match e
    case Delay(_) => Observed(odr, [])
    case Pins(mask, h) =>
      var n := if h then odr | mask else odr & !mask;
      Observed(n, if odr & EN != 0 && n & EN == 0 then [Nibble(odr & RS != 0, DataValue(odr))] else [])
  }

  /** The controller's reading of a trace from the register value `odr`. */
  function Run(odr: byte, t: seq<PinEvent>): Observed
  {
    if |t| == 0 then Observed(odr, [])
    else
      var r := Run(odr, t[..|t| - 1]);
      var s := Step(r.odr, t[|t| - 1]);
      Observed(s.odr, r.nibbles + s.nibbles)
  }

  /** A byte as the controller takes it in 4-bit mode. */
  datatype Transfer = Transfer(reg: RegisterType, value: byte)

  function Register(rs: bool): RegisterType
  {
    if rs then Data else Command
  }

  /** The controller in 4-bit mode: nibbles paired, high nibble first. */
  function Received(nibs: seq<Nibble>): (r: seq<Transfer>)
    ensures |r| == |nibs| / 2
  {
    if |nibs| < 2 then []
    else [Transfer(Register(nibs[0].rs), (nibs[0].value << 4) | nibs[1].value)] + Received(nibs[2..])
  }

  /** The nibbles that writing `bytes` to register `t` latches, in order. */
  function NibblesOf(bytes: seq<byte>, t: RegisterType): (n: seq<Nibble>)
    ensures |n| == 2 * |bytes|
  {
    if |bytes| == 0 then []
    else
      var b := bytes[|bytes| - 1];
      NibblesOf(bytes[..|bytes| - 1], t) + [Nibble(t == Data, b >> 4), Nibble(t == Data, b & 0x0F)]
  }

  /** Every byte of `bytes`, written to register `t`. */
  function Transfers(bytes: seq<byte>, t: RegisterType): (r: seq<Transfer>)
    ensures |r| == |bytes| && forall k :: 0 <= k < |bytes| ==> r[k] == Transfer(t, bytes[k])
  {
    seq(|bytes|, k requires 0 <= k < |bytes| => Transfer(t, bytes[k]))
  }

  /** A byte's high and low nibble, joined, give the byte back. */
  lemma NibbleJoin(b: byte)
    ensures ((b >> 4) << 4) | (b & 0x0F) == b
  {
  }

  lemma {:induction false} ReceivedAppend(a: seq<Nibble>, b: seq<Nibble>)
    requires |a| % 2 == 0
    ensures Received(a + b) == Received(a) + Received(b)
    decreases |a|
  {
    if |a| >= 2 {
      assert (a + b)[2..] == a[2..] + b;
      ReceivedAppend(a[2..], b);
    } else {
      assert a + b == b;
    }
  }

  /** Splitting bytes into nibbles and pairing them again gives the bytes back, with their register. */
  lemma {:induction false} NibblesRoundTrip(bytes: seq<byte>, t: RegisterType)
    ensures Received(NibblesOf(bytes, t)) == Transfers(bytes, t)
    decreases |bytes|
  {
    if |bytes| > 0 {
      var b := bytes[|bytes| - 1];
      var init := bytes[..|bytes| - 1];
      var pair := [Nibble(t == Data, b >> 4), Nibble(t == Data, b & 0x0F)];
      NibblesRoundTrip(init, t);
      ReceivedAppend(NibblesOf(init, t), pair);
      PairReceived(b, t);
      assert Transfers(bytes, t) == Transfers(init, t) + [Transfer(t, b)];
    }
  }

  /** One byte's two nibbles are received as that byte. */
  lemma PairReceived(b: byte, t: RegisterType)
    ensures Received([Nibble(t == Data, b >> 4), Nibble(t == Data, b & 0x0F)]) == [Transfer(t, b)]
  {
    var pair := [Nibble(t == Data, b >> 4), Nibble(t == Data, b & 0x0F)];
    assert pair[2..] == [];
    assert Register(t == Data) == t;
    NibbleJoin(b);
  }

  lemma {:induction false} NibblesOfAppend(a: seq<byte>, b: seq<byte>, t: RegisterType)
    ensures NibblesOf(a + b, t) == NibblesOf(a, t) + NibblesOf(b, t)
    decreases |b|
  {
    if |b| == 0 {
      assert a + b == a;
    } else {
      var b' := b[..|b| - 1];
      assert (a + b)[..|a + b| - 1] == a + b';
      NibblesOfAppend(a, b', t);
    }
  }

  // ---------------------------------------------------------------------
  // The pin traces of the driver functions
  // ---------------------------------------------------------------------

  /** strobeEN: EN high for 100 us, then low for 100 us. */
  function StrobeTrace(): seq<PinEvent>
  {
    [Pins(EN, true), Delay(100), Pins(EN, false), Delay(100)]
  }

  /** lcdNibble: D7..D4 from bits 3..0, then one strobe. */
  function NibbleTrace(n: byte): (t: seq<PinEvent>)
    ensures |t| == 8
  {
    [Pins(D7, n & 0x08 != 0), Pins(D6, n & 0x04 != 0), Pins(D5, n & 0x02 != 0), Pins(D4, n & 0x01 != 0)]
    + StrobeTrace()
  }

  /** lcdWrite: EN low, RS low for a command and high for data, high nibble, low nibble. */
  function WriteTrace(b: byte, t: RegisterType): seq<PinEvent>
  {
    [Pins(EN, false), Pins(RS, t == Data)] + NibbleTrace(b >> 4) + NibbleTrace(b & 0x0F)
  }

  /** lcdWrite of every byte of `bytes`, in order. */
  function Writes(bytes: seq<byte>, t: RegisterType): seq<PinEvent>
  {
    if |bytes| == 0 then [] else Writes(bytes[..|bytes| - 1], t) + WriteTrace(bytes[|bytes| - 1], t)
  }

  /** A C string: the bytes before the first NUL. */
  function CString(s: seq<byte>): (p: seq<byte>)
    ensures |p| <= |s| && p == s[..|p|] && 0 !in p
    ensures |p| < |s| ==> s[|p|] == 0
  {
    if |s| == 0 || s[0] == 0 then [] else [s[0]] + CString(s[1..])
  }

  /** The string ends at the first NUL and nowhere else. */
  lemma {:induction false} CStringAt(s: seq<byte>, i: nat)
    requires i < |s| && s[i] == 0 && 0 !in s[..i]
    ensures CString(s) == s[..i]
    decreases i
  {
    if i > 0 {
      assert s[0] == s[..i][0];
      assert s[1..][..i - 1] == s[..i][1..];
      CStringAt(s[1..], i - 1);
    }
  }

  /**
   * The position command of lcdChar and lcdPrint for row y, column x; the
   * byte addition wraps as the cast to uint8_t does. A row outside 1..4
   * leaves the command byte uninitialised in the source, so callers must
   * name one of the four.
   */
  function Position(y: byte, x: byte): (c: byte)
    requires 1 <= y <= 4
  {
    var base: byte := if y == 1 then 127 else if y == 2 then 191 else if y == 3 then 147 else 211;
    base + x
  }

  // ---------------------------------------------------------------------
  // The HD44780 instruction set
  // ---------------------------------------------------------------------

  /** The instruction a byte written to the command register encodes. */
  datatype Instruction =
    | NoOperation
    | ClearDisplay
    | ReturnHome
    | EntryModeSet(increment: bool, shift: bool)
    | DisplayControl(display: bool, cursor: bool, blink: bool)
    | CursorShift(display: bool, right: bool)
    | FunctionSet(eightBit: bool, twoLines: bool, font5x10: bool)
    | SetCgramAddress(cg: byte)
    | SetDdramAddress(dd: byte)

  /** Decoding by the highest set bit, as the controller does. */
  function Decode(b: byte): Instruction
  {
    if b & 0x80 != 0 then SetDdramAddress(b & 0x7F)
    else if b & 0x40 != 0 then SetCgramAddress(b & 0x3F)
    else if b & 0x20 != 0 then FunctionSet(b & 0x10 != 0, b & 0x08 != 0, b & 0x04 != 0)
    else if b & 0x10 != 0 then CursorShift(b & 0x08 != 0, b & 0x04 != 0)
    else if b & 0x08 != 0 then DisplayControl(b & 0x04 != 0, b & 0x02 != 0, b & 0x01 != 0)
    else if b & 0x04 != 0 then EntryModeSet(b & 0x02 != 0, b & 0x01 != 0)
    else if b & 0x02 != 0 then ReturnHome
    else if b == 0x01 then ClearDisplay
    else NoOperation
  }

  /** The display-data address at which each line of a 20x4 module starts. */
  function RowStart(y: byte): byte
    requires 1 <= y <= 4
  {
    if y == 1 then 0x00 else if y == 2 then 0x40 else if y == 3 then 0x14 else 0x54
  }

  /**
   * For a column 1..20, the position command sets the display-data address
   * of that cell, counting columns from 1; distinct cells get distinct
   * commands.
   */
  lemma PositionAddress(y: byte, x: byte, y': byte, x': byte)
    requires 1 <= y <= 4 && 1 <= x <= 20 && 1 <= y' <= 4 && 1 <= x' <= 20
    ensures Decode(Position(y, x)) == SetDdramAddress(RowStart(y) + x - 1)
    ensures Position(y, x) == Position(y', x') ==> y == y' && x == x'
  {
  }

  /** The commands initLCD sends once in 4-bit mode. */
  function InitCommands(): seq<byte>
  {
    [0x28, 0x0C, LCD_CLEAR, 0x06, LCD_CLEAR]
  }

  /** The nibbles initLCD sends alone, while the controller is still in 8-bit mode. */
  function FunctionSetNibbles(): seq<Nibble>
  {
    [Nibble(false, 3), Nibble(false, 3), Nibble(false, 3), Nibble(false, 2)]
  }

  /** The nibbles the controller latches during initLCD: three 8-bit function sets, the switch to 4 bits, then the commands. */
  function InitNibbles(): seq<Nibble>
  {
    FunctionSetNibbles() + NibblesOf(InitCommands(), Command)
  }

  /**
   * initLCD's effect on the controller: while it is still in 8-bit mode
   * every nibble is a function set on D7..D4 (three times 8-bit, then
   * 4-bit); after that the commands select two lines of 5x8 dots, display
   * on without cursor or blinking, clear, left-to-right entry, clear.
   */
  lemma InitInstructions()
    ensures forall k :: 0 <= k < 4 ==> !InitNibbles()[k].rs
    ensures Decode(InitNibbles()[0].value << 4) == FunctionSet(true, false, false)
    ensures Decode(InitNibbles()[3].value << 4) == FunctionSet(false, false, false)
    ensures Received(InitNibbles()[4..]) == Transfers(InitCommands(), Command)
    ensures Decode(InitCommands()[0]) == FunctionSet(false, true, false)
    ensures Decode(InitCommands()[1]) == DisplayControl(true, false, false)
    ensures Decode(InitCommands()[2]) == ClearDisplay && Decode(InitCommands()[4]) == ClearDisplay
    ensures Decode(InitCommands()[3]) == EntryModeSet(true, false)
  {
    assert InitNibbles()[4..] == NibblesOf(InitCommands(), Command);
    NibblesRoundTrip(InitCommands(), Command);
  }

  /** initLCD's two resets of every LCD pin around the port set-up, then 40 ms for the controller. */
  function PortResetTrace(): seq<PinEvent>
  {
    [Pins(ALL_PINS, false), Pins(ALL_PINS, false), Delay(40000)]
  }

  /** initLCD's four single nibbles: 8-bit function set three times, then the switch to 4 bits. */
  function ModeTrace(): seq<PinEvent>
  {
    NibbleTrace(3) + [Delay(5000)] + NibbleTrace(3) + [Delay(5000)]
    + NibbleTrace(3) + [Delay(5000)] + NibbleTrace(2) + [Delay(5000)]
  }

  /** initLCD in 4-bit mode up to the first clear: function set, display control, clear. */
  function DisplaySetupTrace(): seq<PinEvent>
  {
    WriteTrace(0x28, Command) + [Delay(5000)]
    + WriteTrace(0x0C, Command) + [Delay(8000)]
    + WriteTrace(LCD_CLEAR, Command) + [Delay(2000)] + [Delay(5000)]
  }

  /** The rest of initLCD: entry mode, clear, then RS left high. */
  function EntrySetupTrace(): seq<PinEvent>
  {
    WriteTrace(0x06, Command) + [Delay(5000)]
    + WriteTrace(LCD_CLEAR, Command) + [Delay(2000)]
    + [Pins(RS, true)]
  }

  // ---------------------------------------------------------------------
  // What the controller latches from the driver's traces
  // ---------------------------------------------------------------------

  lemma RunSnoc(odr: byte, t: seq<PinEvent>, e: PinEvent)
    ensures Run(odr, t + [e]) ==
      Observed(Step(Run(odr, t).odr, e).odr, Run(odr, t).nibbles + Step(Run(odr, t).odr, e).nibbles)
  {
    assert (t + [e])[..|t|] == t;
  }

  /** Reading two traces one after the other is reading their concatenation. */
  lemma {:induction false} RunAppend(odr: byte, a: seq<PinEvent>, b: seq<PinEvent>)
    ensures Run(odr, a + b) ==
      Observed(Run(Run(odr, a).odr, b).odr, Run(odr, a).nibbles + Run(Run(odr, a).odr, b).nibbles)
    decreases |b|
  {
    if |b| == 0 {
      assert a + b == a;
    } else {
      var b' := b[..|b| - 1];
      var e := b[|b| - 1];
      assert a + b == (a + b') + [e];
      assert b == b' + [e];
      RunAppend(odr, a, b');
      RunSnoc(odr, a + b', e);
      RunSnoc(Run(odr, a).odr, b', e);
    }
  }

  /** One strobe with EN low before it latches D7..D4 and RS once and leaves the register as it was. */
  lemma RunStrobe(odr: byte)
    requires odr & EN == 0
    ensures Run(odr, StrobeTrace()) == Observed(odr, [Nibble(odr & RS != 0, DataValue(odr))])
  {
    var e0, e1, e2, e3 := Pins(EN, true), Delay(100), Pins(EN, false), Delay(100);
    assert StrobeTrace() == [e0] + [e1] + [e2] + [e3];
    RunSnoc(odr, [], e0);
    assert [] + [e0] == [e0];
    RunSnoc(odr, [e0], e1);
    RunSnoc(odr, [e0] + [e1], e2);
    RunSnoc(odr, [e0] + [e1] + [e2], e3);
  }

  /** lcdNibble's four data pins: nothing latched, D7..D4 hold the nibble, RS and EN untouched. */
  lemma RunDataPins(odr: byte, n: byte)
    requires odr & EN == 0
    ensures Run(odr, NibbleTrace(n)[..4]).nibbles == []
    ensures var o := Run(odr, NibbleTrace(n)[..4]).odr;
      DataValue(o) == n & 0x0F && o & RS == odr & RS && o & EN == 0
  {
    var e0, e1, e2, e3 := Pins(D7, n & 0x08 != 0), Pins(D6, n & 0x04 != 0), Pins(D5, n & 0x02 != 0), Pins(D4, n & 0x01 != 0);
    assert NibbleTrace(n)[..4] == [e0] + [e1] + [e2] + [e3];
    RunSnoc(odr, [], e0);
    assert [] + [e0] == [e0];
    RunSnoc(odr, [e0], e1);
    RunSnoc(odr, [e0] + [e1], e2);
    RunSnoc(odr, [e0] + [e1] + [e2], e3);
  }

  /** lcdNibble with EN low latches exactly the low four bits of `n`, with RS, and leaves RS and EN alone. */
  lemma RunNibble(odr: byte, n: byte)
    requires odr & EN == 0
    ensures Run(odr, NibbleTrace(n)).nibbles == [Nibble(odr & RS != 0, n & 0x0F)]
    ensures Run(odr, NibbleTrace(n)).odr & (RS | EN) == odr & (RS | EN)
  {
    var d := NibbleTrace(n)[..4];
    assert NibbleTrace(n) == d + StrobeTrace();
    RunDataPins(odr, n);
    var o := Run(odr, d).odr;
    RunAppend(odr, d, StrobeTrace());
    RunStrobe(o);
  }

  /** The start of lcdWrite: EN low, then RS for the register; nothing is latched. */
  lemma RunSelect(odr: byte, t: RegisterType)
    requires odr & EN == 0
    ensures Run(odr, [Pins(EN, false), Pins(RS, t == Data)]).nibbles == []
    ensures Run(odr, [Pins(EN, false), Pins(RS, t == Data)]).odr & EN == 0
    ensures (Run(odr, [Pins(EN, false), Pins(RS, t == Data)]).odr & RS != 0) == (t == Data)
  {
    var p := [Pins(EN, false), Pins(RS, t == Data)];
    RunSnoc(odr, [], Pins(EN, false));
    assert [] + [Pins(EN, false)] == [Pins(EN, false)];
    RunSnoc(odr, [Pins(EN, false)], Pins(RS, t == Data));
    assert p == [Pins(EN, false)] + [Pins(RS, t == Data)];
  }

  /** The two lcdNibble calls of lcdWrite latch the high and then the low nibble of `b`, both with RS. */
  lemma RunNibblePair(o: byte, b: byte)
    requires o & EN == 0
    ensures Run(o, NibbleTrace(b >> 4) + NibbleTrace(b & 0x0F)).nibbles
      == [Nibble(o & RS != 0, b >> 4), Nibble(o & RS != 0, b & 0x0F)]
    ensures Run(o, NibbleTrace(b >> 4) + NibbleTrace(b & 0x0F)).odr & (RS | EN) == o & (RS | EN)
  {
    RunAppend(o, NibbleTrace(b >> 4), NibbleTrace(b & 0x0F));
    RunNibble(o, b >> 4);
    RunNibble(Run(o, NibbleTrace(b >> 4)).odr, b & 0x0F);
    assert (b >> 4) & 0x0F == b >> 4 && (b & 0x0F) & 0x0F == b & 0x0F;
  }

  lemma NibblesOfOne(b: byte, t: RegisterType)
    ensures NibblesOf([b], t) == [Nibble(t == Data, b >> 4), Nibble(t == Data, b & 0x0F)]
  {
    assert [b][..0] == [];
  }

  /** lcdWrite with EN low latches the two nibbles of `b` with RS set for data, and leaves EN low. */
  lemma RunWrite(odr: byte, b: byte, t: RegisterType)
    requires odr & EN == 0
    ensures Run(odr, WriteTrace(b, t)).nibbles == NibblesOf([b], t)
    ensures Run(odr, WriteTrace(b, t)).odr & EN == 0
    ensures (Run(odr, WriteTrace(b, t)).odr & RS != 0) == (t == Data)
  {
    var p := [Pins(EN, false), Pins(RS, t == Data)];
    var q := NibbleTrace(b >> 4) + NibbleTrace(b & 0x0F);
    assert WriteTrace(b, t) == p + q;
    RunAppend(odr, p, q);
    RunSelect(odr, t);
    RunNibblePair(Run(odr, p).odr, b);
    NibblesOfOne(b, t);
  }

  /** Consecutive lcdWrite calls latch the nibbles of every byte, in order. */
  lemma {:induction false} RunWrites(odr: byte, bytes: seq<byte>, t: RegisterType)
    requires odr & EN == 0
    ensures Run(odr, Writes(bytes, t)).nibbles == NibblesOf(bytes, t)
    ensures Run(odr, Writes(bytes, t)).odr & EN == 0
    decreases |bytes|
  {
    if |bytes| > 0 {
      var init := bytes[..|bytes| - 1];
      RunWrites(odr, init, t);
      RunAppend(odr, Writes(init, t), WriteTrace(bytes[|bytes| - 1], t));
      RunWrite(Run(odr, Writes(init, t)).odr, bytes[|bytes| - 1], t);
    }
  }

  /** One command followed by a string as data, read by the controller in 4-bit mode. */
  lemma CommandThenString(odr: byte, c: byte, str: seq<byte>)
    requires odr & EN == 0
    ensures Received(Run(odr, WriteTrace(c, Command) + Writes(CString(str), Data)).nibbles)
      == [Transfer(Command, c)] + Transfers(CString(str), Data)
  {
    RunAppend(odr, WriteTrace(c, Command), Writes(CString(str), Data));
    RunWrite(odr, c, Command);
    RunWrites(Run(odr, WriteTrace(c, Command)).odr, CString(str), Data);
    ReceivedAppend(NibblesOf([c], Command), NibblesOf(CString(str), Data));
    NibblesRoundTrip([c], Command);
    NibblesRoundTrip(CString(str), Data);
  }

  /**
   * lcdPrint, read by the controller: one command setting the display-data
   * address of the cell, then every character of the string before its NUL
   * as data.
   */
  lemma PrintReceived(odr: byte, y: byte, x: byte, str: seq<byte>)
    requires odr & EN == 0 && 1 <= y <= 4 && 1 <= x <= 20
    ensures Received(Run(odr, WriteTrace(Position(y, x), Command) + Writes(CString(str), Data)).nibbles)
      == [Transfer(Command, Position(y, x))] + Transfers(CString(str), Data)
    ensures Decode(Position(y, x)) == SetDdramAddress(RowStart(y) + x - 1)
  {
    CommandThenString(odr, Position(y, x), str);
    PositionAddress(y, x, y, x);
  }

  /** CreateCustomChar, read by the controller: CGRAM address 0, then the pattern bytes before the first zero as data. */
  lemma CustomCharReceived(odr: byte, pattern: seq<byte>)
    requires odr & EN == 0
    ensures Received(Run(odr, WriteTrace(0x40, Command) + Writes(CString(pattern), Data)).nibbles)
      == [Transfer(Command, 0x40)] + Transfers(CString(pattern), Data)
    ensures Decode(0x40) == SetCgramAddress(0)
  {
    CommandThenString(odr, 0x40, pattern);
  }

  /** lcdChar, read by the controller: the position command, then the character as data. */
  lemma CharReceived(odr: byte, y: byte, x: byte, ch: byte)
    requires odr & EN == 0 && 1 <= y <= 4
    ensures Received(Run(odr, WriteTrace(Position(y, x), Command) + WriteTrace(ch, Data)).nibbles)
      == [Transfer(Command, Position(y, x)), Transfer(Data, ch)]
  {
    CommandThenByte(odr, Position(y, x), ch);
  }

  /** One command followed by one byte as data, read by the controller in 4-bit mode. */
  lemma CommandThenByte(odr: byte, c: byte, ch: byte)
    requires odr & EN == 0
    ensures Received(Run(odr, WriteTrace(c, Command) + WriteTrace(ch, Data)).nibbles)
      == [Transfer(Command, c), Transfer(Data, ch)]
  {
    RunThenWrite(odr, WriteTrace(c, Command), ch, Data);
    RunWrite(odr, c, Command);
    ReceivedAppend(NibblesOf([c], Command), NibblesOf([ch], Data));
    NibblesRoundTrip([c], Command);
    NibblesRoundTrip([ch], Data);
  }

  lemma RunThenWait(odr: byte, t: seq<PinEvent>, us: nat)
    ensures Run(odr, t + [Delay(us)]) == Run(odr, t)
  {
    RunSnoc(odr, t, Delay(us));
  }

  lemma RunThenWrite(odr: byte, t: seq<PinEvent>, b: byte, r: RegisterType)
    requires Run(odr, t).odr & EN == 0
    ensures Run(odr, t + WriteTrace(b, r)).nibbles == Run(odr, t).nibbles + NibblesOf([b], r)
    ensures Run(odr, t + WriteTrace(b, r)).odr & EN == 0
    ensures (Run(odr, t + WriteTrace(b, r)).odr & RS != 0) == (r == Data)
  {
    RunAppend(odr, t, WriteTrace(b, r));
    RunWrite(Run(odr, t).odr, b, r);
  }

  lemma RunThenNibble(odr: byte, t: seq<PinEvent>, n: byte)
    requires Run(odr, t).odr & EN == 0
    ensures Run(odr, t + NibbleTrace(n)).nibbles == Run(odr, t).nibbles + [Nibble(Run(odr, t).odr & RS != 0, n & 0x0F)]
    ensures Run(odr, t + NibbleTrace(n)).odr & (RS | EN) == Run(odr, t).odr & (RS | EN)
  {
    RunAppend(odr, t, NibbleTrace(n));
    RunNibble(Run(odr, t).odr, n);
  }

  /** Resetting every pin with EN low latches nothing and leaves RS and EN low. */
  lemma RunPortReset(odr: byte)
    requires odr & EN == 0
    ensures Run(odr, PortResetTrace()).nibbles == []
    ensures Run(odr, PortResetTrace()).odr & (RS | EN) == 0
  {
    RunSnoc(odr, [], Pins(ALL_PINS, false));
    assert [] + [Pins(ALL_PINS, false)] == [Pins(ALL_PINS, false)];
    assert Run(odr, [Pins(ALL_PINS, false)]) == Observed(odr & !ALL_PINS, []);
    RunSnoc(odr, [Pins(ALL_PINS, false)], Pins(ALL_PINS, false));
    assert [Pins(ALL_PINS, false)] + [Pins(ALL_PINS, false)] == [Pins(ALL_PINS, false), Pins(ALL_PINS, false)];
    RunThenWait(odr, [Pins(ALL_PINS, false), Pins(ALL_PINS, false)], 40000);
    assert [Pins(ALL_PINS, false), Pins(ALL_PINS, false)] + [Delay(40000)] == PortResetTrace();
  }

  /** With RS and EN low, the four single nibbles are latched as the function sets of InitNibbles. */
  lemma RunMode(odr: byte)
    requires odr & (RS | EN) == 0
    ensures Run(odr, ModeTrace()).nibbles == FunctionSetNibbles()
    ensures Run(odr, ModeTrace()).odr & (RS | EN) == 0
  {
    var t0 := NibbleTrace(3);
    RunNibble(odr, 3);
    var t1 := t0 + [Delay(5000)];
    RunThenWait(odr, t0, 5000);
    var t2 := t1 + NibbleTrace(3);
    RunThenNibble(odr, t1, 3);
    var t3 := t2 + [Delay(5000)];
    RunThenWait(odr, t2, 5000);
    var t4 := t3 + NibbleTrace(3);
    RunThenNibble(odr, t3, 3);
    var t5 := t4 + [Delay(5000)];
    RunThenWait(odr, t4, 5000);
    var t6 := t5 + NibbleTrace(2);
    RunThenNibble(odr, t5, 2);
    RunThenWait(odr, t6, 5000);
    assert t6 + [Delay(5000)] == ModeTrace();
  }

  /** The first three commands of 4-bit mode are latched as their nibbles, and EN stays low. */
  lemma RunDisplaySetup(odr: byte)
    requires odr & EN == 0
    ensures Run(odr, DisplaySetupTrace()).nibbles
      == NibblesOf([0x28], Command) + NibblesOf([0x0C], Command) + NibblesOf([LCD_CLEAR], Command)
    ensures Run(odr, DisplaySetupTrace()).odr & EN == 0
  {
    var t0 := WriteTrace(0x28, Command);
    RunWrite(odr, 0x28, Command);
    var t1 := t0 + [Delay(5000)];
    RunThenWait(odr, t0, 5000);
    var t2 := t1 + WriteTrace(0x0C, Command);
    RunThenWrite(odr, t1, 0x0C, Command);
    var t3 := t2 + [Delay(8000)];
    RunThenWait(odr, t2, 8000);
    var t4 := t3 + WriteTrace(LCD_CLEAR, Command);
    RunThenWrite(odr, t3, LCD_CLEAR, Command);
    var t5 := t4 + [Delay(2000)];
    RunThenWait(odr, t4, 2000);
    RunThenWait(odr, t5, 5000);
    assert t5 + [Delay(5000)] == DisplaySetupTrace();
  }

  /** The last two commands are latched as their nibbles; raising RS latches nothing. */
  lemma RunEntrySetup(odr: byte)
    requires odr & EN == 0
    ensures Run(odr, EntrySetupTrace()).nibbles == NibblesOf([0x06], Command) + NibblesOf([LCD_CLEAR], Command)
  {
    var t0 := WriteTrace(0x06, Command);
    RunWrite(odr, 0x06, Command);
    var t1 := t0 + [Delay(5000)];
    RunThenWait(odr, t0, 5000);
    var t2 := t1 + WriteTrace(LCD_CLEAR, Command);
    RunThenWrite(odr, t1, LCD_CLEAR, Command);
    var t3 := t2 + [Delay(2000)];
    RunThenWait(odr, t2, 2000);
    RunSnoc(odr, t3, Pins(RS, true));
    assert t3 + [Pins(RS, true)] == EntrySetupTrace();
  }

  /** The resets and the single nibbles latch the function sets and leave RS and EN low. */
  lemma RunBeforeCommands(odr: byte)
    requires odr & EN == 0
    ensures Run(odr, PortResetTrace() + ModeTrace()).nibbles == FunctionSetNibbles()
    ensures Run(odr, PortResetTrace() + ModeTrace()).odr & (RS | EN) == 0
  {
    RunPortReset(odr);
    RunAppend(odr, PortResetTrace(), ModeTrace());
    RunMode(Run(odr, PortResetTrace()).odr);
  }

  /** The pin trace of initLCD after the port set-up, read with EN low, latches exactly InitNibbles. */
  lemma InitReceived(odr: byte)
    requires odr & EN == 0
    ensures Run(odr, PortResetTrace() + ModeTrace() + DisplaySetupTrace() + EntrySetupTrace()).nibbles == InitNibbles()
  {
    var t1 := PortResetTrace() + ModeTrace();
    RunBeforeCommands(odr);
    var t2 := t1 + DisplaySetupTrace();
    RunAppend(odr, t1, DisplaySetupTrace());
    RunDisplaySetup(Run(odr, t1).odr);
    RunAppend(odr, t2, EntrySetupTrace());
    RunEntrySetup(Run(odr, t2).odr);
    InitCommandNibbles();
  }

  /** The nibbles of the five commands, one command at a time. */
  lemma InitCommandNibbles()
    ensures NibblesOf(InitCommands(), Command) == NibblesOf([0x28], Command) + NibblesOf([0x0C], Command)
      + NibblesOf([LCD_CLEAR], Command) + NibblesOf([0x06], Command) + NibblesOf([LCD_CLEAR], Command)
  {
    var c1: seq<byte> := [0x28];
    var c2 := c1 + [0x0C];
    var c3 := c2 + [LCD_CLEAR];
    var c4 := c3 + [0x06];
    NibblesOfAppend(c1, [0x0C], Command);
    NibblesOfAppend(c2, [LCD_CLEAR], Command);
    NibblesOfAppend(c3, [0x06], Command);
    NibblesOfAppend(c4, [LCD_CLEAR], Command);
    assert c4 + [LCD_CLEAR] == InitCommands();
  }

  // ---------------------------------------------------------------------
  // The driver
  // ---------------------------------------------------------------------

  /** The LCD port as the driver drives it. */
  class Lcd {
    /** Every GPIO write and delay so far. */
    var trace: seq<PinEvent>

    constructor ()
      ensures trace == []
    {
      trace := [];
    }

    /** GPIO_SetBits (high) or GPIO_ResetBits (low) on LCD_Port. */
    method SetPins(mask: byte, high: bool)
      modifies this
      ensures trace == old(trace) + [Pins(mask, high)]
    {
      trace := trace + [Pins(mask, high)];
    }

    /** _DelayUS, and _DelayMS as 1000 us per ms. */
    method Wait(us: nat)
      modifies this
      ensures trace == old(trace) + [Delay(us)]
    {
      trace := trace + [Delay(us)];
    }

    /** strobeEN. */
    method StrobeEN()
      modifies this
      ensures trace == old(trace) + StrobeTrace()
    {
      SetPins(EN, true);
      Wait(100);
      SetPins(EN, false);
      Wait(100);
    }

    /** lcdNibble. */
    method WriteNibble(n: byte)
      modifies this
      ensures trace == old(trace) + NibbleTrace(n)
    {
      SetPins(D7, n & 0x08 != 0);
      SetPins(D6, n & 0x04 != 0);
      SetPins(D5, n & 0x02 != 0);
      SetPins(D4, n & 0x01 != 0);
      StrobeEN();
    }

    /** lcdWrite. */
    method Write(b: byte, t: RegisterType)
      modifies this
      ensures trace == old(trace) + WriteTrace(b, t)
    {
      SetPins(EN, false);
      SetPins(RS, t == Data);
      WriteNibble(b >> 4);
      WriteNibble(b & 0x0F);
    }

    /** clearLCD. */
    method Clear()
      modifies this
      ensures trace == old(trace) + WriteTrace(LCD_CLEAR, Command) + [Delay(2000)]
    {
      Write(LCD_CLEAR, Command);
      Wait(2000);
    }

    /** The loop of lcdPrint and CreateCustomChar: every byte before the first NUL, as data. */
    method WriteUntilNul(str: seq<byte>)
      requires 0 in str
      modifies this
      ensures trace == old(trace) + Writes(CString(str), Data)
    {
      ghost var nul :| 0 <= nul < |str| && str[nul] == 0;
      var i := 0;
      while str[i] != 0
        invariant i <= nul && 0 !in str[..i]
        invariant trace == old(trace) + Writes(str[..i], Data)
        decreases nul - i
      {
        Write(str[i], Data);
        assert str[..i + 1][..i] == str[..i];
        AppendAssoc(old(trace), Writes(str[..i], Data), WriteTrace(str[i], Data));
        i := i + 1;
      }
      CStringAt(str, i);
    }

    /** lcdChar: the position command, then one character. */
    method Char(y: byte, x: byte, ch: byte)
      requires 1 <= y <= 4
      modifies this
      ensures trace == old(trace) + WriteTrace(Position(y, x), Command) + WriteTrace(ch, Data)
    {
      Write(Position(y, x), Command);
      Write(ch, Data);
    }

    /** lcdPrint: the position command, then the string up to its NUL. */
    method Print(y: byte, x: byte, str: seq<byte>)
      requires 1 <= y <= 4 && 0 in str
      modifies this
      ensures trace == old(trace) + WriteTrace(Position(y, x), Command) + Writes(CString(str), Data)
    {
      Write(Position(y, x), Command);
      WriteUntilNul(str);
    }

    /** CreateCustomChar: CGRAM address 0, then the pattern bytes up to the first zero. */
    method CreateCustomChar(pattern: seq<byte>)
      requires 0 in pattern
      modifies this
      ensures trace == old(trace) + WriteTrace(0x40, Command) + Writes(CString(pattern), Data)
    {
      Write(0x40, Command);
      WriteUntilNul(pattern);
    }

    /** initLCD, the pin resets before and after the port set-up. */
    method ResetPort()
      modifies this
      ensures trace == old(trace) + PortResetTrace()
    {
      SetPins(ALL_PINS, false);
      SetPins(ALL_PINS, false);
      Wait(40000);
    }

    /** initLCD, the four single nibbles. */
    method EnterFourBitMode()
      modifies this
      ensures trace == old(trace) + ModeTrace()
    {
      WriteNibble(3);
      Wait(5000);
      WriteNibble(3);
      Wait(5000);
      WriteNibble(3);
      Wait(5000);
      WriteNibble(2);
      Wait(5000);
    }

    /** initLCD, function set, display control and the first clear. */
    method SetUpDisplay()
      modifies this
      ensures trace == old(trace) + DisplaySetupTrace()
    {
      Write(0x28, Command);
      Wait(5000);
      Write(0x0C, Command);
      Wait(8000);
      Clear();
      Wait(5000);
    }

    /** initLCD, entry mode, the second clear and RS left high. */
    method SetUpEntry()
      modifies this
      ensures trace == old(trace) + EntrySetupTrace()
    {
      Write(0x06, Command);
      Wait(5000);
      Clear();
      SetPins(RS, true);
    }

    /** initLCD from the first pin reset on. */
    method Init()
      modifies this
      ensures trace == old(trace) + PortResetTrace() + ModeTrace() + DisplaySetupTrace() + EntrySetupTrace()
    {
      ResetPort();
      EnterFourBitMode();
      SetUpDisplay();
      SetUpEntry();
    }
  }
}
