/**
 * The SSD1306 128x64 frame buffer of the base station's OLED display. Byte
 * x + (y/8)*128 holds the column x of page y/8; bit y%8 of it is the pixel
 * (x, y). Drawing only changes the buffer; ssd1306_UpdateScreen sends it
 * page by page over I2C.
 */
module Ssd1306 {
  import opened Common
  import opened HwI2c
  import I2c = Ssd1306I2c

  /** The contents of SSD1306_Buffer. */
  type Screen = s: seq<byte> | |s| == 1024 witness seq(1024, _ => 0)

  datatype Color = Black | White

  /** (SSD1306_COLOR) !color. */
  function Flip(c: Color): Color
  {
    if c == Black then White else Black
  }

  /** The bit a pixel drawn in `c` gets, with the colour flipped when the screen is inverted. */
  function Ink(c: Color, inverted: bool): bool
  {
    (c == White) != inverted
  }

  function Index(x: nat, y: nat): (i: nat)
    requires x < 128 && y < 64
    ensures i < 1024
  {
    x + (y / 8) * 128
  }

  /** `1 << k` as a byte: 0x01 shifted left k times. */
  function Mask(k: nat): byte
    requires k < 8
  {
    if k == 0 then 0x01 else Mask(k - 1) << 1
  }

  /** The eight masks, one bit each. */
  lemma MaskTable(k: nat)
    requires k < 8
    ensures Mask(k) == if k == 0 then 0x01 else if k == 1 then 0x02 else if k == 2 then 0x04
      else if k == 3 then 0x08 else if k == 4 then 0x10 else if k == 5 then 0x20
      else if k == 6 then 0x40 else 0x80
  {
    assert Mask(7) == 0x80;
  }

  predicate BitOf(b: byte, k: nat)
    requires k < 8
  {
    b & Mask(k) != 0
  }

  /** `b | (1 << k)` for a set pixel, `b & ~(1 << k)` for a cleared one. */
  function SetBit(b: byte, k: nat, v: bool): byte
    requires k < 8
  {
    if v then b | Mask(k) else b & !Mask(k)
  }

  /** Setting or clearing bit k makes it `v`... */
  lemma SetBitOwn(b: byte, k: nat, v: bool)
    requires k < 8
    ensures BitOf(SetBit(b, k, v), k) == v
  {
    MaskTable(k);
  }

  /** ... and keeps the other seven bits. */
  lemma SetBitOther(b: byte, k: nat, v: bool, j: nat)
    requires k < 8 && j < 8 && j != k
    ensures BitOf(SetBit(b, k, v), j) == BitOf(b, j)
  {
    MaskTable(k);
    MaskTable(j);
  }

  /** The pixel (x, y) of a screen. */
  predicate Pixel(s: Screen, x: nat, y: nat)
    requires x < 128 && y < 64
  {
    BitOf(s[Index(x, y)], y % 8)
  }

  /** ssd1306_DrawPixel on the buffer: off-screen coordinates leave it as it is. */
  function Plot(s: Screen, x: int, y: int, v: bool): Screen
  {
    if 0 <= x < 128 && 0 <= y < 64 then
      s[Index(x, y) := SetBit(s[Index(x, y)], y % 8, v)]
    else
      s
  }

  /**
   * On the buffer, a plot on screen changes only bit y%8 of byte
   * x + (y/8)*128 and one off screen changes nothing.
   */
  lemma PlotBytes(s: Screen, x: int, y: int, v: bool)
    ensures !(0 <= x < 128 && 0 <= y < 64) ==> Plot(s, x, y, v) == s
    ensures 0 <= x < 128 && 0 <= y < 64 ==>
      (forall i :: 0 <= i < 1024 && i != Index(x, y) ==> Plot(s, x, y, v)[i] == s[i])
      && BitOf(Plot(s, x, y, v)[Index(x, y)], y % 8) == v
      && (forall j :: 0 <= j < 8 && j != y % 8 ==>
            BitOf(Plot(s, x, y, v)[Index(x, y)], j) == BitOf(s[Index(x, y)], j))
  {
    if 0 <= x < 128 && 0 <= y < 64 {
      SetBitOwn(s[Index(x, y)], y % 8, v);
      forall j | 0 <= j < 8 && j != y % 8
        ensures BitOf(Plot(s, x, y, v)[Index(x, y)], j) == BitOf(s[Index(x, y)], j)
      {
        SetBitOther(s[Index(x, y)], y % 8, v, j);
      }
    }
  }

  /** Plotting a point changes that pixel and no other. */
  lemma PlotPixel(s: Screen, x: int, y: int, v: bool, px: nat, py: nat)
    requires px < 128 && py < 64
    ensures Pixel(Plot(s, x, y, v), px, py) == if px == x && py == y then v else Pixel(s, px, py)
  {
    if 0 <= x < 128 && 0 <= y < 64 && Index(px, py) == Index(x, y) {
      if px == x && py == y {
        SetBitOwn(s[Index(x, y)], y % 8, v);
      } else {
        assert px == x && py / 8 == y / 8;
        SetBitOther(s[Index(x, y)], y % 8, v, py % 8);
      }
    }
  }

  /** A screen filled with `c`: every byte 0x00 for Black and 0xFF otherwise. */
  function Filled(c: Color): (s: Screen)
    ensures forall i :: 0 <= i < 1024 ==> s[i] == (if c == Black then 0x00 else 0xFF)
  {
    seq(1024, _ => if c == Black then 0x00 else 0xFF)
  }

  /** Filling sets every pixel to the colour itself: the inversion flag plays no part. */
  lemma FilledPixels(c: Color)
    ensures forall px: nat, py: nat :: px < 128 && py < 64 ==> Pixel(Filled(c), px, py) == (c == White)
  {
    forall px: nat, py: nat | px < 128 && py < 64
      ensures Pixel(Filled(c), px, py) == (c == White)
    {
      MaskTable(py % 8);
    }
  }

  /** FontDef: glyph width and height, and one 16-bit row bitmap per glyph row. */
  datatype Font = Font(width: u8, height: u8, data: seq<u16>)

  /** The glyph of `ch` lies in the font table (glyphs start at character 32). */
  predicate HasGlyph(font: Font, ch: u8)
  {
    32 <= ch && GlyphBase(font, ch) + font.height <= |font.data|
  }

  /** Where the rows of the glyph of `ch` start in the font table. */
  function GlyphBase(font: Font, ch: u8): (base: nat)
    requires 32 <= ch
    ensures ch == 32 ==> base == 0
  {
    (ch - 32) * font.height
  }

  /** A character cell of the font fits left of column 128 and above row 64 from (x, y). */
  predicate Fits(x: nat, y: nat, font: Font)
  {
    x + font.width < 128 && y + font.height < 64
  }

  /**
   * `(b << j) & 0x8000` for a 16-bit glyph row b, one left shift (a
   * doubling modulo 2^16) per column: bit 15-j of b, so the leftmost column
   * is bit 15 and columns from 16 on are blank.
   */
  predicate FontBit(row: u16, j: nat)
    decreases j
  {
    if j == 0 then row >= 0x8000 else FontBit(row * 2 % 0x1_0000, j - 1)
  }

  /** The rows of the glyph of `ch`: entries (ch-32)*height up to (ch-31)*height of the table. */
  function Bitmap(font: Font, ch: u8): (rows: seq<u16>)
    requires HasGlyph(font, ch)
    ensures |rows| == font.height
  {
    font.data[GlyphBase(font, ch)..GlyphBase(font, ch) + font.height]
  }

  /** The bit that column j of a glyph row gets: the colour where the font bit is set, its opposite elsewhere. */
  function CellInk(row: u16, color: Color, inverted: bool, j: nat): bool
  {
    Ink(if FontBit(row, j) then color else Flip(color), inverted)
  }

  /** Columns 0..j-1 of one glyph row drawn from (x, y), left to right. */
  function GlyphRow(s: Screen, x: nat, y: nat, row: u16, color: Color, inverted: bool, j: nat): Screen
    decreases j
  {
    if j == 0 then s
    else Plot(GlyphRow(s, x, y, row, color, inverted, j - 1), x + j - 1, y, CellInk(row, color, inverted, j - 1))
  }

  /** Rows 0..i-1 of a glyph `width` columns wide drawn at (x, y), row by row as ssd1306_WriteChar does. */
  function Glyph(s: Screen, x: nat, y: nat, rows: seq<u16>, width: nat, color: Color, inverted: bool,
                 i: nat): Screen
    requires i <= |rows|
    decreases i
  {
    if i == 0 then s
    else GlyphRow(Glyph(s, x, y, rows, width, color, inverted, i - 1), x, y + i - 1, rows[i - 1],
                  color, inverted, width)
  }

  /** One more row of a glyph is that row drawn over the rows before it. */
  lemma GlyphStep(s: Screen, x: nat, y: nat, rows: seq<u16>, width: nat, color: Color, inverted: bool, i: nat)
    requires i < |rows|
    ensures Glyph(s, x, y, rows, width, color, inverted, i + 1)
      == GlyphRow(Glyph(s, x, y, rows, width, color, inverted, i), x, y + i, rows[i], color, inverted, width)
  {
  }

  lemma {:induction false} GlyphRowPixel(s: Screen, x: nat, y: nat, row: u16, color: Color, inverted: bool,
                                         j: nat, px: nat, py: nat)
    requires px < 128 && py < 64
    ensures Pixel(GlyphRow(s, x, y, row, color, inverted, j), px, py)
      == if py == y && x <= px < x + j then CellInk(row, color, inverted, px - x) else Pixel(s, px, py)
    decreases j
  {
    if j > 0 {
      GlyphRowPixel(s, x, y, row, color, inverted, j - 1, px, py);
      PlotPixel(GlyphRow(s, x, y, row, color, inverted, j - 1), x + j - 1, y,
                CellInk(row, color, inverted, j - 1), px, py);
    }
  }

  lemma {:induction false} GlyphPixelUpTo(s: Screen, x: nat, y: nat, rows: seq<u16>, width: nat, color: Color,
                                          inverted: bool, i: nat, px: nat, py: nat)
    requires i <= |rows| && px < 128 && py < 64
    ensures Pixel(Glyph(s, x, y, rows, width, color, inverted, i), px, py)
      == if y <= py < y + i && x <= px < x + width then CellInk(rows[py - y], color, inverted, px - x)
         else Pixel(s, px, py)
    decreases i
  {
    if i > 0 {
      GlyphPixelUpTo(s, x, y, rows, width, color, inverted, i - 1, px, py);
      GlyphRowPixel(Glyph(s, x, y, rows, width, color, inverted, i - 1), x, y + i - 1, rows[i - 1],
                    color, inverted, width, px, py);
    }
  }

  /**
   * A written glyph occupies exactly its cell: the pixel in column j of row
   * i of the cell shows the colour when bit 15-j of glyph row i is set and
   * the opposite colour otherwise; every pixel outside the cell is kept.
   */
  lemma GlyphPixel(s: Screen, x: nat, y: nat, rows: seq<u16>, width: nat, color: Color, inverted: bool,
                   px: nat, py: nat)
    requires px < 128 && py < 64
    ensures Pixel(Glyph(s, x, y, rows, width, color, inverted, |rows|), px, py)
      == if y <= py < y + |rows| && x <= px < x + width
         then CellInk(rows[py - y], color, inverted, px - x)
         else Pixel(s, px, py)
  {
    GlyphPixelUpTo(s, x, y, rows, width, color, inverted, |rows|, px, py);
  }

  /** The characters from index k up to the terminating NUL that ssd1306_WriteString draws have glyphs. */
  predicate TextOk(x: nat, y: nat, font: Font, str: seq<u8>, k: nat)
    decreases |str| - k
  {
    k >= |str| || str[k] == 0 || !Fits(x, y, font)
    || (HasGlyph(font, str[k]) && TextOk(x + font.width, y, font, str, k + 1))
  }

  /** The screen, the cursor column and the returned character after writing a string. */
  datatype TextResult = TextResult(screen: Screen, x: nat, stop: u8)

  /**
   * ssd1306_WriteString from index k of the string and column x:
   * characters are drawn left to right until the NUL, or until the first one
   * whose cell does not fit, which is returned.
   */
  function Text(s: Screen, x: nat, y: nat, font: Font, str: seq<u8>, k: nat, color: Color, inverted: bool): TextResult
    requires TextOk(x, y, font, str, k)
    decreases |str| - k
  {
    if k >= |str| || str[k] == 0 then TextResult(s, x, 0)
    else if !Fits(x, y, font) then TextResult(s, x, str[k])
    else Text(Glyph(s, x, y, Bitmap(font, str[k]), font.width, color, inverted, font.height),
              x + font.width, y, font, str, k + 1, color, inverted)
  }

  /**
   * Writing a string never moves the cursor left, and a string cut short
   * stops at a character of the string whose cell does not fit.
   */
  lemma {:induction false} TextStops(s: Screen, x: nat, y: nat, font: Font, str: seq<u8>, k: nat,
                                     color: Color, inverted: bool)
    requires TextOk(x, y, font, str, k)
    ensures var r := Text(s, x, y, font, str, k, color, inverted);
      x <= r.x && (r.stop != 0 ==> !Fits(r.x, y, font) && r.stop in str[k..])
    decreases |str| - k
  {
    if k < |str| && str[k] != 0 {
      TextStep(s, x, y, font, str, k, color, inverted);
      if !Fits(x, y, font) {
        assert str[k..][0] == str[k];
      } else {
        var drawn := Glyph(s, x, y, Bitmap(font, str[k]), font.width, color, inverted, font.height);
        TextStops(drawn, x + font.width, y, font, str, k + 1, color, inverted);
        assert str[k + 1..] == str[k..][1..];
      }
    }
  }

  /** One character of the string: written when its cell fits, the end of the run when not. */
  lemma TextStep(s: Screen, x: nat, y: nat, font: Font, str: seq<u8>, k: nat, color: Color, inverted: bool)
    requires k < |str| && str[k] != 0 && TextOk(x, y, font, str, k)
    ensures !Fits(x, y, font) ==> Text(s, x, y, font, str, k, color, inverted) == TextResult(s, x, str[k])
    ensures Fits(x, y, font) ==>
      HasGlyph(font, str[k]) && TextOk(x + font.width, y, font, str, k + 1)
      && Text(s, x, y, font, str, k, color, inverted)
         == Text(Glyph(s, x, y, Bitmap(font, str[k]), font.width, color, inverted, font.height),
                 x + font.width, y, font, str, k + 1, color, inverted)
  {
    if Fits(x, y, font) {
      assert HasGlyph(font, str[k]) && TextOk(x + font.width, y, font, str, k + 1);
    }
  }

  /**
   * ssd1306_FillCircle's test, in int after the int16_t operands are
   * promoted; with |x|, |y|, |r| below 2^15 no product overflows.
   */
  predicate InCircle(x: int, y: int, r: int)
  {
    x * x + y * y <= r * r
  }

  /** Conversion of an int coordinate to the uint8_t parameter of ssd1306_DrawPixel. */
  function U8(v: int): (b: u8)
    ensures (b - v) % 256 == 0
  {
    v % 256
  }

  /** Row y of the circle: the points x in [-r, xEnd) inside it, plotted left to right. */
  function CircleRow(s: Screen, x0: int, y0: int, r: int, y: int, xEnd: int, v: bool): Screen
    decreases xEnd + r
  {
    if xEnd <= -r then s
    else
      var before := CircleRow(s, x0, y0, r, y, xEnd - 1, v);
      if InCircle(xEnd - 1, y, r) then Plot(before, U8(x0 + xEnd - 1), U8(y0 + y), v) else before
  }

  /** Rows y in [-r, yEnd) of the circle, top to bottom. */
  function CircleRows(s: Screen, x0: int, y0: int, r: int, yEnd: int, v: bool): Screen
    decreases yEnd + r
  {
    if yEnd <= -r then s
    else CircleRow(CircleRows(s, x0, y0, r, yEnd - 1, v), x0, y0, r, yEnd - 1, r + 1, v)
  }

  /** Some point x in [-r, xEnd) of row y is inside the circle and lands on (px, py). */
  predicate RowHit(x0: int, y0: int, r: int, y: int, xEnd: int, px: nat, py: nat)
  {
    exists x :: -r <= x < xEnd && InCircle(x, y, r) && U8(x0 + x) == px && U8(y0 + y) == py
  }

  /** Some point of rows [-r, yEnd) is inside the circle and lands on (px, py). */
  predicate Hit(x0: int, y0: int, r: int, yEnd: int, px: nat, py: nat)
  {
    exists y :: -r <= y < yEnd && FullRowHit(x0, y0, r, y, px, py)
  }

  /** Some point of the whole row y is inside the circle and lands on (px, py). */
  predicate FullRowHit(x0: int, y0: int, r: int, y: int, px: nat, py: nat)
  {
    RowHit(x0, y0, r, y, r + 1, px, py)
  }

  lemma {:induction false} CircleRowPixel(s: Screen, x0: int, y0: int, r: int, y: int, xEnd: int, v: bool,
                                          px: nat, py: nat)
    requires px < 128 && py < 64
    ensures Pixel(CircleRow(s, x0, y0, r, y, xEnd, v), px, py)
      == if RowHit(x0, y0, r, y, xEnd, px, py) then v else Pixel(s, px, py)
    decreases xEnd + r
  {
    if xEnd <= -r {
      assert !RowHit(x0, y0, r, y, xEnd, px, py);
    } else {
      var x := xEnd - 1;
      var before := CircleRow(s, x0, y0, r, y, x, v);
      CircleRowPixel(s, x0, y0, r, y, x, v, px, py);
      if InCircle(x, y, r) {
        PlotPixel(before, U8(x0 + x), U8(y0 + y), v, px, py);
      }
      if RowHit(x0, y0, r, y, xEnd, px, py) {
        var w :| -r <= w < xEnd && InCircle(w, y, r) && U8(x0 + w) == px && U8(y0 + y) == py;
        if w < x {
          assert RowHit(x0, y0, r, y, x, px, py);
        }
      } else {
        assert !RowHit(x0, y0, r, y, x, px, py);
      }
    }
  }

  lemma {:induction false} CircleRowsPixel(s: Screen, x0: int, y0: int, r: int, yEnd: int, v: bool,
                                           px: nat, py: nat)
    requires px < 128 && py < 64
    ensures Pixel(CircleRows(s, x0, y0, r, yEnd, v), px, py)
      == if Hit(x0, y0, r, yEnd, px, py) then v else Pixel(s, px, py)
    decreases yEnd + r
  {
    if yEnd <= -r {
      assert !Hit(x0, y0, r, yEnd, px, py);
    } else {
      var y := yEnd - 1;
      CircleRowsPixel(s, x0, y0, r, y, v, px, py);
      CircleRowPixel(CircleRows(s, x0, y0, r, y, v), x0, y0, r, y, r + 1, v, px, py);
      if Hit(x0, y0, r, yEnd, px, py) {
        var w :| -r <= w < yEnd && FullRowHit(x0, y0, r, w, px, py);
        if w < y {
          assert Hit(x0, y0, r, y, px, py);
        }
      } else {
        assert !Hit(x0, y0, r, y, px, py);
        assert !FullRowHit(x0, y0, r, y, px, py);
      }
    }
  }

  /**
   * ssd1306_FillCircle paints exactly the pixels that some point (x, y) with
   * x*x + y*y <= r*r lands on after conversion to uint8_t; all others keep
   * their value.
   */
  lemma FillCirclePixels(s: Screen, x0: int, y0: int, r: int, v: bool, px: nat, py: nat)
    requires px < 128 && py < 64
    ensures Pixel(CircleRows(s, x0, y0, r, r + 1, v), px, py)
      == if Hit(x0, y0, r, r + 1, px, py) then v else Pixel(s, px, py)
  {
    CircleRowsPixel(s, x0, y0, r, r + 1, v, px, py);
  }

  /** The transactions of one page of ssd1306_UpdateScreen. */
  function PageFrame(s: Screen, i: nat): (t: seq<I2cEvent>)
    requires i < 8
    ensures |t| == 147
  {
    I2c.CommandTransaction(0xB0 + i as byte) + I2c.CommandTransaction(0x00)
      + I2c.CommandTransaction(0x10) + I2c.DataTransaction(s[128 * i..128 * i + 128])
  }

  /** Pages 0..n-1 in order. */
  function Pages(s: Screen, n: nat): (t: seq<I2cEvent>)
    requires n <= 8
    ensures |t| == 147 * n
  {
    if n == 0 then [] else Pages(s, n - 1) + PageFrame(s, n - 1)
  }

  /**
   * Page i of the flush is the 147 events from 147*i: page address 0xB0+i,
   * column 0 (0x00, 0x10), then the 128 buffer bytes [128i, 128i+128).
   */
  lemma {:induction false} PageLayout(s: Screen, n: nat, i: nat)
    requires i < n <= 8
    ensures Pages(s, n)[147 * i..147 * (i + 1)] == PageFrame(s, i)
  {
    if i < n - 1 {
      PageLayout(s, n - 1, i);
      assert Pages(s, n)[..147 * (n - 1)] == Pages(s, n - 1);
    }
  }

  /** The OLED screen object: the frame buffer and the SSD1306_t state. */
  class Display {
    const buffer: array<byte>
    var currentX: u16
    var currentY: u16
    var inverted: bool
    var initialized: bool

    ghost predicate Valid()
      reads this
    {
      buffer.Length == 1024
    }

    constructor ()
      ensures Valid() && fresh(buffer)
      ensures currentX == 0 && currentY == 0 && !inverted && !initialized
    {
      buffer := new byte[1024];
      currentX, currentY := 0, 0;
      inverted, initialized := false, false;
    }

    /** ssd1306_Fill: every byte 0x00 for Black, 0xFF otherwise. */
    method Fill(color: Color)
      requires Valid()
      modifies buffer
      ensures buffer[..] == Filled(color)
    {
      var i := 0;
      while i < 1024
        invariant 0 <= i <= 1024
        invariant forall k :: 0 <= k < i ==> buffer[k] == (if color == Black then 0x00 else 0xFF)
      {
        buffer[i] := if color == Black then 0x00 else 0xFF;
        i := i + 1;
      }
    }

    /** ssd1306_DrawPixel. */
    method DrawPixel(x: u8, y: u8, color: Color)
      requires Valid()
      modifies buffer
      ensures buffer[..] == Plot(old(buffer[..]), x, y, Ink(color, inverted))
    {
      if x >= 128 || y >= 64 {
        return;
      }
      var c := if inverted then Flip(color) else color;
      var i := Index(x, y);
      buffer[i] := SetBit(buffer[i], y % 8, c == White);
    }

    /** ssd1306_SetCursor. */
    method SetCursor(x: u8, y: u8)
      modifies this`currentX, this`currentY
      ensures currentX == x && currentY == y
    {
      currentX, currentY := x, y;
    }

    /**
     * ssd1306_WriteChar: a character whose cell does not fit is refused
     * with 0 and changes nothing; otherwise its glyph is drawn row by row
     * and the cursor moves right by the glyph width.
     */
    method WriteChar(ch: u8, font: Font, color: Color) returns (r: u8)
      requires Valid()
      requires Fits(currentX, currentY, font) ==> HasGlyph(font, ch)
      modifies this`currentX, buffer
      ensures !Fits(old(currentX), currentY, font) ==>
        r == 0 && currentX == old(currentX) && buffer[..] == old(buffer[..])
      ensures Fits(old(currentX), currentY, font) ==>
        r == ch && currentX == old(currentX) + font.width
        && buffer[..] == Glyph(old(buffer[..]), old(currentX), currentY, Bitmap(font, ch), font.width,
                               color, inverted, font.height)
    {
      if 128 <= currentX as nat + font.width as nat || 64 <= currentY as nat + font.height as nat {
        return 0;
      }
      var x, y := currentX, currentY;
      var base: nat := (ch - 32) * font.height;
      assert base == GlyphBase(font, ch);
      DrawGlyph(x, y, font.data, base, font.height, font.width, color);
      currentX := x + font.width;
      r := ch;
    }

    /** The outer loop of ssd1306_WriteChar: the glyph rows table[base..base+height], top to bottom. */
    method DrawGlyph(x: u16, y: u16, table: seq<u16>, base: nat, height: u8, width: u8, color: Color)
      requires Valid() && x + width < 128 && y + height < 64 && base + height <= |table|
      modifies buffer
      ensures buffer[..] == Glyph(old(buffer[..]), x, y, table[base..base + height], width, color, inverted, height)
    {
      ghost var s0 := buffer[..];
      var rows := table[base..base + height];
      for i := 0 to height
        invariant buffer[..] == Glyph(s0, x, y, rows, width, color, inverted, i)
      {
        GlyphStep(s0, x, y, rows, width, color, inverted, i);
        DrawGlyphRow(x, y + i, rows[i], width, color);
      }
    }

    /** The inner loop of ssd1306_WriteChar: bit 15-j of the glyph row decides the colour of column j. */
    method DrawGlyphRow(x: u16, y: u16, b: u16, width: u8, color: Color)
      requires Valid() && x + width < 128 && y < 64
      modifies buffer
      ensures buffer[..] == GlyphRow(old(buffer[..]), x, y, b, color, inverted, width)
    {
      var j := 0;
      while j < width
        invariant 0 <= j <= width
        invariant buffer[..] == GlyphRow(old(buffer[..]), x, y, b, color, inverted, j)
      {
        if FontBit(b, j) {
          DrawPixel(x + j, y, color);
        } else {
          DrawPixel(x + j, y, Flip(color));
        }
        j := j + 1;
      }
    }

    /**
     * ssd1306_WriteString over a NUL-terminated string: returns NUL when
     * every character was written, else the first refused character.
     */
    method WriteString(str: seq<u8>, font: Font, color: Color) returns (r: u8)
      requires Valid() && 0 in str
      requires TextOk(currentX, currentY, font, str, 0)
      modifies this`currentX, buffer
      ensures var t := Text(old(buffer[..]), old(currentX), currentY, font, str, 0, color, inverted);
        r == t.stop && currentX == t.x && buffer[..] == t.screen
    {
      ghost var goal := Text(buffer[..], currentX, currentY, font, str, 0, color, inverted);
      ghost var nul :| 0 <= nul < |str| && str[nul] == 0;
      var k := 0;
      while str[k] != 0
        invariant 0 <= k <= nul
        invariant TextOk(currentX, currentY, font, str, k)
        invariant Text(buffer[..], currentX, currentY, font, str, k, color, inverted) == goal
        decreases |str| - k
      {
        var w := WriteNext(str, k, font, color);
        if w != str[k] {
          return str[k];
        }
        k := k + 1;
      }
      r := 0;
    }

    /** One pass of ssd1306_WriteString's loop: write str[k] and report what ssd1306_WriteChar returned. */
    method WriteNext(str: seq<u8>, k: nat, font: Font, color: Color) returns (w: u8)
      requires Valid() && k < |str| && str[k] != 0 && TextOk(currentX, currentY, font, str, k)
      modifies this`currentX, buffer
      ensures w != str[k] ==>
        Text(old(buffer[..]), old(currentX), currentY, font, str, k, color, inverted)
        == TextResult(buffer[..], currentX, str[k])
      ensures w == str[k] ==>
        TextOk(currentX, currentY, font, str, k + 1)
        && Text(old(buffer[..]), old(currentX), currentY, font, str, k, color, inverted)
           == Text(buffer[..], currentX, currentY, font, str, k + 1, color, inverted)
    {
      ghost var s0, x0, y0 := buffer[..], currentX, currentY;
      TextStep(s0, x0, y0, font, str, k, color, inverted);
      w := WriteChar(str[k], font, color);
      if Fits(x0, y0, font) {
        assert buffer[..] == Glyph(s0, x0, y0, Bitmap(font, str[k]), font.width, color, inverted, font.height);
        assert currentX == x0 + font.width && w == str[k];
      } else {
        assert buffer[..] == s0 && currentX == x0 && w != str[k];
      }
    }

    /**
     * ssd1306_FillCircle: White at every point of the disc of radius r
     * around (x0, y0), row by row, through ssd1306_DrawPixel. A radius of
     * 0x7FFF would make the int16_t loop counter wrap and never stop.
     */
    method FillCircle(x0: i16, y0: i16, radius: i16)
      requires Valid() && -0x8000 < radius < 0x7FFF
      modifies buffer
      ensures buffer[..] == CircleRows(old(buffer[..]), x0, y0, radius, radius + 1, Ink(White, inverted))
    {
      var y: i16 := -radius;
      while y <= radius
        invariant -radius <= y && (y <= radius + 1 || y == -radius)
        invariant buffer[..] == CircleRows(old(buffer[..]), x0, y0, radius, y, Ink(White, inverted))
      {
        FillCircleRow(x0, y0, radius, y);
        y := y + 1;
      }
    }

    /** The inner loop of ssd1306_FillCircle for row y. */
    method FillCircleRow(x0: i16, y0: i16, radius: i16, y: i16)
      requires Valid() && -0x8000 < radius < 0x7FFF
      modifies buffer
      ensures buffer[..] == CircleRow(old(buffer[..]), x0, y0, radius, y, radius + 1, Ink(White, inverted))
    {
      var x: i16 := -radius;
      while x <= radius
        invariant -radius <= x && (x <= radius + 1 || x == -radius)
        invariant buffer[..] == CircleRow(old(buffer[..]), x0, y0, radius, y, x, Ink(White, inverted))
      {
        if x * x + y * y <= radius * radius {
          DrawPixel(U8(x0 + x), U8(y0 + y), White);
        }
        x := x + 1;
      }
    }

    /** ssd1306_UpdateScreen: pages 0..7, each addressed and then sent whole. */
    method UpdateScreen(bus: Bus)
      requires Valid()
      modifies bus`trace
      ensures bus.trace == old(bus.trace) + Pages(buffer[..], 8)
    {
      var i := 0;
      while i < 8
        invariant 0 <= i <= 8
        invariant bus.trace == old(bus.trace) + Pages(buffer[..], i)
      {
        SendPage(bus, i);
        AppendAssoc(old(bus.trace), Pages(buffer[..], i), PageFrame(buffer[..], i));
        i := i + 1;
      }
    }

    /** One iteration of ssd1306_UpdateScreen's loop. */
    method SendPage(bus: Bus, i: nat)
      requires Valid() && i < 8
      modifies bus`trace
      ensures bus.trace == old(bus.trace) + PageFrame(buffer[..], i)
    {
      ghost var t0 := bus.trace;
      I2c.WriteCommand(bus, 0xB0 + i as byte);
      I2c.WriteCommand(bus, 0x00);
      I2c.WriteCommand(bus, 0x10);
      I2c.WriteData(bus, buffer, 128 * i, 128);
      assert buffer[128 * i..128 * i + 128] == buffer[..][128 * i..128 * i + 128];
      ghost var c1, c2, c3 := I2c.CommandTransaction(0xB0 + i as byte), I2c.CommandTransaction(0x00),
        I2c.CommandTransaction(0x10);
      ghost var d := I2c.DataTransaction(buffer[128 * i..128 * i + 128]);
      AppendAssoc(t0, c1, c2);
      AppendAssoc(t0, c1 + c2, c3);
      AppendAssoc(t0, c1 + c2 + c3, d);
    }
  }
}
