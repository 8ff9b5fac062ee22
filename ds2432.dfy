/**
 * The DS2432 1-Wire EEPROM of the base station: 128 bytes in four pages of
 * 32, read a page at a time with the Read Memory command and written eight
 * bytes at a time through the scratchpad. The driver is specified by the
 * driver-level log `ops` of the 1-Wire line: each reset with its presence
 * answer, each byte written or read, each delay.
 */
module Ds2432 {
  import opened Common
  import opened OneWire

  const PAGE_NUMBERS: nat := 4
  const PAGE_SIZE: nat := 32

  /** DS2432 function commands (the source sends Read Memory and Copy Scratchpad under the names OW_CMD_SEARCHROM and OW_CMD_MATCHROM). */
  const WRITE_SCRATCHPAD: int := 0x0F
  const READ_SCRATCHPAD: int := 0xAA
  /** The authorization byte DS2432_WritePage sends after Copy Scratchpad's target address. */
  const COPY_AUTHORIZATION: int := 0x07

  /** One Wrote entry per byte, in order. */
  function Wrotes(bs: seq<u8>): (ops: seq<WireOp>)
    ensures |ops| == |bs| && forall k :: 0 <= k < |bs| ==> ops[k] == Wrote(bs[k])
  {
    if |bs| == 0 then [] else Wrotes(bs[..|bs| - 1]) + [Wrote(bs[|bs| - 1])]
  }

  /** One Got entry per byte, in order. */
  function Gots(bs: seq<u8>): (ops: seq<WireOp>)
    ensures |ops| == |bs| && forall k :: 0 <= k < |bs| ==> ops[k] == Got(bs[k])
  {
    if |bs| == 0 then [] else Gots(bs[..|bs| - 1]) + [Got(bs[|bs| - 1])]
  }

  lemma GotsSnoc(bs: seq<u8>, b: u8)
    ensures Gots(bs + [b]) == Gots(bs) + [Got(b)]
  {
    assert (bs + [b])[..|bs|] == bs;
  }

  lemma WrotesSnoc(bs: seq<u8>, b: u8)
    ensures Wrotes(bs + [b]) == Wrotes(bs) + [Wrote(b)]
  {
    assert (bs + [b])[..|bs|] == bs;
  }

  /** TA1 of a page: `(page << 5) & 0xFF`, the page's first address as an `unsigned char`. */
  function PageAddress(page: u8): (ta1: u8)
    ensures page < 8 ==> ta1 == 32 * page
  {
    (page * 32) % 0x100
  }

  /** OW_writeByte seen at the driver level. */
  method Send(w: Line, data: int)
    modifies w`trace, w`ops
    ensures w.ops == old(w.ops) + [Wrote(LowByte(data))]
  {
    w.WriteByte(data);
  }

  /** OW_readByte seen at the driver level. */
  method Receive(w: Line) returns (b: u8)
    modifies w`trace, w`samples, w`ops
    ensures w.ops == old(w.ops) + [Got(b)]
  {
    b := w.ReadByte();
  }

  // ---------------------------------------------------------------- reading

  /** How many bytes DS2432_ReadPage reads: `size`, at most a page. */
  function PageChunk(size: u8): (n: nat)
    ensures n <= PAGE_SIZE && n <= size
  {
    if size > 32 then 32 else size
  }

  /**
   * DS2432_ReadPage after a presence pulse: SKIP ROM, Read Memory, TA1,
   * TA2 = 0, a 100 us delay, then the bytes read, which are `data`.
   */
  function ReadPageOps(page: u8, data: seq<u8>): seq<WireOp>
  {
    [Presence(true), Wrote(0xCC), Wrote(0xF0), Wrote(PageAddress(page)), Wrote(0), Pause(100)] + Gots(data)
  }

  /**
   * DS2432_ReadPage: without a presence pulse, false with `page_data`
   * untouched; otherwise true, with the first PageChunk(size) bytes of
   * `page_data` holding, in order, the bytes read after the command.
   */
  method ReadPage(w: Line, page: u8, page_data: array<u8>, size: u8) returns (ok: bool)
    requires PageChunk(size) <= page_data.Length
    modifies w`trace, w`samples, w`ops, page_data
    ensures ok <==> old(w.samples) !in w.line
    ensures page_data[PageChunk(size)..] == old(page_data[PageChunk(size)..])
    ensures !ok ==> w.ops == old(w.ops) + [Presence(false)] && page_data[..] == old(page_data[..])
    ensures ok ==> w.ops == old(w.ops) + ReadPageOps(page, page_data[..PageChunk(size)])
  {
    var absent := w.Reset();
    if absent != 0 {
      return false;
    }
    Send(w, OW_CMD_SKIPROM);
    Send(w, OW_CMD_SEARCHROM);
    Send(w, PageAddress(page));
    Send(w, 0x00);
    w.DriverDelay(100);
    ReceiveBytes(w, page_data, PageChunk(size));
    ok := true;
  }

  /** The loop of DS2432_ReadPage: the next `n` bytes read into page_data[0..n), in order. */
  method ReceiveBytes(w: Line, page_data: array<u8>, n: nat)
    requires n <= page_data.Length
    modifies w`trace, w`samples, w`ops, page_data
    ensures w.ops == old(w.ops) + Gots(page_data[..n])
    ensures page_data[n..] == old(page_data[n..])
  {
    for i := 0 to n
      invariant w.ops == old(w.ops) + Gots(page_data[..i])
      invariant page_data[i..] == old(page_data[i..])
    {
      var b := Receive(w);
      page_data[i] := b;
      assert page_data[..i + 1] == page_data[..i] + [b];
      GotsSnoc(page_data[..i], b);
      assert page_data[i + 1..] == page_data[i..][1..];
    }
  }

  /**
   * How many pages DS2432_ReadData and DS2432_WriteData visit: one up to a
   * page, else one more than for 32 bytes less, at most four (that is,
   * ceil(size / 32) capped at four, as PagesByDivision shows).
   */
  function DataPages(size: u8): (n: nat)
    ensures 1 <= n <= PAGE_NUMBERS
  {
    if size <= 32 then 1
    else
      var p := DataPages(size - 32) + 1;
      if p > 4 then 4 else p
  }

  /** The bytes of the last page visited: what is left once whole pages are taken off (size % 32, or 32 when that is zero). */
  function LastChunk(size: u8): (n: nat)
    ensures n <= PAGE_SIZE && n <= size
    ensures size > 0 ==> n > 0
  {
    if size <= 32 then size else LastChunk(size - 32)
  }

  /** DataPages is the page count the source computes with `/` and `%`. */
  lemma {:induction false} PagesByDivision(size: u8)
    ensures size > 32 ==> DataPages(size) == if size % 32 == 0 then (if size / 32 > 4 then 4 else size / 32) else (if size / 32 + 1 > 4 then 4 else size / 32 + 1)
  {
    if size > 64 {
      PagesByDivision(size - 32);
    }
  }

  /** LastChunk is the remainder the source computes with `%`, 32 when that is zero. */
  lemma {:induction false} LastByRemainder(size: u8)
    ensures size > 32 ==> LastChunk(size) == if size % 32 == 0 then 32 else size % 32
  {
    if size > 64 {
      LastByRemainder(size - 32);
    }
  }

  /**
   * The bytes page `i` covers: 32, and LastChunk(size) for the last page
   * visited, also when the cap of four pages cut the data short.
   */
  function DataChunk(size: u8, i: nat): (n: nat)
    ensures n <= PAGE_SIZE
  {
    if i == DataPages(size) - 1 then LastChunk(size) else 32
  }

  /** The bytes the first `pages` pages cover, from offset 0 on. */
  function DataRead(size: u8, pages: nat): (n: nat)
    requires pages <= DataPages(size)
    ensures pages < DataPages(size) ==> n == 32 * pages
  {
    if pages == 0 then 0 else 32 * (pages - 1) + DataChunk(size, pages - 1)
  }

  /** DS2432_ReadData's log for the first `pages` pages, `data` being the bytes they stored. */
  function ReadDataOps(size: u8, data: seq<u8>, pages: nat): seq<WireOp>
    requires pages <= DataPages(size) && |data| == DataRead(size, pages)
  {
    if pages == 0 then []
    else ReadDataOps(size, data[..32 * (pages - 1)], pages - 1) + ReadPageOps(pages - 1, data[32 * (pages - 1)..])
  }

  lemma ReadDataOpsNext(size: u8, pages: nat, before: seq<u8>, chunk: seq<u8>)
    requires pages < DataPages(size) && |before| == DataRead(size, pages) && |chunk| == DataChunk(size, pages)
    ensures ReadDataOps(size, before + chunk, pages + 1) == ReadDataOps(size, before, pages) + ReadPageOps(pages, chunk)
  {
    assert (before + chunk)[..32 * pages] == before;
    assert (before + chunk)[32 * pages..] == chunk;
  }

  /** memcpy(dst + dstOffset, src + srcOffset, n), the two buffers being distinct. */
  method Memcpy(dst: array<u8>, dstOffset: nat, src: array<u8>, srcOffset: nat, n: nat)
    requires dstOffset + n <= dst.Length && srcOffset + n <= src.Length && dst != src
    modifies dst
    ensures dst[..] == old(dst[..dstOffset]) + src[srcOffset..srcOffset + n] + old(dst[dstOffset + n..])
  {
    forall k | 0 <= k < n {
      dst[dstOffset + k] := src[srcOffset + k];
    }
    assert dst[..] == old(dst[..dstOffset]) + src[srcOffset..srcOffset + n] + old(dst[dstOffset + n..]);
  }

  /** Bytes copied right after the bytes placed so far extend them. */
  lemma Place(before: seq<u8>, got: seq<u8>, original: seq<u8>, chunk: seq<u8>)
    requires |got| + |chunk| <= |original| && before == got + original[|got|..]
    ensures before[..|got|] + chunk + before[|got| + |chunk|..] == (got + chunk) + original[|got + chunk|..]
  {
    assert before[..|got|] == got;
    assert before[|got| + |chunk|..] == original[|got| + |chunk|..];
  }

  /** The two parts of an array holding the bytes placed so far before the rest of its first contents. */
  lemma Split(now: seq<u8>, got: seq<u8>, original: seq<u8>)
    requires |got| <= |original| && now == got + original[|got|..]
    ensures now[..|got|] == got && now[|got|..] == original[|got|..]
  {
  }

  /**
   * The body of DS2432_ReadData's page loop: page `pageIndex` read into a
   * buffer of its own and, when the device answered, copied to offset
   * 32 * pageIndex, right after the bytes `got` placed so far over the
   * array's first contents `original`; `chunk` is what was read.
   */
  method ReadDataPage(w: Line, page_data: array<u8>, pageIndex: u8, readSize: u8, ghost got: seq<u8>, ghost original: seq<u8>)
    returns (present: bool, ghost chunk: seq<u8>)
    requires readSize <= 32 && |got| == 32 * pageIndex && |got| + readSize <= |original| == page_data.Length
    requires page_data[..] == got + original[|got|..]
    modifies w`trace, w`samples, w`ops, page_data
    ensures !present ==> w.ops == old(w.ops) + [Presence(false)] && page_data[..] == old(page_data[..])
    ensures present ==> |chunk| == readSize && w.ops == old(w.ops) + ReadPageOps(pageIndex, chunk)
    ensures present ==> page_data[..] == (got + chunk) + original[|got + chunk|..]
  {
    var readData := new u8[readSize];
    present := ReadPage(w, pageIndex, readData, readSize);
    chunk := readData[..];
    if present {
      assert readData[..PageChunk(readSize)] == chunk;
      ghost var before := page_data[..];
      Memcpy(page_data, 32 * pageIndex, readData, 0, readSize as nat);
      Place(before, got, original, chunk);
    }
  }

  /** The pages read before any page are within those read in all. */
  lemma DataReadWithin(size: u8, pages: nat)
    requires pages <= DataPages(size)
    ensures DataRead(size, pages) <= DataRead(size, DataPages(size))
  {
  }

  /** Up to four pages, the pages read cover exactly the bytes asked for. */
  lemma ReadDataCovers(size: u8)
    requires size <= 128
    ensures DataRead(size, DataPages(size)) == size
  {
    PagesByDivision(size);
    LastByRemainder(size);
  }

  /**
   * Beyond four pages, the last page read is cut to size % 32 bytes when
   * that is not zero: 129 bytes asked for give 97 read.
   */
  lemma ReadDataCapped(size: u8)
    requires size > 128
    ensures DataPages(size) == 4
    ensures DataRead(size, 4) == if size % 32 == 0 then 128 else 96 + size % 32
    ensures DataRead(size, 4) < size
  {
    PagesByDivision(size);
    LastByRemainder(size);
  }

  /** The page loop of DS2432_ReadData, for more than one page's worth of bytes. */
  method ReadPages(w: Line, page_data: array<u8>, size: u8, pageNumbers: nat) returns (ok: bool, ghost pages: nat)
    requires size > 32 && pageNumbers == DataPages(size) && DataRead(size, pageNumbers) <= page_data.Length
    modifies w`trace, w`samples, w`ops, page_data
    ensures pages <= pageNumbers && (ok ==> pages == pageNumbers) && (!ok ==> pages < pageNumbers)
    ensures w.ops == old(w.ops) + ReadDataOps(size, page_data[..DataRead(size, pages)], pages) + if ok then [] else [Presence(false)]
    ensures page_data[DataRead(size, pages)..] == old(page_data[DataRead(size, pages)..])
  {
    ghost var got: seq<u8>, log: seq<WireOp> := [], [];
    for pageIndex := 0 to pageNumbers
      invariant |got| == DataRead(size, pageIndex)
      invariant page_data[..] == got + old(page_data[..])[|got|..]
      invariant log == ReadDataOps(size, got, pageIndex)
      invariant w.ops == old(w.ops) + log
    {
      var readSize: u8;
      if pageIndex == pageNumbers - 1 && size % 32 != 0 {
        readSize := size % 32;
      } else {
        readSize := 32;
      }
      assert readSize as nat == DataChunk(size, pageIndex) by {
        LastByRemainder(size);
      }
      DataReadWithin(size, pageIndex + 1);
      assert |got| == 32 * pageIndex;
      var present, chunk := ReadDataPage(w, page_data, pageIndex, readSize, got, old(page_data[..]));
      if !present {
        ok, pages := false, pageIndex;
        Split(page_data[..], got, old(page_data[..]));
        return;
      }
      ReadDataOpsNext(size, pageIndex, got, chunk);
      AppendAssoc(old(w.ops), log, ReadPageOps(pageIndex, chunk));
      got, log := got + chunk, log + ReadPageOps(pageIndex, chunk);
    }
    ok, pages := true, pageNumbers;
    Split(page_data[..], got, old(page_data[..]));
  }

  /**
   * DS2432_ReadData: the pages in order, each into its own place of
   * `page_data` at offset 32 * page; `pages` is the number of pages read
   * before the first one that got no presence pulse, or all of them.
   */
  method ReadData(w: Line, page_data: array<u8>, size: u8) returns (ok: bool, ghost pages: nat)
    requires DataRead(size, DataPages(size)) <= page_data.Length
    modifies w`trace, w`samples, w`ops, page_data
    ensures pages <= DataPages(size) && (ok ==> pages == DataPages(size)) && (!ok ==> pages < DataPages(size))
    ensures w.ops == old(w.ops) + ReadDataOps(size, page_data[..DataRead(size, pages)], pages) + if ok then [] else [Presence(false)]
    ensures page_data[DataRead(size, pages)..] == old(page_data[DataRead(size, pages)..])
  {
    if size <= 32 {
      ok := ReadPage(w, 0, page_data, size);
      pages := if ok then 1 else 0;
      assert page_data[..DataRead(size, pages)][..0] == [];
      return;
    }
    var pageNumbers: nat;
    if size % 32 == 0 {
      pageNumbers := size / 32;
    } else {
      pageNumbers := size / 32 + 1;
    }
    if pageNumbers > PAGE_NUMBERS {
      pageNumbers := PAGE_NUMBERS;
    }
    PagesByDivision(size);
    assert pageNumbers == DataPages(size);
    ok, pages := ReadPages(w, page_data, size, pageNumbers);
  }

  // ---------------------------------------------------------------- writing

  /** `addressMSB += 8` on an `unsigned char`. */
  function NextRow(addr: u8): u8
  {
    if addr < 0xF8 then addr + 8 else addr - 0xF8
  }

  /** NextRow is addition of 8 modulo 256. */
  lemma NextRowWraps(addr: u8)
    ensures NextRow(addr) as int == (addr + 8) % 0x100
  {
  }

  /** The target address DS2432_WritePage uses for row `row` of page `page`. */
  function RowAddress(page: u8, row: nat): u8
  {
    if row == 0 then PageAddress(page) else NextRow(RowAddress(page, row - 1))
  }

  /** Within one of the four pages, row `row` is written at 32 * page + 8 * row. */
  lemma {:induction false} RowAddressInPage(page: u8, row: nat)
    requires page < PAGE_NUMBERS && row < 4
    ensures RowAddress(page, row) == 32 * page + 8 * row
  {
    if row > 0 {
      RowAddressInPage(page, row - 1);
    }
  }

  /**
   * What the device sent back while one row was written: the two CRC bytes
   * after Write Scratchpad; TA1, TA2 and E/S, then the eight scratchpad
   * bytes and two CRC bytes, after Read Scratchpad; the byte read after
   * Copy Scratchpad. DS2432_WritePage reads all of them and uses none.
   */
  datatype RowReply = RowReply(crc: seq<u8>, target: seq<u8>, scratchpad: seq<u8>, status: u8)

  predicate Replied(r: RowReply)
  {
    |r.crc| == 2 && |r.target| == 3 && |r.scratchpad| == 10
  }


  /** Write Scratchpad: SKIP ROM, 0x0F, TA1, TA2 = 0, the eight bytes, two bytes read, 200 us. */
  function WriteScratchpadOps(addr: u8, row: seq<u8>, crc: seq<u8>): seq<WireOp>
  {
    [Presence(true), Wrote(0xCC), Wrote(0x0F), Wrote(addr), Wrote(0)] + Wrotes(row) + Gots(crc) + [Pause(200)]
  }

  /** Read Scratchpad: SKIP ROM, 0xAA, three bytes read, 10 us, ten bytes read. */
  function ReadScratchpadOps(target: seq<u8>, scratchpad: seq<u8>): seq<WireOp>
  {
    [Presence(true), Wrote(0xCC), Wrote(0xAA)] + Gots(target) + [Pause(10)] + Gots(scratchpad)
  }

  /** Copy Scratchpad: SKIP ROM, 0x55, TA1, TA2 = 0, 0x07, 15 ms, one byte read. */
  function CopyScratchpadOps(addr: u8, status: u8): seq<WireOp>
  {
    [Presence(true), Wrote(0xCC), Wrote(0x55), Wrote(addr), Wrote(0), Wrote(7), Pause(15000), Got(status)]
  }

  /** One row written: all three stages. */
  function RowOps(addr: u8, row: seq<u8>, r: RowReply): seq<WireOp>
  {
    WriteScratchpadOps(addr, row, r.crc) + ReadScratchpadOps(r.target, r.scratchpad) + CopyScratchpadOps(addr, r.status)
  }

  /** The first `stages` of the three stages that write one row, when fewer than three were done. */
  function StagesOps(addr: u8, row: seq<u8>, r: RowReply, stages: nat): seq<WireOp>
  {
    if stages == 0 then []
    else if stages == 1 then WriteScratchpadOps(addr, row, r.crc)
    else WriteScratchpadOps(addr, row, r.crc) + ReadScratchpadOps(r.target, r.scratchpad)
  }

  /** DS2432_WritePage's log for the rows written so far, row k carrying data[8k..8k+8). */
  function PageOps(page: u8, data: seq<u8>, rows: seq<RowReply>): seq<WireOp>
    requires 8 * |rows| <= |data|
  {
    if |rows| == 0 then []
    else
      var k := |rows| - 1;
      PageOps(page, data, rows[..k]) + RowOps(RowAddress(page, k), data[8 * k..8 * k + 8], rows[k])
  }

  /** The loop sending a row: page_data[from..from + 8), in order. */
  method SendRow(w: Line, page_data: array<u8>, from: nat)
    requires from + 8 <= page_data.Length
    modifies w`trace, w`ops
    ensures w.ops == old(w.ops) + Wrotes(page_data[from..from + 8])
  {
    for i := 0 to 8
      invariant w.ops == old(w.ops) + Wrotes(page_data[from..from + i])
    {
      Send(w, page_data[i + from]);
      assert page_data[from..from + i + 1] == page_data[from..from + i] + [page_data[i + from]];
      WrotesSnoc(page_data[from..from + i], page_data[i + from]);
      AppendAssoc(old(w.ops), Wrotes(page_data[from..from + i]), [Wrote(page_data[i + from])]);
    }
  }

  /** `n` bytes read and dropped; `got` is what they were. */
  method ReceiveN(w: Line, n: nat) returns (ghost got: seq<u8>)
    modifies w`trace, w`samples, w`ops
    ensures |got| == n && w.ops == old(w.ops) + Gots(got)
  {
    got := [];
    for i := 0 to n
      invariant |got| == i && w.ops == old(w.ops) + Gots(got)
    {
      var b := Receive(w);
      GotsSnoc(got, b);
      AppendAssoc(old(w.ops), Gots(got), [Got(b)]);
      got := got + [b];
    }
  }

  /** The first stage of a row: the eight bytes from page_data[from] sent to the scratchpad for target address `addr`. */
  method WriteScratchpad(w: Line, addr: u8, page_data: array<u8>, from: nat) returns (present: bool, ghost crc: seq<u8>)
    requires from + 8 <= page_data.Length
    modifies w`trace, w`samples, w`ops
    ensures !present ==> w.ops == old(w.ops) + [Presence(false)]
    ensures present ==> |crc| == 2 && w.ops == old(w.ops) + WriteScratchpadOps(addr, page_data[from..from + 8], crc)
  {
    var absent := w.Reset();
    if absent != 0 {
      return false, [];
    }
    Send(w, OW_CMD_SKIPROM);
    Send(w, WRITE_SCRATCHPAD);
    Send(w, addr);
    Send(w, 0x00);
    ghost var command := w.ops;
    SendRow(w, page_data, from);
    ghost var sent := w.ops;
    crc := ReceiveN(w, 2);
    w.DriverDelay(200);
    present := true;
    assert command == old(w.ops) + [Presence(true), Wrote(0xCC), Wrote(0x0F), Wrote(addr), Wrote(0)];
    assert w.ops == sent + Gots(crc) + [Pause(200)];
  }

  /** The second stage: the scratchpad read back, three bytes, a 10 us delay, then ten more. */
  method ReadScratchpad(w: Line) returns (present: bool, ghost target: seq<u8>, ghost scratchpad: seq<u8>)
    modifies w`trace, w`samples, w`ops
    ensures !present ==> w.ops == old(w.ops) + [Presence(false)]
    ensures present ==> |target| == 3 && |scratchpad| == 10 && w.ops == old(w.ops) + ReadScratchpadOps(target, scratchpad)
  {
    var absent := w.Reset();
    if absent != 0 {
      return false, [], [];
    }
    Send(w, OW_CMD_SKIPROM);
    Send(w, READ_SCRATCHPAD);
    ghost var command := w.ops;
    target := ReceiveN(w, 3);
    w.DriverDelay(10);
    ghost var waited := w.ops;
    scratchpad := ReceiveN(w, 10);
    present := true;
    assert command == old(w.ops) + [Presence(true), Wrote(0xCC), Wrote(0xAA)];
    assert waited == command + Gots(target) + [Pause(10)];
  }

  /** The third stage: the scratchpad copied to target address `addr`, then one byte read after 15 ms. */
  method CopyScratchpad(w: Line, addr: u8) returns (present: bool, ghost status: u8)
    modifies w`trace, w`samples, w`ops
    ensures !present ==> w.ops == old(w.ops) + [Presence(false)]
    ensures present ==> w.ops == old(w.ops) + CopyScratchpadOps(addr, status)
  {
    var absent := w.Reset();
    if absent != 0 {
      return false, 0;
    }
    Send(w, OW_CMD_SKIPROM);
    Send(w, OW_CMD_MATCHROM);
    Send(w, addr);
    Send(w, 0x00);
    Send(w, COPY_AUTHORIZATION);
    w.DriverDelay(15000);
    status := Receive(w);
    present := true;
  }

  /** A log holding the rows done goes on to hold one more row. */
  lemma RowWritten(start: seq<WireOp>, before: seq<WireOp>, page: u8, data: seq<u8>, rows: seq<RowReply>, r: RowReply)
    requires 8 * |rows| + 8 <= |data| && before == start + PageOps(page, data, rows)
    ensures before + RowOps(RowAddress(page, |rows|), data[8 * |rows|..8 * |rows| + 8], r) == start + PageOps(page, data, rows + [r])
  {
    PageOpsNext(page, data, rows, r);
    AppendAssoc(start, PageOps(page, data, rows), RowOps(RowAddress(page, |rows|), data[8 * |rows|..8 * |rows| + 8], r));
  }

  lemma PageOpsNext(page: u8, data: seq<u8>, rows: seq<RowReply>, r: RowReply)
    requires 8 * |rows| + 8 <= |data|
    ensures PageOps(page, data, rows + [r]) == PageOps(page, data, rows) + RowOps(RowAddress(page, |rows|), data[8 * |rows|..8 * |rows| + 8], r)
  {
    var rows' := rows + [r];
    assert rows'[..|rows|] == rows && rows'[|rows|] == r;
    assert |rows'| - 1 == |rows|;
  }

  /**
   * One pass of DS2432_WritePage's loop: the three stages for the eight
   * bytes from page_data[from] at target address `addr`. True when all
   * three got a presence pulse; otherwise `stages` were done and the log
   * ends with the reset nobody answered.
   */
  method WriteRow(w: Line, addr: u8, page_data: array<u8>, from: nat, ghost row: seq<u8>) returns (ok: bool, ghost r: RowReply, ghost stages: nat)
    requires from + 8 <= page_data.Length && row == page_data[from..from + 8]
    modifies w`trace, w`samples, w`ops
    ensures stages <= 3 && (ok <==> stages == 3) && (ok ==> Replied(r))
    ensures ok ==> w.ops == old(w.ops) + RowOps(addr, row, r)
    ensures !ok ==> w.ops == old(w.ops) + StagesOps(addr, row, r, stages) + [Presence(false)]
  {
    var present, crc := WriteScratchpad(w, addr, page_data, from);
    if !present {
      ok, r, stages := false, RowReply([], [], [], 0), 0;
      assert StagesOps(addr, row, r, 0) == [];
      return;
    }
    ghost var written := w.ops;
    ghost var target, scratchpad;
    present, target, scratchpad := ReadScratchpad(w);
    if !present {
      ok, r, stages := false, RowReply(crc, [], [], 0), 1;
      assert StagesOps(addr, row, r, 1) == WriteScratchpadOps(addr, row, crc);
      return;
    }
    ghost var reread := w.ops;
    ghost var status;
    present, status := CopyScratchpad(w, addr);
    r := RowReply(crc, target, scratchpad, status);
    if !present {
      ok, stages := false, 2;
      assert StagesOps(addr, row, r, 2) == WriteScratchpadOps(addr, row, crc) + ReadScratchpadOps(target, scratchpad);
      AppendAssoc(old(w.ops), WriteScratchpadOps(addr, row, crc), ReadScratchpadOps(target, scratchpad));
      return;
    }
    ok, stages := true, 3;
    AppendAssoc(old(w.ops), WriteScratchpadOps(addr, row, crc), ReadScratchpadOps(target, scratchpad));
  }

  /**
   * DS2432_WritePage's log when a stage got no presence pulse: the rows
   * done, the stages of the next row done, and the reset nobody answered.
   */
  function PageAbortOps(page: u8, data: seq<u8>, rows: seq<RowReply>, last: RowReply, stages: nat): seq<WireOp>
    requires 8 * |rows| + 8 <= |data|
  {
    PageOps(page, data, rows) + (StagesOps(RowAddress(page, |rows|), data[8 * |rows|..8 * |rows| + 8], last, stages) + [Presence(false)])
  }

  /** WriteRow for row |rows| of a page, its log appended to the log of the rows done. */
  method WritePageRow(w: Line, page: u8, addr: u8, page_data: array<u8>, from: nat, ghost rows: seq<RowReply>, ghost start: seq<WireOp>)
    returns (ok: bool, ghost r: RowReply, ghost stages: nat)
    requires from == 8 * |rows| && from + 8 <= page_data.Length && addr == RowAddress(page, |rows|)
    requires w.ops == start + PageOps(page, page_data[..], rows)
    modifies w`trace, w`samples, w`ops
    ensures ok ==> Replied(r) && w.ops == start + PageOps(page, page_data[..], rows + [r])
    ensures !ok ==> stages < 3 && w.ops == start + PageAbortOps(page, page_data[..], rows, r, stages)
  {
    ghost var data, before := page_data[..], w.ops;
    ghost var row := data[8 * |rows|..8 * |rows| + 8];
    ok, r, stages := WriteRow(w, addr, page_data, from, row);
    if ok {
      RowWritten(start, before, page, data, rows, r);
    } else {
      AppendAssoc(start, PageOps(page, data, rows), StagesOps(addr, row, r, stages) + [Presence(false)]);
    }
  }

  /**
   * DS2432_WritePage: rows 0 .. numOfRows - 1 of `page_data`, each through
   * the three stages at target addresses 8 apart from the page's first.
   * True when every stage of every row got a presence pulse; otherwise
   * `rows` are the rows done, `stages` (fewer than three) the stages of the
   * next row done, and the log ends with the reset nobody answered.
   */
  method WritePage(w: Line, page: u8, page_data: array<u8>, numOfRows: u8)
    returns (ok: bool, ghost rows: seq<RowReply>, ghost last: RowReply, ghost stages: nat)
    requires 8 * numOfRows <= page_data.Length
    modifies w`trace, w`samples, w`ops
    ensures |rows| <= numOfRows && (ok <==> |rows| == numOfRows) && forall r <- rows :: Replied(r)
    ensures ok ==> w.ops == old(w.ops) + PageOps(page, page_data[..], rows)
    ensures !ok ==> stages < 3 && w.ops == old(w.ops) + PageAbortOps(page, page_data[..], rows, last, stages)
  {
    var addressMSB := PageAddress(page);
    rows := [];
    for rowNum := 0 to numOfRows
      invariant addressMSB == RowAddress(page, rowNum) && |rows| == rowNum
      invariant forall r <- rows :: Replied(r)
      invariant w.ops == old(w.ops) + PageOps(page, page_data[..], rows)
    {
      var present, r, done := WritePageRow(w, page, addressMSB, page_data, 8 * rowNum, rows, old(w.ops));
      if !present {
        ok, last, stages := false, r, done;
        return;
      }
      rows := rows + [r];
      addressMSB := NextRow(addressMSB);
    }
    ok, last, stages := true, RowReply([], [], [], 0), 0;
  }

  /** How many rows a chunk of `n` bytes gives DS2432_WritePage: whole rows of eight only. */
  function RowsIn(n: nat): (rows: nat)
    ensures 8 * rows <= n < 8 * rows + 8
  {
    if n < 8 then 0 else RowsIn(n - 8) + 1
  }

  /** RowsIn is the source's `n / 8`. */
  lemma RowsByDivision(n: nat)
    ensures RowsIn(n) == n / 8
  {
  }

  /** The log only depends on the bytes of the rows done. */
  lemma {:induction false} PageOpsPrefix(page: u8, a: seq<u8>, b: seq<u8>, rows: seq<RowReply>)
    requires 8 * |rows| <= |a| && 8 * |rows| <= |b| && a[..8 * |rows|] == b[..8 * |rows|]
    ensures PageOps(page, a, rows) == PageOps(page, b, rows)
  {
    if |rows| > 0 {
      var k := |rows| - 1;
      assert a[..8 * k] == b[..8 * k] by {
        assert a[..8 * k] == a[..8 * |rows|][..8 * k];
        assert b[..8 * k] == b[..8 * |rows|][..8 * k];
      }
      PageOpsPrefix(page, a, b, rows[..k]);
      assert a[8 * k..8 * k + 8] == b[8 * k..8 * k + 8] by {
        assert a[8 * k..8 * k + 8] == a[..8 * |rows|][8 * k..];
        assert b[8 * k..8 * k + 8] == b[..8 * |rows|][8 * k..];
      }
    }
  }

  /** The logs of several pages, one after the other. */
  function Concat(logs: seq<seq<WireOp>>): (all: seq<WireOp>)
    ensures |logs| == 0 ==> all == []
    ensures |logs| == 1 ==> all == logs[0]
  {
    if |logs| == 0 then [] else Concat(logs[..|logs| - 1]) + logs[|logs| - 1]
  }

  lemma ConcatSnoc(logs: seq<seq<WireOp>>, log: seq<WireOp>)
    ensures Concat(logs + [log]) == Concat(logs) + log
  {
    var logs' := logs + [log];
    assert logs'[..|logs|] == logs && logs'[|logs|] == log;
  }

  /** The bytes DS2432_WriteData copies out for page k: data[32k .. 32k + DataChunk(size, k)). */
  function WriteChunk(size: u8, data: seq<u8>, k: nat): (chunk: seq<u8>)
    requires k < DataPages(size) && DataRead(size, k + 1) <= |data|
    ensures |chunk| == DataChunk(size, k) && 8 * RowsIn(|chunk|) <= |chunk|
  {
    data[32 * k..32 * k + DataChunk(size, k)]
  }

  /** Page k was given RowsIn of its chunk as its number of rows, and `log` is its log. */
  predicate PageLogged(size: u8, data: seq<u8>, k: nat, rows: seq<RowReply>, log: seq<WireOp>)
  {
    k < DataPages(size) && DataRead(size, k + 1) <= |data| && |rows| == RowsIn(DataChunk(size, k))
    && (forall r <- rows :: Replied(r)) && log == PageOps(k as u8, WriteChunk(size, data, k), rows)
  }

  /** `pages` are the pages DS2432_WriteData completed, in order, and `logs` their logs. */
  predicate PagesLogged(size: u8, data: seq<u8>, pages: seq<seq<RowReply>>, logs: seq<seq<WireOp>>)
  {
    |logs| == |pages| <= DataPages(size)
    && (|pages| == 0 || var k := |pages| - 1; PagesLogged(size, data, pages[..k], logs[..k]) && PageLogged(size, data, k, pages[k], logs[k]))
  }

  lemma PagesLoggedNext(size: u8, data: seq<u8>, pages: seq<seq<RowReply>>, logs: seq<seq<WireOp>>, rows: seq<RowReply>, log: seq<WireOp>)
    requires PagesLogged(size, data, pages, logs) && PageLogged(size, data, |pages|, rows, log)
    ensures PagesLogged(size, data, pages + [rows], logs + [log])
  {
    var pages', logs' := pages + [rows], logs + [log];
    assert pages'[..|pages|] == pages && pages'[|pages|] == rows;
    assert logs'[..|pages|] == logs && logs'[|pages|] == log;
    assert |pages'| - 1 == |pages|;
  }

  /**
   * What DS2432_WriteData did, its log running from `start` to `ops`: the
   * pages it completed and, when it failed, the rows and stages the next
   * page reached before a reset got no presence pulse.
   */
  predicate DataWritten(size: u8, data: seq<u8>, start: seq<WireOp>, ops: seq<WireOp>, ok: bool,
                        pages: seq<seq<RowReply>>, logs: seq<seq<WireOp>>, rows: seq<RowReply>, last: RowReply, stages: nat)
  {
    PagesLogged(size, data, pages, logs) && (ok <==> |pages| == DataPages(size))
    && (ok ==> ops == start + Concat(logs))
    && (!ok ==>
          |pages| < DataPages(size) && DataRead(size, |pages| + 1) <= |data|
          && |rows| < RowsIn(DataChunk(size, |pages|)) && stages < 3
          && ops == start + Concat(logs) + PageAbortOps(|pages| as u8, WriteChunk(size, data, |pages|), rows, last, stages))
  }

  /** An aborted page's log only depends on the bytes of the rows it reached. */
  lemma PageAbortPrefix(page: u8, a: seq<u8>, b: seq<u8>, rows: seq<RowReply>, last: RowReply, stages: nat)
    requires 8 * |rows| + 8 <= |b| <= |a| && b == a[..|b|]
    ensures PageAbortOps(page, a, rows, last, stages) == PageAbortOps(page, b, rows, last, stages)
  {
    var n := 8 * |rows|;
    SlicePrefix(a, b, 0, n);
    PageOpsPrefix(page, a, b, rows);
    SlicePrefix(a, b, n, n + 8);
  }

  lemma SlicePrefix(a: seq<u8>, b: seq<u8>, i: nat, j: nat)
    requires i <= j <= |b| <= |a| && b == a[..|b|]
    ensures a[i..j] == b[i..j]
  {
  }

  /**
   * The body of DS2432_WriteData's page loop: the chunk of page `pageIndex`
   * copied into a buffer of its own, then written with DS2432_WritePage as
   * writeSize / 8 whole rows.
   */
  method WriteDataPage(w: Line, page_data: array<u8>, size: u8, pageIndex: u8, writeSize: u8)
    returns (ok: bool, ghost rows: seq<RowReply>, ghost last: RowReply, ghost stages: nat)
    requires pageIndex < DataPages(size) && DataRead(size, pageIndex + 1) <= page_data.Length && writeSize as nat == DataChunk(size, pageIndex)
    modifies w`trace, w`samples, w`ops
    ensures |rows| <= RowsIn(writeSize as nat) && (ok <==> |rows| == RowsIn(writeSize as nat)) && forall r <- rows :: Replied(r)
    ensures ok ==> w.ops == old(w.ops) + PageOps(pageIndex, WriteChunk(size, page_data[..], pageIndex), rows)
    ensures !ok ==> stages < 3 && w.ops == old(w.ops) + PageAbortOps(pageIndex, WriteChunk(size, page_data[..], pageIndex), rows, last, stages)
  {
    var writeData := new u8[writeSize];
    Memcpy(writeData, 0, page_data, 32 * pageIndex, writeSize as nat);
    RowsByDivision(writeSize as nat);
    ok, rows, last, stages := WritePage(w, pageIndex, writeData, writeSize / 8);
    assert writeData[..] == WriteChunk(size, page_data[..], pageIndex);
  }

  /** One more page done: its log follows those of the pages before it. */
  lemma PageDone(size: u8, data: seq<u8>, start: seq<WireOp>, before: seq<WireOp>, ops: seq<WireOp>,
                 pages: seq<seq<RowReply>>, logs: seq<seq<WireOp>>, rows: seq<RowReply>, log: seq<WireOp>)
    requires PagesLogged(size, data, pages, logs) && before == start + Concat(logs)
    requires PageLogged(size, data, |pages|, rows, log) && ops == before + log
    ensures PagesLogged(size, data, pages + [rows], logs + [log]) && ops == start + Concat(logs + [log])
  {
    PagesLoggedNext(size, data, pages, logs, rows, log);
    ConcatSnoc(logs, log);
    AppendAssoc(start, Concat(logs), log);
  }

  /** A page that failed after the pages in `pages`: DS2432_WriteData's outcome is a failure. */
  lemma PageAborted(size: u8, data: seq<u8>, start: seq<WireOp>, before: seq<WireOp>, ops: seq<WireOp>,
                    pages: seq<seq<RowReply>>, logs: seq<seq<WireOp>>, rows: seq<RowReply>, last: RowReply, stages: nat)
    requires PagesLogged(size, data, pages, logs) && before == start + Concat(logs)
    requires |pages| < DataPages(size) && DataRead(size, |pages| + 1) <= |data|
    requires |rows| < RowsIn(DataChunk(size, |pages|)) && stages < 3
    requires ops == before + PageAbortOps(|pages| as u8, WriteChunk(size, data, |pages|), rows, last, stages)
    ensures DataWritten(size, data, start, ops, false, pages, logs, rows, last, stages)
  {
  }

  /**
   * The page loop of DS2432_WriteData: pages 0 .. pageNumbers - 1, each
   * with its chunk, stopping at the first page that fails.
   */
  method WritePages(w: Line, page_data: array<u8>, size: u8, pageNumbers: nat)
    returns (ok: bool, ghost pages: seq<seq<RowReply>>, ghost logs: seq<seq<WireOp>>, ghost rows: seq<RowReply>, ghost last: RowReply, ghost stages: nat)
    requires size > 32 && pageNumbers == DataPages(size) && DataRead(size, pageNumbers) <= page_data.Length
    modifies w`trace, w`samples, w`ops
    ensures DataWritten(size, page_data[..], old(w.ops), w.ops, ok, pages, logs, rows, last, stages)
  {
    pages, logs := [], [];
    for pageIndex := 0 to pageNumbers
      invariant |pages| == pageIndex && PagesLogged(size, page_data[..], pages, logs)
      invariant w.ops == old(w.ops) + Concat(logs)
    {
      var writeSize: u8;
      if pageIndex == pageNumbers - 1 && size % 32 != 0 {
        writeSize := size % 32;
      } else {
        writeSize := 32;
      }
      assert writeSize as nat == DataChunk(size, pageIndex) by {
        LastByRemainder(size);
      }
      DataReadWithin(size, pageIndex + 1);
      ghost var before := w.ops;
      var present, done, reply, reached := WriteDataPage(w, page_data, size, pageIndex, writeSize);
      if !present {
        ok, rows, last, stages := false, done, reply, reached;
        PageAborted(size, page_data[..], old(w.ops), before, w.ops, pages, logs, rows, last, stages);
        return;
      }
      ghost var log := PageOps(pageIndex, WriteChunk(size, page_data[..], pageIndex), done);
      PageDone(size, page_data[..], old(w.ops), before, w.ops, pages, logs, done, log);
      pages, logs := pages + [done], logs + [log];
    }
    ok, rows, last, stages := true, [], RowReply([], [], [], 0), 0;
  }

  /** DS2432_WritePage's success on page 0 is DS2432_WriteData's for a size of one page or less. */
  lemma FirstPageDone(size: u8, data: seq<u8>, start: seq<WireOp>, ops: seq<WireOp>, rows: seq<RowReply>, last: RowReply, stages: nat)
    requires size <= 32 && size <= |data| && |rows| == RowsIn(size as nat) && forall r <- rows :: Replied(r)
    requires ops == start + PageOps(0, data, rows)
    ensures DataWritten(size, data, start, ops, true, [rows], [PageOps(0, data[..size], rows)], rows, last, stages)
  {
    var chunk := data[..size];
    SlicePrefix(data, chunk, 0, 8 * |rows|);
    PageOpsPrefix(0, data, chunk, rows);
    assert DataChunk(size, 0) == size && DataRead(size, 1) == size;
    assert WriteChunk(size, data, 0) == chunk;
    PagesLoggedNext(size, data, [], [], rows, PageOps(0, chunk, rows));
  }

  /** DS2432_WritePage's failure on page 0 is DS2432_WriteData's for a size of one page or less. */
  lemma FirstPageAborted(size: u8, data: seq<u8>, start: seq<WireOp>, ops: seq<WireOp>, rows: seq<RowReply>, last: RowReply, stages: nat)
    requires size <= 32 && size <= |data| && |rows| < RowsIn(size as nat) && stages < 3
    requires ops == start + PageAbortOps(0, data, rows, last, stages)
    ensures DataWritten(size, data, start, ops, false, [], [], rows, last, stages)
  {
    var chunk := data[..size];
    PageAbortPrefix(0, data, chunk, rows, last, stages);
    assert DataChunk(size, 0) == size && DataRead(size, 1) == size;
    assert WriteChunk(size, data, 0) == chunk;
    assert start + Concat([]) == start;
  }

  /**
   * DS2432_WriteData: a size of up to one page is written from `page_data`
   * as size / 8 rows of page 0; a larger one page by page, page k getting
   * the chunk at offset 32k, at most four pages. True when every page was
   * written; otherwise `pages` were, and the next one failed after `rows`.
   */
  method WriteData(w: Line, page_data: array<u8>, size: u8)
    returns (ok: bool, ghost pages: seq<seq<RowReply>>, ghost logs: seq<seq<WireOp>>, ghost rows: seq<RowReply>, ghost last: RowReply, ghost stages: nat)
    requires DataRead(size, DataPages(size)) <= page_data.Length
    modifies w`trace, w`samples, w`ops
    ensures DataWritten(size, page_data[..], old(w.ops), w.ops, ok, pages, logs, rows, last, stages)
  {
    if size <= 32 {
      ok, rows, last, stages := WritePage(w, 0, page_data, size / 8);
      RowsByDivision(size as nat);
      if ok {
        FirstPageDone(size, page_data[..], old(w.ops), w.ops, rows, last, stages);
        pages, logs := [rows], [PageOps(0, page_data[..size], rows)];
      } else {
        FirstPageAborted(size, page_data[..], old(w.ops), w.ops, rows, last, stages);
        pages, logs := [], [];
      }
      return;
    }
    var pageNumbers: nat;
    if size % 32 == 0 {
      pageNumbers := size / 32;
    } else {
      pageNumbers := size / 32 + 1;
    }
    if pageNumbers > PAGE_NUMBERS {
      pageNumbers := PAGE_NUMBERS;
    }
    assert pageNumbers == DataPages(size) by {
      PagesByDivision(size);
    }
    ok, pages, logs, rows, last, stages := WritePages(w, page_data, size, pageNumbers);
  }

  /** How many whole rows the first `pages` pages of DS2432_WriteData hold. */
  function RowsWritten(size: u8, pages: nat): nat
    requires pages <= DataPages(size)
  {
    if pages == 0 then 0 else RowsWritten(size, pages - 1) + RowsIn(DataChunk(size, pages - 1))
  }

  /** The rows of the pages completed add up to RowsWritten. */
  function RowCount(pages: seq<seq<RowReply>>): nat
  {
    if |pages| == 0 then 0 else RowCount(pages[..|pages| - 1]) + |pages[|pages| - 1]|
  }

  lemma {:induction false} RowCountLogged(size: u8, data: seq<u8>, pages: seq<seq<RowReply>>, logs: seq<seq<WireOp>>)
    requires PagesLogged(size, data, pages, logs)
    ensures RowCount(pages) == RowsWritten(size, |pages|)
  {
    if |pages| > 0 {
      var k := |pages| - 1;
      RowCountLogged(size, data, pages[..k], logs[..k]);
    }
  }

  lemma {:induction false} FullPages(size: u8, pages: nat)
    requires pages < DataPages(size)
    ensures RowsWritten(size, pages) == 4 * pages
  {
    if pages > 0 {
      FullPages(size, pages - 1);
    }
  }

  lemma {:induction false} RowsAfterPages(m: nat, n: nat)
    ensures RowsIn(32 * m + n) == 4 * m + RowsIn(n)
  {
    if m > 0 {
      RowsAfterPages(m - 1, n);
      assert 32 * m + n - 8 - 8 - 8 - 8 == 32 * (m - 1) + n;
    }
  }

  /**
   * Up to four pages, DS2432_WriteData writes every whole row of `size`:
   * size / 8 rows, the size % 8 bytes after the last whole row being
   * dropped.
   */
  lemma WriteDataCovers(size: u8)
    requires size <= 128
    ensures RowsWritten(size, DataPages(size)) == size / 8
  {
    var p := DataPages(size);
    FullPages(size, p - 1);
    ReadDataCovers(size);
    RowsAfterPages(p - 1, LastChunk(size));
    RowsByDivision(size as nat);
  }

  /** Past four pages, DS2432_WriteData writes at most 128 bytes and drops the rest. */
  lemma WriteDataCapped(size: u8)
    requires size > 128
    ensures DataPages(size) == PAGE_NUMBERS && 8 * RowsWritten(size, DataPages(size)) <= 128 < size
  {
    ReadDataCapped(size);
    FullPages(size, 3);
  }

  /**
   * A row whose stages all got their replies is 41 operations: the target
   * address in the Write and Copy Scratchpad commands, the row's bytes
   * right after the Write Scratchpad command's address.
   */
  lemma RowOpsLayout(addr: u8, row: seq<u8>, r: RowReply)
    requires |row| == 8 && Replied(r)
    ensures var ops := RowOps(addr, row, r);
      |ops| == 41 && ops[2] == Wrote(WRITE_SCRATCHPAD) && ops[3] == Wrote(addr) && ops[5..13] == Wrotes(row)
      && ops[18] == Wrote(READ_SCRATCHPAD) && ops[36] == Wrote(addr) && ops[38] == Wrote(COPY_AUTHORIZATION)
  {
    var w, rd := WriteScratchpadOps(addr, row, r.crc), ReadScratchpadOps(r.target, r.scratchpad);
    assert |w| == 16 && |rd| == 17;
    assert (w + rd)[5..13] == w[5..13] == Wrotes(row);
  }
}
