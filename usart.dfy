/**
 * The debug console's transmit ring buffer and receive capture.
 * SendChar enqueues into a 256-byte ring addressed by free-running 32-bit
 * indices masked with TBUF_SIZE-1; the USART interrupt drains one byte per
 * TXE event and records the last received byte per RXNE event. Both sides
 * are modelled as sequential steps.
 */
module DebugUsart {
  import opened Common

  const TBUF_SIZE: nat := 256
  const RBUF_SIZE: nat := 8

  // ---------------------------------------------------------------------
  // Bitwise AND on unsigned integers, and the power-of-two facts the ring
  // relies on.

  /** a & b on non-negative integers, bit by bit from the least significant. */
  function BitAnd(a: nat, b: nat): (r: nat)
    ensures r <= a && r <= b
  {
    if a == 0 || b == 0 then 0
    else 2 * BitAnd(a / 2, b / 2) + (if a % 2 == 1 && b % 2 == 1 then 1 else 0)
  }

  predicate IsPowerOfTwo(n: nat)
  {
    n == 1 || (n >= 2 && n % 2 == 0 && IsPowerOfTwo(n / 2))
  }

  /** Masking with 2^k - 1 keeps the low k bits: x & (2^k - 1) == x mod 2^k. */
  lemma {:induction false} MaskIsMod(x: nat, k: nat)
    ensures BitAnd(x, Pow2(k) - 1) == x % Pow2(k)
  {
    if k == 0 {
    } else if x == 0 {
    } else {
      MaskIsMod(x / 2, k - 1);
      var p := Pow2(k - 1);
      assert (Pow2(k) - 1) / 2 == p - 1;
      assert (Pow2(k) - 1) % 2 == 1;
      assert x % (2 * p) == 2 * ((x / 2) % p) + x % 2 by {
        DivModTwo(x, p);
      }
    }
  }

  lemma DivModTwo(x: nat, p: nat)
    requires p >= 1
    ensures x % (2 * p) == 2 * ((x / 2) % p) + x % 2
  {
    var a, b := x / 2, x % 2;
    var q, r := a / p, a % p;
    assert a == q * p + r;
    assert x == q * (2 * p) + (2 * r + b) by {
      assert x == 2 * a + b;
      assert 2 * (q * p) == q * (2 * p);
    }
    ModUnique(x, 2 * p, q, 2 * r + b);
  }

  lemma MulAtLeast(a: int, d: int)
    requires a >= 1 && d > 0
    ensures a * d >= d
  {
    if a > 1 {
      MulAtLeast(a - 1, d);
      assert a * d == (a - 1) * d + d;
    }
  }

  /** Quotient and remainder are unique. */
  lemma ModUnique(x: int, d: int, q: int, r: int)
    requires d > 0 && x == q * d + r && 0 <= r < d
    ensures x % d == r && x / d == q
  {
    var q', r' := x / d, x % d;
    assert x == q' * d + r';
    if q' > q {
      assert (q' - q) * d == q' * d - q * d;
      MulAtLeast(q' - q, d);
      assert false;
    } else if q' < q {
      assert (q - q') * d == q * d - q' * d;
      MulAtLeast(q - q', d);
      assert false;
    }
  }

  lemma {:induction false} BitAndSelf(m: nat)
    ensures BitAnd(m, m) == m
  {
    if m > 0 {
      BitAndSelf(m / 2);
    }
  }

  /**
   * The header's compile-time test `(SIZE & (SIZE-1)) != 0` rejects exactly the
   * sizes that are not powers of two.
   */
  lemma {:induction false} PowerOfTwoTest(n: nat)
    requires n >= 1
    ensures BitAnd(n, n - 1) == 0 <==> IsPowerOfTwo(n)
  {
    if n == 1 {
    } else if n % 2 == 0 {
      var m := n / 2;
      PowerOfTwoTest(m);
      assert (n - 1) / 2 == m - 1 && (n - 1) % 2 == 1;
      assert BitAnd(n, n - 1) == 2 * BitAnd(m, m - 1);
    } else {
      var m := n / 2;
      BitAndSelf(m);
      assert (n - 1) / 2 == m && (n - 1) % 2 == 0;
      assert BitAnd(n, n - 1) == 2 * BitAnd(m, m);
    }
  }

  lemma Pow2Values()
    ensures Pow2(3) == 8 && Pow2(8) == 256 && Pow2(9) == 512
  {
    assert Pow2(3) == 8 && Pow2(5) == 32;
    Pow2Add(3, 5);
    Pow2Add(8, 1);
  }

  /** Both buffer sizes pass the header's compile-time checks. */
  lemma {:induction false} BufferSizesAccepted()
    ensures TBUF_SIZE >= 2 && BitAnd(TBUF_SIZE, TBUF_SIZE - 1) == 0
    ensures RBUF_SIZE >= 2 && BitAnd(RBUF_SIZE, RBUF_SIZE - 1) == 0
    ensures TBUF_SIZE == Pow2(8) && RBUF_SIZE == Pow2(3)
  {
    Pow2Values();
    PowerOfTwoTest(TBUF_SIZE);
    PowerOfTwoTest(RBUF_SIZE);
    assert IsPowerOfTwo(8) by { assert IsPowerOfTwo(2); assert IsPowerOfTwo(4); }
    assert IsPowerOfTwo(256) by {
      assert IsPowerOfTwo(8); assert IsPowerOfTwo(16); assert IsPowerOfTwo(32);
      assert IsPowerOfTwo(64); assert IsPowerOfTwo(128);
    }
  }

  /** `i & (TBUF_SIZE - 1)`: the buffer position of a free-running index. */
  function Pos(i: u32): (p: nat)
    ensures p == i % TBUF_SIZE
  {
    BufferSizesAccepted();
    MaskIsMod(i, 8);
    BitAnd(i, TBUF_SIZE - 1)
  }

  // ---------------------------------------------------------------------
  // The ring as a value.

  /** The number of characters waiting: (in - out) on 32-bit unsigned indices. */
  function Count(nextIn: u32, nextOut: u32): (n: u32)
    ensures n == 0 <==> nextIn == nextOut
    ensures (nextOut + n) % U32_MOD == nextIn
  {
    Sub32(nextIn, nextOut)
  }

  /** The header's reading of the indices: (in - out) % size is the number of
      characters waiting, up to a multiple of the size. */
  lemma CountModSize(nextIn: u32, nextOut: u32)
    ensures Count(nextIn, nextOut) % TBUF_SIZE == (nextIn - nextOut) % TBUF_SIZE
  {
    var n := Count(nextIn, nextOut);
    if nextIn < nextOut {
      assert n == (nextIn - nextOut) + 0x100_0000 * TBUF_SIZE;
      ModUnique(n, TBUF_SIZE, (nextIn - nextOut) / TBUF_SIZE + 0x100_0000, (nextIn - nextOut) % TBUF_SIZE);
    }
  }

  /** The characters waiting to be sent, oldest first. */
  function Pending(buf: seq<u8>, nextIn: u32, nextOut: u32): (p: seq<u8>)
    requires |buf| == TBUF_SIZE
    ensures |p| == Count(nextIn, nextOut)
  {
    seq(Count(nextIn, nextOut), k requires 0 <= k => buf[(nextOut + k) % TBUF_SIZE])
  }

  /** Reducing a 32-bit sum to the buffer position loses nothing. */
  lemma WrapPos(x: int)
    ensures (x % U32_MOD) % TBUF_SIZE == x % TBUF_SIZE
  {
    var q, r := x / U32_MOD, x % U32_MOD;
    assert x == q * U32_MOD + r;
    assert x == (q * 0x100_0000 + r / TBUF_SIZE) * TBUF_SIZE + r % TBUF_SIZE;
    ModUnique(x, TBUF_SIZE, q * 0x100_0000 + r / TBUF_SIZE, r % TBUF_SIZE);
  }

  /** With fewer than TBUF_SIZE characters waiting, SendChar appends c. */
  lemma Enqueue(buf: seq<u8>, nextIn: u32, nextOut: u32, c: u8)
    requires |buf| == TBUF_SIZE && Count(nextIn, nextOut) < TBUF_SIZE
    ensures Count(Add32(nextIn, 1), nextOut) == Count(nextIn, nextOut) + 1
    ensures Pending(buf[Pos(nextIn) := c], Add32(nextIn, 1), nextOut)
            == Pending(buf, nextIn, nextOut) + [c]
  {
    var n := Count(nextIn, nextOut);
    var in' := Add32(nextIn, 1);
    var buf' := buf[Pos(nextIn) := c];
    assert Count(in', nextOut) == n + 1;
    WrapPos(nextOut + n);
    assert Pos(nextIn) == (nextOut + n) % TBUF_SIZE;
    var p0, p1 := Pending(buf, nextIn, nextOut), Pending(buf', in', nextOut);
    forall k | 0 <= k < n + 1
      ensures p1[k] == (p0 + [c])[k]
    {
      if k < n {
        DistinctPos(nextOut, k, n);
      }
    }
  }

  /** Fewer than TBUF_SIZE steps apart, two indices use different positions. */
  lemma DistinctPos(o: int, k: int, n: int)
    requires 0 <= k < n && n - k < TBUF_SIZE
    ensures (o + k) % TBUF_SIZE != (o + n) % TBUF_SIZE
  {
    var a, q := (o + k) % TBUF_SIZE, (o + k) / TBUF_SIZE;
    assert o + k == q * TBUF_SIZE + a;
    if a + (n - k) < TBUF_SIZE {
      ModUnique(o + n, TBUF_SIZE, q, a + (n - k));
    } else {
      ModUnique(o + n, TBUF_SIZE, q + 1, a + (n - k) - TBUF_SIZE);
    }
  }

  /**
   * There is no full check: with TBUF_SIZE characters waiting, SendChar writes
   * over the oldest unsent one, which is the next to leave.
   */
  lemma EnqueueWhenFull(buf: seq<u8>, nextIn: u32, nextOut: u32, c: u8)
    requires |buf| == TBUF_SIZE && Count(nextIn, nextOut) == TBUF_SIZE
    ensures Pos(nextIn) == Pos(nextOut)
    ensures buf[Pos(nextIn) := c][Pos(nextOut)] == c
  {
    WrapPos(nextOut + TBUF_SIZE);
    ModUnique(nextOut + TBUF_SIZE, TBUF_SIZE, nextOut / TBUF_SIZE + 1, nextOut % TBUF_SIZE);
  }

  /** A TX step with characters waiting sends the oldest and drops it. */
  lemma Dequeue(buf: seq<u8>, nextIn: u32, nextOut: u32)
    requires |buf| == TBUF_SIZE && 0 < Count(nextIn, nextOut) <= TBUF_SIZE
    ensures buf[Pos(nextOut)] == Pending(buf, nextIn, nextOut)[0]
    ensures Count(nextIn, Add32(nextOut, 1)) == Count(nextIn, nextOut) - 1
    ensures Pending(buf[Pos(nextOut) := 0], nextIn, Add32(nextOut, 1))
            == Pending(buf, nextIn, nextOut)[1..]
  {
    var n := Count(nextIn, nextOut);
    var o' := Add32(nextOut, 1);
    var buf' := buf[Pos(nextOut) := 0];
    assert Count(nextIn, o') == n - 1;
    var p0, p1 := Pending(buf, nextIn, nextOut), Pending(buf', nextIn, o');
    forall k | 0 <= k < n - 1
      ensures p1[k] == p0[1..][k]
    {
      WrapPos(nextOut + 1 + k);
      DistinctPos(nextOut, 0, k + 1);
    }
  }

  /** Keeping the 9 data bits and then storing them in a char keeps the low byte. */
  lemma DataRegisterLowByte(dr: nat)
    ensures BitAnd(dr, 0x1FF) % 256 == dr % 256
  {
    Pow2Values();
    MaskIsMod(dr, 9);
    var m := BitAnd(dr, 0x1FF);
    assert m == dr % 512;
    var q := dr / 512;
    assert dr == q * 512 + m;
    assert dr == (2 * q + m / 256) * 256 + m % 256;
    ModUnique(dr, 256, 2 * q + m / 256, m % 256);
  }

  // ---------------------------------------------------------------------
  // The buffers and the interrupt steps.

  datatype ConsoleReply = AvailableCommands | WrongKey(key: u8)

  class DebugPort {
    /** DebugTxBuff. */
    var txBuf: array<u8>
    var txIn: u32
    var txOut: u32
    var txEmpty: bool
    /** DebugRxBuff (only LastChar is ever written after initialisation). */
    var rxBuf: array<u8>
    var rxIn: u32
    var rxOut: u32
    var lastChar: u8
    /** m_DebugMsgReceived. */
    var msgReceived: bool
    /** The TXE interrupt enable bit. */
    var txInterruptEnabled: bool
    /** The bytes written to the data register, in order. */
    var sent: seq<u8>

    ghost predicate Valid()
      reads this
    {
      txBuf.Length == TBUF_SIZE && rxBuf.Length == RBUF_SIZE && txBuf != rxBuf
    }

    /** The characters waiting in the transmit ring. */
    ghost function Waiting(): seq<u8>
      reads this, txBuf
      requires Valid()
    {
      Pending(txBuf[..], txIn, txOut)
    }

    constructor ()
      ensures Valid() && fresh(txBuf) && fresh(rxBuf) && sent == []
    {
      txBuf := new u8[TBUF_SIZE];
      rxBuf := new u8[RBUF_SIZE];
      sent := [];
    }

    /** InitDebugUsart: both buffers zeroed, Empty set, no message pending. */
    method InitDebugUsart()
      requires Valid()
      modifies this, txBuf, rxBuf
      ensures Valid() && txBuf == old(txBuf) && rxBuf == old(rxBuf) && sent == old(sent)
      ensures txIn == 0 && txOut == 0 && txEmpty && Waiting() == []
      ensures forall k :: 0 <= k < TBUF_SIZE ==> txBuf[k] == 0
      ensures rxIn == 0 && rxOut == 0 && lastChar == 0
      ensures forall k :: 0 <= k < RBUF_SIZE ==> rxBuf[k] == 0
      ensures !msgReceived && txInterruptEnabled == old(txInterruptEnabled)
    {
      forall k | 0 <= k < txBuf.Length { txBuf[k] := 0; }
      forall k | 0 <= k < rxBuf.Length { rxBuf[k] := 0; }
      txIn, txOut, txEmpty := 0, 0, true;
      rxIn, rxOut, lastChar := 0, 0, 0;
      msgReceived := false;
    }

    /** SendChar: stores c at in & (TBUF_SIZE-1), advances in, clears Empty and
        enables the TX interrupt. */
    method SendChar(c: u8)
      requires Valid()
      modifies this`txIn, this`txEmpty, this`txInterruptEnabled, txBuf
      ensures Valid()
      ensures txBuf[..] == old(txBuf[..])[Pos(old(txIn)) := c]
      ensures txIn == Add32(old(txIn), 1) && !txEmpty && txInterruptEnabled
      ensures old(Count(txIn, txOut)) < TBUF_SIZE ==> Waiting() == old(Waiting()) + [c]
      ensures old(Count(txIn, txOut)) == TBUF_SIZE ==> txBuf[Pos(txOut)] == c
    {
      ghost var b0 := txBuf[..];
      txBuf[Pos(txIn)] := c;
      txIn := Add32(txIn, 1);
      txEmpty := false;
      txInterruptEnabled := true;
      if Count(old(txIn), txOut) < TBUF_SIZE {
        Enqueue(b0, old(txIn), txOut, c);
      } else if Count(old(txIn), txOut) == TBUF_SIZE {
        EnqueueWhenFull(b0, old(txIn), txOut, c);
      }
    }

    /** Send_N_Chars: enqueues the characters in order. */
    method Send_N_Chars(ptr: seq<u8>)
      requires Valid() && Count(txIn, txOut) + |ptr| <= TBUF_SIZE
      modifies this`txIn, this`txEmpty, this`txInterruptEnabled, txBuf
      ensures Valid() && Waiting() == old(Waiting()) + ptr
      ensures |ptr| > 0 ==> !txEmpty && txInterruptEnabled
    {
      var i := 0;
      while i < |ptr|
        invariant 0 <= i <= |ptr| && Valid()
        invariant Count(txIn, txOut) == old(Count(txIn, txOut)) + i
        invariant Waiting() == old(Waiting()) + ptr[..i]
        invariant i > 0 ==> !txEmpty && txInterruptEnabled
      {
        SendChar(ptr[i]);
        assert ptr[..i + 1] == ptr[..i] + [ptr[i]];
        i := i + 1;
      }
      assert ptr[..i] == ptr;
    }

    /** The TXE part of the USART interrupt handler. */
    method TxStep()
      requires Valid()
      modifies this`txOut, this`txEmpty, this`txInterruptEnabled, this`sent, txBuf
      ensures Valid()
      ensures old(txIn) != old(txOut) ==>
        sent == old(sent) + [old(txBuf[Pos(txOut)])]
        && txBuf[..] == old(txBuf[..])[Pos(old(txOut)) := 0]
        && txOut == Add32(old(txOut), 1)
        && txEmpty == old(txEmpty) && txInterruptEnabled == old(txInterruptEnabled)
      ensures old(txIn) != old(txOut) && old(Count(txIn, txOut)) <= TBUF_SIZE ==>
        old(Waiting()) == [sent[|sent| - 1]] + Waiting()
      ensures old(txIn) == old(txOut) ==>
        sent == old(sent) && txBuf[..] == old(txBuf[..]) && txOut == old(txOut)
        && txEmpty && !txInterruptEnabled
    {
      if txIn != txOut {
        ghost var b0 := txBuf[..];
        var p := Pos(txOut);
        sent := sent + [txBuf[p]];
        txBuf[p] := 0;
        txOut := Add32(txOut, 1);
        if Count(txIn, old(txOut)) <= TBUF_SIZE {
          Dequeue(b0, txIn, old(txOut));
        }
      } else {
        txInterruptEnabled := false;
        txEmpty := true;
      }
    }

    /** The RXNE part of the USART interrupt handler: the data register's low
        byte replaces LastChar and the message flag is raised. */
    method RxStep(dr: u16)
      modifies this`lastChar, this`msgReceived
      ensures lastChar == dr % 256 && msgReceived
    {
      DataRegisterLowByte(dr);
      lastChar := BitAnd(dr, 0x1FF) % 256;
      msgReceived := true;
    }

    /**
     * USART1_IRQHandler / USART2_IRQHandler: receive first, then transmit.
     * The receive ring, its indices and txIn are outside the frame, so they
     * are kept; a transmit step sends the oldest waiting character, which
     * lets successive calls drain the ring in FIFO order.
     */
    method IrqHandler(rxne: bool, txe: bool, dr: u16)
      requires Valid()
      modifies this`lastChar, this`msgReceived, this`txOut, this`txEmpty, this`txInterruptEnabled, this`sent, txBuf
      ensures Valid() && txBuf == old(txBuf) && rxBuf == old(rxBuf)
      ensures txIn == old(txIn) && rxIn == old(rxIn) && rxOut == old(rxOut)
      ensures rxne ==> lastChar == dr % 256 && msgReceived
      ensures !rxne ==> lastChar == old(lastChar) && msgReceived == old(msgReceived)
      ensures !txe ==>
        sent == old(sent) && txBuf[..] == old(txBuf[..]) && txOut == old(txOut)
        && txEmpty == old(txEmpty) && txInterruptEnabled == old(txInterruptEnabled)
      ensures txe && old(txIn) != old(txOut) ==>
        sent == old(sent) + [old(txBuf[Pos(txOut)])]
        && txBuf[..] == old(txBuf[..])[Pos(old(txOut)) := 0]
        && txOut == Add32(old(txOut), 1)
        && txEmpty == old(txEmpty) && txInterruptEnabled == old(txInterruptEnabled)
      ensures txe && old(txIn) != old(txOut) && old(Count(txIn, txOut)) <= TBUF_SIZE ==>
        old(Waiting()) == [sent[|sent| - 1]] + Waiting()
      ensures txe && old(txIn) == old(txOut) ==>
        sent == old(sent) && txBuf[..] == old(txBuf[..]) && txOut == old(txOut)
        && txEmpty && !txInterruptEnabled
    {
      if rxne {
        RxStep(dr);
      }
      if txe {
        TxStep();
      }
    }

    /** IsUsartTxBufferEmpty. */
    method IsUsartTxBufferEmpty() returns (e: bool)
      ensures e == txEmpty
    {
      e := txEmpty;
    }

    /** CheckConsoleRx: '?' lists the commands, anything else is a wrong key. */
    method CheckConsoleRx() returns (reply: ConsoleReply)
      ensures reply == AvailableCommands <==> lastChar == '?' as int
      ensures reply != AvailableCommands ==> reply == WrongKey(lastChar)
    {
      if lastChar == '?' as int {
        reply := AvailableCommands;
      } else {
        reply := WrongKey(lastChar);
      }
    }
  }
}
