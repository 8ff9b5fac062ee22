/** Machine integer widths and small shared datatypes used by every module. */
module Common {
  /** C `uint8_t`, `uint16_t` and `uint32_t` as bounded integers. */
  type u8 = x: int | 0 <= x < 0x100
  type u16 = x: int | 0 <= x < 0x1_0000
  type u32 = x: int | 0 <= x < 0x1_0000_0000
  /** C `int16_t`. */
  type i16 = x: int | -0x8000 <= x < 0x8000

  /** A byte as it travels on a bus; bit operations are native on `bv8`. */
  type byte = bv8

  const U32_MOD: int := 0x1_0000_0000

  /** 32-bit unsigned subtraction and addition, wrapping as C does. */
  function Sub32(a: u32, b: u32): (r: u32)
    ensures (b + r) % U32_MOD == a
    ensures a >= b ==> r == a - b
    ensures a < b ==> r == a - b + U32_MOD
  {
    (a - b) % U32_MOD
  }

  function Add32(a: u32, b: u32): (r: u32)
    ensures a + b < U32_MOD ==> r == a + b
    ensures a + b >= U32_MOD ==> r == a + b - U32_MOD
  {
    (a + b) % U32_MOD
  }

  /** 2 to the power k. */
  function Pow2(k: nat): (p: nat)
    ensures p >= 1
  {
    if k == 0 then 1 else 2 * Pow2(k - 1)
  }

  /** Powers of two multiply by adding exponents. */
  lemma {:induction false} Pow2Add(a: nat, b: nat)
    ensures Pow2(a + b) == Pow2(a) * Pow2(b)
  {
    if a > 0 {
      Pow2Add(a - 1, b);
      calc {
        Pow2(a + b);
        2 * Pow2(a - 1 + b);
        2 * (Pow2(a - 1) * Pow2(b));
        (2 * Pow2(a - 1)) * Pow2(b);
        Pow2(a) * Pow2(b);
      }
    }
  }

  /** The bytes 0..len-1 of a sequence given by a function of the index. */
  function Bytes(len: nat, f: nat -> byte): (s: seq<byte>)
    ensures |s| == len && forall k :: 0 <= k < len ==> s[k] == f(k)
  {
    seq(len, k requires 0 <= k => f(k))
  }

  /** Sequence concatenation regrouped; logs are built by appending. */
  lemma AppendAssoc<T>(a: seq<T>, b: seq<T>, c: seq<T>)
    ensures a + b + c == a + (b + c)
  {
  }

  datatype Option<T> = None | Some(value: T)
}
