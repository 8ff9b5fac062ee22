/**
 * The wrap-safe tick comparison and the minimum macro shared by both firmwares
 * (SWH/defines.h and STC/defines.h define them identically).
 * `micros` is a free-running 32-bit microsecond counter; it is an input here.
 */
module Ticks {
  import opened Common

  /** Ticks elapsed from `start` to `now` on the wrapping 32-bit counter. */
  function Elapsed(now: u32, start: u32): (e: u32)
    ensures (start + e) % U32_MOD == now
    ensures now >= start ==> e == now - start
    ensures now < start ==> e == now + U32_MOD - start
  {
    Sub32(now, start)
  }

  /** TIMEOUT(start, duration), evaluated with the counter reading `now`. */
  function Timeout(now: u32, start: u32, duration: u32): (r: bool)
    ensures duration == 0 ==> r
    ensures now == start ==> (r <==> duration == 0)
    ensures r <==> Elapsed(now, start) >= duration
  {
    Sub32(now, start) >= duration
  }

  /**
   * Wrap safety: `duration` ticks after `start`, whatever `start` is and whether
   * or not the counter wrapped in between, the timeout fires exactly when at
   * least `duration` ticks have gone by.
   */
  lemma TimeoutAfterTicks(start: u32, k: nat, duration: u32)
    requires k < U32_MOD
    ensures Timeout((start + k) % U32_MOD, start, duration) <==> k >= duration
  {
    var now := (start + k) % U32_MOD;
    if start + k < U32_MOD {
      assert now == start + k;
    } else {
      assert now == start + k - U32_MOD;
    }
  }

  /** The comparison depends on the two readings only through their difference. */
  lemma TimeoutShiftInvariant(now: u32, start: u32, c: u32, duration: u32)
    ensures Timeout(Add32(now, c), Add32(start, c), duration) == Timeout(now, start, duration)
  {
    var n', s' := Add32(now, c), Add32(start, c);
    assert Elapsed(n', s') == Elapsed(now, start) by {
      var e, e' := Elapsed(now, start), Elapsed(n', s');
      assert (start + e) % U32_MOD == now;
      assert (s' + e') % U32_MOD == n';
    }
  }

  /** MIN(a, b). */
  function Min(a: int, b: int): (r: int)
    ensures r <= a && r <= b
    ensures r == a || r == b
  {
    if a < b then a else b
  }
}
