/**
 * 32-bit two's-complement integers as used by C# `int`, and the
 * wrap-around subtraction of an `unchecked` context.
 */
module Int32 {

  const MODULUS: int := 0x1_0000_0000
  const MIN: int := -0x8000_0000
  const MAX: int := 0x7FFF_FFFF

  type Int32 = x: int | MIN <= x <= MAX

  /** `a` and `b` have the same 32-bit representation. */
  ghost predicate SameBits(a: int, b: int) {
    (a - b) % MODULUS == 0
  }

  /** Truncates an unbounded integer to the C# `int` with the same low 32 bits. */
  function Wrap(x: int): (r: Int32)
    ensures SameBits(x, r)
    ensures MIN <= x <= MAX ==> r == x
  {
    (x - MIN) % MODULUS + MIN
  }

  /** `unchecked(a - b)` on two C# `int` values. */
  function WrapSub(a: Int32, b: Int32): (r: Int32)
    ensures SameBits(a - b, r)
    ensures MIN <= a - b <= MAX ==> r == a - b
  {
    Wrap(a - b)
  }

  /** Two 32-bit values with the same bits are equal. */
  lemma SameBitsUnique(a: Int32, b: Int32)
    requires SameBits(a, b)
    ensures a == b
  {
  }

  /**
   * The wrap-around difference of two readings of a wrapping counter gives
   * the true distance between them, provided it is below 2^31: a tick
   * counter read at `start` and again `d` milliseconds later yields
   * `WrapSub(now, start) == d` even when the counter overflowed in between.
   */
  lemma WrapSubRecoversElapsed(start: Int32, d: int)
    requires 0 <= d <= MAX
    ensures WrapSub(Wrap(start + d), start) == d
  {
    var now := Wrap(start + d);
    var e := WrapSub(now, start);
    assert SameBits(start + d, now);
    assert SameBits(now - start, e);
    assert (e - d) % MODULUS == 0 by {
      var q1 := (start + d - now) / MODULUS;
      var q2 := (now - start - e) / MODULUS;
      assert start + d - now == q1 * MODULUS;
      assert now - start - e == q2 * MODULUS;
      assert d - e == (q1 + q2) * MODULUS;
    }
    SameBitsUnique(e, d);
  }
}
