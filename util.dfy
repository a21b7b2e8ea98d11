/**
 * Arithmetic and memory helpers of the ProtoPlasm low-level layer:
 * `div64`, a shift-and-subtract long division of a 64-bit numerator by a
 * 32-bit denominator, and `memcpy_volatile`, a byte-by-byte copy.
 *
 * `div64` skips the loop when the numerator fits in 32 bits. Otherwise the
 * loop shifts the numerator's bits 63 down to 1 into the remainder. The
 * final step then reads bit 0 of the shifted numerator, where the original
 * bit 0 no longer is: after 63 left shifts that bit is always 0. For an odd
 * numerator of 2^32 or more the result is therefore the quotient of the
 * numerator with bit 0 cleared. Div64 models the code as written;
 * Div64Fixed reads bit 63 of the shifted numerator instead, where the
 * original bit 0 now sits, and returns n / d.
 */
module Util {
  import opened Defines

  const Two32: nat := 0x1_0000_0000
  const Two63: nat := 0x8000_0000_0000_0000
  const Two64: nat := 0x1_0000_0000_0000_0000

  /**
   * One step of long division: shifting bit b into the dividend doubles the
   * quotient and adds 1 exactly when the doubled remainder plus b reaches d.
   */
  lemma DivStep(hi: nat, d: nat, b: nat)
    requires d > 0 && b < 2
    ensures var s := 2 * (hi % d) + b;
      (2 * hi + b) / d == 2 * (hi / d) + (if s >= d then 1 else 0) &&
      (2 * hi + b) % d == (if s >= d then s - d else s)
  {
    var q := hi / d;
    var r := hi % d;
    var s := 2 * r + b;
    assert hi == d * q + r;
    assert 2 * hi + b == d * (2 * q) + s;
    if s >= d {
      assert d * (2 * q + 1) == d * (2 * q) + d;
      DivModUnique(2 * hi + b, d, 2 * q + 1, s - d);
    } else {
      DivModUnique(2 * hi + b, d, 2 * q, s);
    }
  }

  /** OR-ing a bit into an even number adds it. */
  lemma OrLowBit(x: nat, b: nat)
    requires x % 2 == 0 && b < 2
    ensures BitOr(x, b) == x + b
  {
    BitOrZero(x / 2);
  }

  /** A quotient is at most its dividend. */
  lemma DivAtMost(a: nat, d: nat)
    requires d > 0
    ensures a / d <= a
  {
    var q := a / d;
    assert a == d * q + a % d;
    MulGap(0, q, d - 1);
  }

  /** The number div64 returns as written. */
  function DivAsWritten(n: u64, d: u32): nat
    requires d > 0
  {
    if n < Two32 then n / d else (n - n % 2) / d
  }

  /** DivAsWritten is never above n / d and at most one below it. */
  lemma DivAsWrittenClose(n: u64, d: u32)
    requires d > 0
    ensures DivAsWritten(n, d) <= n / d <= DivAsWritten(n, d) + 1
    ensures n % 2 == 0 || n < Two32 ==> DivAsWritten(n, d) == n / d
  {
    if n >= Two32 && n % 2 == 1 {
      var a := (n - 1) / d;
      var r := (n - 1) % d;
      assert n - 1 == d * a + r;
      if r + 1 < d {
        DivModUnique(n, d, a, r + 1);
      } else {
        assert d * (a + 1) == d * a + d;
        DivModUnique(n, d, a + 1, 0);
      }
    }
  }

  /** The numerator 2^32 * 1.5 + 3, odd and above 2^32: div64 as written is one short of n / d. */
  lemma Div64Counterexample()
    ensures DivAsWritten(6442450947, 3) == 2147483648
    ensures 6442450947 / 3 == 2147483649
  {
  }

  /**
   * The 63 iterations of div64's loop. Each shifts the top bit of n into r
   * and n left by one (dropping that bit out of 64 bits), subtracts d from r
   * when it fits and records a quotient bit. They divide the top 63 bits of
   * the numerator, n / 2, by d, keep r below d, and leave the numerator's
   * bit 0 in bit 63 of n.
   */
  method Div64Loop(n0: u64, d: u32) returns (q: u64, r: u64, n: u64)
    requires d > 0
    ensures q == 2 * ((n0 / 2) / d) && r == (n0 / 2) % d && r < d
    ensures n == (n0 % 2) * Two63
  {
    n := n0;
    q, r := 0, 0;
    var i := 64;
    ghost var hi: nat := 0;
    ghost var p: nat := 1;
    while i > 1
      invariant 1 <= i <= 64 && p == Pow2(64 - i)
      invariant hi * Two64 + n == n0 * p && hi < p
      invariant r == hi % d && q == 2 * (hi / d)
      decreases i
    {
      ghost var b := n / Two63;
      IterStep(n0, d, i, hi, p, n, r, q);
      n, r, q := ShiftIn(d, n, r, q);
      hi, p := 2 * hi + b, 2 * p;
      i := i - 1;
    }
    Pow2Widths();
    LoopEnd(n0, hi, n);
  }

  /**
   * The body of div64's loop: shift the top bit of n into r and n left by
   * one, then subtract d from r and set the quotient bit when it fits, and
   * shift the quotient.
   */
  method ShiftIn(d: u32, n: u64, r: u64, q: u64) returns (n': u64, r': u64, q': u64)
    requires r < d && q % 2 == 0
    requires 2 * (if 2 * r + n / Two63 >= d then q + 1 else q) < Two64
    ensures var s := 2 * r + n / Two63;
      n' == (n * 2) % Two64 && r' == (if s >= d then s - d else s) &&
      q' == 2 * (if s >= d then q + 1 else q)
  {
    var top := n / Two63;
    ghost var s := 2 * r + top;
    BitAndOne(top);
    assert BitAnd(top, 1) == top;
    assert (r * 2) % Two64 == r * 2;
    OrLowBit(r * 2, top);
    r' := BitOr((r * 2) % Two64, BitAnd(top, 1));
    assert r' == s;
    n' := (n * 2) % Two64;
    q' := q;
    if r' >= d {
      r' := r' - d;
      OrLowBit(q, 1);
      q' := BitOr(q, 1);
      assert q' == q + 1;
    }
    assert q' == (if s >= d then q + 1 else q);
    assert (q' * 2) % Two64 == q' * 2;
    q' := (q' * 2) % Two64;
  }

  /**
   * One iteration of the loop, on the quantities it keeps: the bits of the
   * numerator taken so far (hi) and the power of two they are scaled by (p).
   * Taking the top bit b of n doubles hi and adds b; the remainder and the
   * quotient follow one step of long division, and nothing overflows.
   */
  lemma IterStep(n0: nat, d: u32, i: nat, hi: nat, p: nat, n: u64, r: u64, q: u64)
    requires d > 0 && 2 <= i <= 64 && p == Pow2(64 - i)
    requires hi * Two64 + n == n0 * p && hi < p && r == hi % d && q == 2 * (hi / d)
    ensures var b := n / Two63; var s := 2 * r + b; var hi' := 2 * hi + b;
      var q1 := if s >= d then q + 1 else q;
      b < 2 && q % 2 == 0 && r * 2 < Two64 && 2 * q1 < Two64 &&
      hi' * Two64 + (n * 2) % Two64 == n0 * (2 * p) && hi' < 2 * p && 2 * p == Pow2(64 - (i - 1)) &&
      (if s >= d then s - d else s) == hi' % d && 2 * q1 == 2 * (hi' / d)
  {
    ShiftStep(n0, p, hi, n);
    var b := n / Two63;
    DivStep(hi, d, b);
    QuotientRoom(hi, b, d, p, i);
  }

  /** Shifting n left by one moves its top bit b into the bits above it. */
  lemma ShiftStep(n0: nat, p: nat, hi: nat, n: nat)
    requires n < Two64 && hi * Two64 + n == n0 * p
    ensures n / Two63 < 2 && (2 * hi + n / Two63) * Two64 + (n * 2) % Two64 == n0 * (2 * p)
  {
    var b := n / Two63;
    var low := n % Two63;
    assert n == Two63 * b + low;
    assert n * 2 == Two64 * b + 2 * low;
    DivModUnique(n * 2, Two64, b, 2 * low);
    assert n0 * (2 * p) == 2 * (n0 * p);
  }

  /** The doubled quotient of the bits taken so far still fits in 64 bits. */
  lemma QuotientRoom(hi: nat, b: nat, d: nat, p: nat, i: nat)
    requires d > 0 && b < 2 && hi < p && 2 <= i <= 64 && p == Pow2(64 - i)
    ensures 2 * ((2 * hi + b) / d) < Two64
  {
    DivAtMost(2 * hi + b, d);
    Pow2Mono(66 - i, 64);
    Pow2Widths();
    assert Pow2(66 - i) == 4 * p;
  }

  /** After 63 shifts the bits taken are n / 2 and bit 0 sits in bit 63. */
  lemma LoopEnd(n0: u64, hi: nat, n: u64)
    requires hi * Two64 + n == n0 * Two63
    ensures hi == n0 / 2 && n == (n0 % 2) * Two63
  {
  }

  /**
   * `div64` as written: n / d below 2^32, and otherwise the quotient of n
   * with bit 0 cleared, because the last step ORs in bit 0 of the shifted
   * numerator, which is always 0.
   */
  method Div64(n: u64, d: u32) returns (q: u64)
    requires d > 0
    ensures q == DivAsWritten(n, d)
  {
    if n / Two32 == 0 {
      DivAtMost(n, d);
      return n / d;
    }
    var r, m;
    q, r, m := Div64Loop(n, d);
    LastStep(n, d, 0);
    assert n - n % 2 == 2 * (n / 2) + 0;
    assert DivAsWritten(n, d) == (2 * (n / 2) + 0) / d;
    ShiftedOutBit(n, m);
    q := FinalShift(d, r, q, BitAnd(m, 1));
  }

  /** After 63 shifts bit 0 of the shifted numerator is always 0. */
  lemma ShiftedOutBit(n: u64, m: nat)
    requires m == (n % 2) * Two63
    ensures BitAnd(m, 1) == 0
  {
    BitAndOne(m);
    if n % 2 == 1 {
      assert m == 2 * (Two63 / 2);
    }
  }

  /**
   * The step after the loop: shift bit b into the remainder and set the
   * quotient's bit 0 when the remainder reaches d.
   */
  method FinalShift(d: u32, r: u64, q: u64, b: u64) returns (q': u64)
    requires d > 0 && r < d && q % 2 == 0 && b < 2
    ensures q' == q + (if 2 * r + b >= d then 1 else 0)
  {
    assert (r * 2) % Two64 == r * 2;
    OrLowBit(r * 2, b);
    var r' := BitOr((r * 2) % Two64, b);
    q' := q;
    if r' >= d {
      OrLowBit(q, 1);
      q' := BitOr(q, 1);
    }
  }

  /**
   * The last step of both versions: shifting bit b, the numerator's bit 0
   * or for div64 as written a 0, into the remainder of n / 2.
   */
  lemma LastStep(n: u64, d: u32, b: nat)
    requires d > 0 && b < 2 && b <= n % 2
    ensures var s := 2 * ((n / 2) % d) + b;
      (2 * (n / 2) + b) / d == 2 * ((n / 2) / d) + (if s >= d then 1 else 0) &&
      (2 * (n / 2) + b) / d <= n && 2 * ((n / 2) % d) + b < Two64 &&
      (2 * ((n / 2) / d)) % 2 == 0 && ((n / 2) % d * 2) % Two64 == (n / 2) % d * 2
  {
    var h := n / 2;
    DivStep(h, d, b);
    DivAtMost(2 * h + b, d);
    var x := h / d;
    var y := h % d;
    assert y < d;
    DivModUnique(2 * x, 2, x, 0);
    DivModUnique(y * 2, Two64, 0, y * 2);
  }

  /** `div64` with the last step reading the numerator's bit 0 from bit 63, where the shifts left it. */
  method Div64Fixed(n: u64, d: u32) returns (q: u64)
    requires d > 0
    ensures q == n / d
  {
    if n / Two32 == 0 {
      DivAtMost(n, d);
      return n / d;
    }
    var r, m;
    q, r, m := Div64Loop(n, d);
    LastStep(n, d, n % 2);
    assert n == 2 * (n / 2) + n % 2;
    assert m / Two63 == n % 2;
    BitAndOne(m / Two63);
    q := FinalShift(d, r, q, BitAnd(m / Two63, 1));
  }

  /**
   * `memcpy_volatile`: copy len bytes from src to dst, one at a time in
   * ascending order; the two regions do not overlap.
   */
  method MemcpyVolatile(dst: array<u8>, src: array<u8>, len: nat)
    requires len <= dst.Length && len <= src.Length && dst != src
    modifies dst
    ensures dst[..len] == src[..len] && dst[len..] == old(dst[len..])
  {
    var remaining := len;
    var k := 0;
    while remaining > 0
      invariant k + remaining == len
      invariant dst[..k] == src[..k] && dst[k..] == old(dst[k..])
      decreases remaining
    {
      dst[k] := src[k];
      k := k + 1;
      remaining := remaining - 1;
    }
  }
}
