/**
 * Fixed-width integer types and the byte/word helpers of the ProtoPlasm
 * platform header (min, max, lobyte, hibyte, hiword, tobyte), shared by
 * every other module of the model.
 */
module Defines {

  type u8 = x: int | 0 <= x < 0x100
  type u16 = x: int | 0 <= x < 0x1_0000
  type u32 = x: int | 0 <= x < 0x1_0000_0000
  type u64 = x: int | 0 <= x < 0x1_0000_0000_0000_0000

  datatype Option<T> = None | Some(value: T)

  function Min(x: int, y: int): (r: int)
    ensures r <= x && r <= y && (r == x || r == y)
  {
    if x < y then x else y
  }

  function Max(x: int, y: int): (r: int)
    ensures r >= x && r >= y && (r == x || r == y)
  {
    if x > y then x else y
  }

  /** `tobyte(x)`: the low eight bits. */
  function ToByte(x: nat): (r: u8)
    ensures x == (x / 0x100) * 0x100 + r && (x < 0x100 ==> r == x)
  {
    x % 0x100
  }

  /** `lobyte(x)`: bits 0..7 of a word. */
  function LoByte(x: u32): (r: u8)
    ensures x == (x / 0x100) * 0x100 + r
  {
    x % 0x100
  }

  /** `hibyte(x)`: bits 8..15 of a word. */
  function HiByte(x: u32): (r: u8)
    ensures x / 0x100 == (x / 0x1_0000) * 0x100 + r
  {
    (x / 0x100) % 0x100
  }

  /** `hiword(x)`: bits 16..31 of a 32-bit word. */
  function HiWord(x: u32): (r: u16)
    ensures x == r * 0x1_0000 + HiByte(x) * 0x100 + LoByte(x)
  {
    x / 0x1_0000
  }

  function Pow2(k: nat): (r: nat)
    ensures r > 0
  {
    if k == 0 then 1 else 2 * Pow2(k - 1)
  }

  /** Bitwise OR of two naturals, bit by bit from the least significant. */
  function BitOr(x: nat, y: nat): nat
    decreases x + y
  {
    if x == 0 && y == 0 then 0 else Max(x % 2, y % 2) + 2 * BitOr(x / 2, y / 2)
  }

  /** Bitwise AND of two naturals, bit by bit from the least significant. */
  function BitAnd(x: nat, y: nat): nat
    decreases x + y
  {
    if x == 0 || y == 0 then 0 else Min(x % 2, y % 2) + 2 * BitAnd(x / 2, y / 2)
  }

  lemma {:induction false} BitOrZero(y: nat)
    ensures BitOr(0, y) == y && BitOr(y, 0) == y
    decreases y
  {
    if y != 0 { BitOrZero(y / 2); }
  }

  /** OR-ing a value below 2^k into a multiple of 2^k is addition: the bits do not overlap. */
  lemma {:induction false} BitOrDisjoint(x: nat, m: nat, k: nat)
    requires x < Pow2(k)
    ensures BitOr(m * Pow2(k), x) == BitOr(x, m * Pow2(k)) == x + m * Pow2(k)
    decreases k
  {
    if k == 0 {
      BitOrZero(m);
    } else {
      var y := m * Pow2(k - 1);
      var z := m * Pow2(k);
      assert z == 2 * y by {
        assert Pow2(k) == 2 * Pow2(k - 1);
      }
      assert z % 2 == 0 && z / 2 == y;
      BitOrDisjoint(x / 2, m, k - 1);
      assert BitOr(x, z) == x % 2 + 2 * BitOr(x / 2, y);
      assert BitOr(z, x) == x % 2 + 2 * BitOr(y, x / 2);
    }
  }

  /** AND with 1 keeps the lowest bit. */
  lemma BitAndOne(x: nat)
    ensures BitAnd(x, 1) == x % 2 && BitAnd(x, 0) == 0
  {
  }

  /** OR of two values below 2^k stays below 2^k. */
  lemma {:induction false} BitOrBelow(x: nat, y: nat, k: nat)
    requires x < Pow2(k) && y < Pow2(k)
    ensures BitOr(x, y) < Pow2(k)
    decreases k
  {
    if k > 0 && !(x == 0 && y == 0) {
      BitOrBelow(x / 2, y / 2, k - 1);
    }
  }

  /** Powers of two grow with the exponent. */
  lemma {:induction false} Pow2Mono(k: nat, n: nat)
    requires k <= n
    ensures Pow2(k) <= Pow2(n)
    decreases n
  {
    if k < n {
      Pow2Mono(k, n - 1);
    }
  }

  /** Exponents add. */
  lemma {:induction false} Pow2Add(a: nat, b: nat)
    ensures Pow2(a + b) == Pow2(a) * Pow2(b)
    decreases b
  {
    if b > 0 {
      Pow2Add(a, b - 1);
      assert Pow2(a + b) == 2 * (Pow2(a) * Pow2(b - 1));
      assert 2 * (Pow2(a) * Pow2(b - 1)) == Pow2(a) * (2 * Pow2(b - 1));
    }
  }

  /** The widths the model uses: a byte, a half-word, a word, a double word. */
  lemma Pow2Widths()
    ensures Pow2(8) == 0x100 && Pow2(15) == 0x8000 && Pow2(16) == 0x1_0000
    ensures Pow2(32) == 0x1_0000_0000 && Pow2(63) == 0x8000_0000_0000_0000
    ensures Pow2(64) == 0x1_0000_0000_0000_0000
  {
    assert Pow2(8) == 0x100 && Pow2(15) == 0x8000 && Pow2(16) == 0x1_0000;
    Pow2Add(16, 16);
    Pow2Add(16, 15);
    Pow2Add(32, 31);
    Pow2Add(32, 32);
  }

  /** Multiplying by a non-negative factor keeps a strict gap of at least that factor. */
  lemma MulGap(x: int, y: int, d: int)
    ensures x < y && d >= 0 ==> d * x + d <= d * y
  {
    if x < y && d >= 0 {
      var k := y - x - 1;
      assert d * y == d * x + d * k + d;
      assert d * k >= 0;
    }
  }

  /** Quotient and remainder are the only ones that split a. */
  lemma DivModUnique(a: nat, d: nat, q: nat, r: nat)
    requires d > 0 && a == d * q + r && r < d
    ensures a / d == q && a % d == r
  {
    var q' := a / d;
    var r' := a % d;
    assert a == d * q' + r';
    MulGap(q', q, d);
    MulGap(q, q', d);
  }

  /** Two bytes OR-ed into a little-endian 16-bit value add up. */
  lemma ByteOr(lo: u8, hi: u8)
    ensures BitOr(lo, hi * 0x100) == lo + hi * 0x100
  {
    assert Pow2(8) == 0x100;
    BitOrDisjoint(lo, hi, 8);
  }

  /** A little-endian 16-bit value splits back into its two bytes. */
  lemma ByteSplit(lo: u8, hi: u8)
    ensures lo + hi * 0x100 < 0x1_0000
    ensures LoByte(lo + hi * 0x100) == lo && HiByte(lo + hi * 0x100) == hi
  {
    DivModUnique(lo + hi * 0x100, 0x100, hi, lo);
  }

  /** A prefix is the shorter prefix followed by the slice between them. */
  lemma PrefixSplit<T>(s: seq<T>, k: nat, k2: nat)
    requires k <= k2 <= |s|
    ensures s[..k2] == s[..k] + s[k..k2]
  {
  }

  /** The empty prefix, the whole suffix and the whole prefix. */
  lemma WholeSlices<T>(s: seq<T>)
    ensures s[..0] == [] && s[0..] == s && s[..|s|] == s
  {
  }

  /** Dropping the last element of a + b, when b is not empty, drops it from b. */
  lemma ConcatInit<T>(a: seq<T>, b: seq<T>)
    requires b != []
    ensures (a + b)[..|a + b| - 1] == a + b[..|b| - 1] && (a + b)[|a + b| - 1] == b[|b| - 1]
  {
  }

  /** The empty sequence is a unit of concatenation, which is associative. */
  lemma ConcatUnit<T>(a: seq<T>, b: seq<T>, c: seq<T>)
    ensures a + [] == a && [] + a == a && a + b + c == a + (b + c)
  {
  }
}
