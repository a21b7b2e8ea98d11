/**
 * Index arithmetic shared by the two circular buffers of the firmware (the
 * byte ring buffer and the event queue): a logical position runs past the
 * end of the array and wraps back to slot 0, stated on plain sequences.
 */
module Circular {

  /** The physical slot of logical position `p` in a buffer of `size` slots. */
  function Wrap(size: nat, p: nat): (r: nat)
    requires p < 2 * size
    ensures r < size && (r == p || r == p - size)
  {
    if p < size then p else p - size
  }

  /** Logical positions fewer than `size` apart occupy different slots. */
  lemma WrapDistinct(size: nat, p: nat, q: nat)
    requires p < q < p + size && q < 2 * size
    ensures Wrap(size, p) != Wrap(size, q)
  {
  }

  /** The number of unread bytes between read position `rp` and write position `wp`. */
  function Count(size: nat, rp: nat, wp: nat): (r: nat)
    requires rp < size && wp < size
    ensures r < size && wp == Wrap(size, rp + r)
  {
    if rp > wp then wp + size - rp else wp - rp
  }

  /** The write position meets the slot before the read position exactly when the buffer is full. */
  lemma WrapStop(size: nat, rp: nat, len: nat, w: nat)
    requires rp < size && len + w < size
    ensures (Wrap(size, rp + len + w) == (if rp > 0 then rp - 1 else size - 1)) == (w == size - 1 - len)
  {
  }

  /** Count is the inverse of advancing the write position. */
  lemma CountWrap(size: nat, rp: nat, m: nat)
    requires rp < size && m < size
    ensures Count(size, rp, Wrap(size, rp + m)) == m
  {
  }

  /** The `k` bytes of `b` from slot `p` on, wrapping at the end. */
  function Span<T>(b: seq<T>, p: nat, k: nat): (s: seq<T>)
    requires p < |b| && k <= |b|
    ensures |s| == k
  {
    seq(k, j requires 0 <= j < k => b[Wrap(|b|, p + j)])
  }

  /** Element `j` of a span is the slot `j` positions on. */
  lemma SpanAt<T>(b: seq<T>, p: nat, k: nat, j: nat)
    requires p < |b| && k <= |b| && j < k
    ensures Span(b, p, k)[j] == b[Wrap(|b|, p + j)]
  {
  }

  /** Advancing the read position by `k` drops the `k` oldest bytes. */
  lemma SpanAdvance<T>(b: seq<T>, rp: nat, c: nat, k: nat)
    requires rp < |b| && c <= |b| && k <= c
    ensures Span(b, Wrap(|b|, rp + k), c - k) == Span(b, rp, c)[k..]
  {
    var x := Span(b, Wrap(|b|, rp + k), c - k);
    var y := Span(b, rp, c)[k..];
    forall j | 0 <= j < c - k
      ensures x[j] == y[j]
    {
      assert Wrap(|b|, Wrap(|b|, rp + k) + j) == Wrap(|b|, rp + k + j);
    }
  }

  /** Storing a value at the slot after the `c` oldest ones appends it. */
  lemma SpanStore<T>(b: seq<T>, p: nat, c: nat, x: T)
    requires p < |b| && c < |b|
    ensures Span(b[Wrap(|b|, p + c) := x], p, c + 1) == Span(b, p, c) + [x]
  {
    var x1 := Span(b[Wrap(|b|, p + c) := x], p, c + 1);
    var y := Span(b, p, c) + [x];
    forall j | 0 <= j < c + 1
      ensures x1[j] == y[j]
    {
      if j < c {
        WrapDistinct(|b|, p + j, p + c);
      }
    }
  }
}
