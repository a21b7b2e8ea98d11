/**
 * The byte ring buffer of the ProtoPlasm low-level layer: a fixed array with
 * a read position and a write position, one slot sacrificed so that a full
 * buffer and an empty one can be told apart, and zero-copy read and write
 * windows. A `null` destination or source pointer of the C API is an absent
 * array here (`null` for `array?`), meaning "move the position only".
 *
 * The wrap-around arithmetic is stated on plain sequences (the array's
 * contents), by the Circular module and by Placed below; the class ties its
 * array and positions to them.
 */
module RingBuffers {
  import opened Defines
  import opened Circular

  /** `b` after storing `d` at the slots from logical position `start` on. */
  function Placed(b: seq<u8>, start: nat, d: seq<u8>): (r: seq<u8>)
    requires start + |d| < 2 * |b|
    ensures |r| == |b|
  {
    if d == [] then b
    else Placed(b, start, d[..|d| - 1])[Wrap(|b|, start + |d| - 1) := d[|d| - 1]]
  }

  /** Bytes placed right after the `c` unread ones follow them and leave them intact. */
  lemma {:induction false} PlacedSpan(b: seq<u8>, rp: nat, c: nat, d: seq<u8>)
    requires rp < |b| && c + |d| < |b|
    ensures Span(Placed(b, rp + c, d), rp, c + |d|) == Span(b, rp, c) + d
  {
    if d != [] {
      var d' := d[..|d| - 1];
      PlacedSpan(b, rp, c, d');
      var p' := Placed(b, rp + c, d');
      var x := Span(Placed(b, rp + c, d), rp, c + |d|);
      var y := Span(b, rp, c) + d;
      forall j | 0 <= j < c + |d|
        ensures x[j] == y[j]
      {
        if j < c + |d'| {
          WrapDistinct(|b|, rp + j, rp + c + |d'|);
          assert x[j] == Span(p', rp, c + |d'|)[j];
        }
      }
    }
  }

  /** One array store at the next slot extends what has been placed. */
  lemma StoreStep(before: seq<u8>, start: nat, d: seq<u8>, b: seq<u8>, i: nat, x: u8)
    requires start + |d| + 1 < 2 * |before|
    requires b == Placed(before, start, d) && i == Wrap(|before|, start + |d|)
    ensures b[i := x] == Placed(before, start, d + [x])
  {
    assert (d + [x])[..|d|] == d;
  }

  /**
   * The zero-copy write protocol: `d` stored at the write position `wp` of
   * GetWriteBuffer's window and then committed follows the `c` unread bytes,
   * which it leaves intact.
   */
  lemma WindowCommit(b: seq<u8>, rp: nat, c: nat, d: seq<u8>)
    requires rp < |b| && c + |d| < |b|
    requires Wrap(|b|, rp + c) + |d| <= |b|
    ensures
      var wp := Wrap(|b|, rp + c);
      Span(b[..wp] + d + b[wp + |d|..], rp, c + |d|) == Span(b, rp, c) + d
  {
    var wp := Wrap(|b|, rp + c);
    var b' := b[..wp] + d + b[wp + |d|..];
    var x := Span(b', rp, c + |d|);
    var y := Span(b, rp, c) + d;
    forall j | 0 <= j < c + |d|
      ensures x[j] == y[j]
    {
      if j < c {
        WrapDistinct(|b|, rp + j, rp + c);
        assert Wrap(|b|, rp + j) < wp || Wrap(|b|, rp + j) >= wp + |d|;
      } else {
        assert Wrap(|b|, rp + j) == wp + (j - c);
      }
    }
  }

  class RingBuffer {
    const size: u16
    const buffer: array<u8>
    var readpos: u16
    var writepos: u16
    /** True while a zero-copy write window handed out by GetWriteBuffer is open. */
    var writelock: bool

    ghost predicate Valid()
      reads this
    {
      buffer.Length == size && 0 < size && readpos < size && writepos < size
    }

    /** `RINGBUFFER(size)`: both positions at 0, not locked. */
    constructor (n: u16)
      requires 0 < n
      ensures Valid() && size == n && fresh(buffer)
      ensures readpos == 0 && writepos == 0 && !writelock
      ensures Contents() == []
    {
      size := n;
      buffer := new u8[n];
      readpos, writepos, writelock := 0, 0, false;
    }

    /** `ringbuffer_toread`: the number of unread bytes. */
    function ToRead(): (r: u16)
      reads this
      requires Valid()
      ensures r == Count(size, readpos, writepos)
    {
      if readpos > writepos then writepos + size - readpos else writepos - readpos
    }

    /** `ringbuffer_towrite`: the free space; one slot is always kept empty. */
    function ToWrite(): (r: u16)
      reads this
      requires Valid()
      ensures ToRead() + r == size - 1
    {
      if writepos >= readpos then readpos + size - writepos - 1 else readpos - writepos - 1
    }

    /** The unread bytes, oldest first. */
    ghost function Contents(): (s: seq<u8>)
      reads this, buffer
      requires Valid()
      ensures |s| == ToRead()
    {
      Span(buffer[..], readpos, ToRead())
    }

    /** `ringbuffer_peek`: copies the oldest min(n, ToRead()) bytes, changes nothing. */
    method Peek(dst: array?<u8>, n: u16) returns (read: u16)
      requires Valid()
      requires dst != null ==> dst != buffer && Min(n, ToRead()) <= dst.Length
      modifies dst
      ensures read == Min(n, ToRead())
      ensures dst != null ==> dst[..read] == Contents()[..read] && dst[read..] == old(dst[read..])
    {
      if n == 0 { return 0; }
      var i;
      i, read := CopyOut(dst, n);
    }

    /**
     * The copy loop that `ringbuffer_peek` and `ringbuffer_read` share:
     * from the read position on, copy bytes (when there is a destination)
     * until n are taken or the write position is reached. It returns the
     * position after the last byte taken and their number.
     */
    method CopyOut(dst: array?<u8>, n: u16) returns (i: u16, read: u16)
      requires Valid() && 0 < n
      requires dst != null ==> dst != buffer && Min(n, ToRead()) <= dst.Length
      modifies dst
      ensures read == Min(n, ToRead())
      ensures i as int == Wrap(size, readpos + read)
      ensures dst != null ==> dst[..read] == Contents()[..read] && dst[read..] == old(dst[read..])
    {
      i := readpos;
      read := 0;
      ghost var c := Contents();
      while n - read > 0 && i != writepos
        invariant read <= n && read <= |c|
        invariant i as int == Wrap(size, readpos + read)
        invariant read < |c| ==> i != writepos
        invariant dst != null ==> forall j :: 0 <= j < read ==> dst[j] == c[j]
        invariant dst != null ==> forall j :: read <= j < dst.Length ==> dst[j] == old(dst[j])
        decreases n - read
      {
        if dst != null {
          dst[read] := buffer[i];
        }
        i := i + 1;
        read := read + 1;
        if i >= size { i := 0; }
        if read < |c| {
          WrapDistinct(size, readpos + read, readpos + |c|);
        }
      }
    }

    /**
     * `ringbuffer_read`: removes and copies the oldest min(n, ToRead())
     * bytes. A read that empties the buffer while no write window is open
     * resets both positions to 0.
     */
    method Read(dst: array?<u8>, n: u16) returns (read: u16)
      requires Valid()
      requires dst != null ==> dst != buffer && Min(n, ToRead()) <= dst.Length
      modifies this, dst
      ensures Valid() && writelock == old(writelock)
      ensures read == Min(n, old(ToRead()))
      ensures dst != null ==> dst[..read] == old(Contents())[..read] && dst[read..] == old(dst[read..])
      ensures Contents() == old(Contents())[read..]
      ensures (readpos, writepos) ==
                if n == 0 then (old(readpos), old(writepos))
                else if Contents() == [] && !writelock then (0, 0)
                else (Wrap(size, old(readpos) + read) as u16, old(writepos))
    {
      if n == 0 { return 0; }
      ghost var c := Contents();
      var i;
      i, read := CopyOut(dst, n);
      SpanAdvance(buffer[..], readpos, |c|, read);
      readpos := i;
      if readpos == writepos && !writelock {
        readpos := 0;
        writepos := 0;
      }
    }

    /**
     * `ringbuffer_write`: appends min(n, ToWrite()) bytes after the unread
     * ones and clears the write lock. With no source nothing is copied and
     * the bytes already stored in those slots are committed.
     */
    method Write(src: Option<seq<u8>>, n: u16) returns (written: u16)
      requires Valid()
      requires src.Some? ==> Min(n, ToWrite()) <= |src.value|
      modifies this, buffer
      ensures Valid() && readpos == old(readpos)
      ensures written == Min(n, old(ToWrite()))
      ensures ToRead() == old(ToRead()) + written
      ensures writelock == (if n == 0 then old(writelock) else false)
      ensures src.Some? ==> Contents() == old(Contents()) + src.value[..written]
      ensures src.None? ==> buffer[..] == old(buffer[..])
    {
      if n == 0 { return 0; }
      ghost var len := ToRead() as int;
      ghost var before := buffer[..];
      var i;
      i, written := Store(src, n);
      writepos := i;
      writelock := false;
      CountWrap(size, readpos, len + written);
      if src.Some? {
        PlacedSpan(before, readpos, len, src.value[..written]);
      }
    }

    /**
     * The copy loop of `ringbuffer_write`: stores up to n bytes from the
     * write position on, stopping at the slot just before the read position.
     */
    method Store(src: Option<seq<u8>>, n: u16) returns (i: u16, written: u16)
      requires Valid() && 0 < n
      requires src.Some? ==> Min(n, ToWrite()) <= |src.value|
      modifies buffer
      ensures written == Min(n, old(ToWrite()))
      ensures i as int == Wrap(size, readpos + old(ToRead()) + written)
      ensures src.Some? ==> buffer[..] == Placed(old(buffer[..]), readpos + old(ToRead()), src.value[..written])
      ensures src.None? ==> buffer[..] == old(buffer[..])
    {
      i := writepos;
      written := 0;
      ghost var len := ToRead() as int;
      ghost var start := readpos + len;
      ghost var room := ToWrite() as int;
      ghost var before := buffer[..];
      var stop := if readpos > 0 then readpos - 1 else size - 1;
      ghost var rp := readpos as int;
      WrapStop(size, rp, len, 0);
      while n - written > 0 && i != stop
        invariant written <= n && written <= room
        invariant i as int == Wrap(size, start + written)
        invariant (i == stop) == (written == room)
        invariant src.Some? ==> buffer[..] == Placed(before, start, src.value[..written])
        invariant src.None? ==> buffer[..] == before
        decreases n - written
      {
        if src.Some? {
          var x := src.value[written];
          assert src.value[..written + 1] == src.value[..written] + [x];
          Put(i, x, before, start, src.value[..written]);
        }
        i := i + 1;
        written := written + 1;
        if i >= size { i := 0; }
        WrapStop(size, rp, len, written);
      }
    }

    /** One store of the copy loop: x goes to slot i, the one after the bytes d placed so far. */
    method Put(i: u16, x: u8, ghost before: seq<u8>, ghost start: nat, ghost d: seq<u8>)
      requires start + |d| + 1 < 2 * |before| && |before| == buffer.Length
      requires buffer[..] == Placed(before, start, d) && i as int == Wrap(|before|, start + |d|)
      modifies buffer
      ensures buffer[..] == Placed(before, start, d + [x])
    {
      StoreStep(before, start, d, buffer[..], i as int, x);
      buffer[i] := x;
    }

    /** `ringbuffer_getreadbuffer`: the longest contiguous run of unread bytes, up to n. */
    method GetReadBuffer(n: u16) returns (offset: u16, len: u16)
      requires Valid()
      ensures offset == readpos
      ensures len == Min(Min(n, ToRead()), size - readpos)
      ensures buffer[offset..offset + len] == Contents()[..len]
    {
      offset := readpos;
      len := Min(n, ToRead()) as u16;
      len := Min(len, size - readpos) as u16;
      ghost var c := Contents();
      forall j | 0 <= j < len
        ensures c[j] == buffer[offset + j]
      {
        assert c[j] == buffer[..][Wrap(size, readpos + j)];
      }
    }

    /**
     * `ringbuffer_getwritebuffer`: sets the write lock and yields the longest
     * contiguous free run at the write position, up to n: the slots right
     * after the unread bytes.
     */
    method GetWriteBuffer(n: u16) returns (offset: u16, len: u16)
      requires Valid()
      modifies this
      ensures Valid() && writelock
      ensures readpos == old(readpos) && writepos == old(writepos)
      ensures offset == writepos == Wrap(size, readpos + ToRead())
      ensures len == Min(Min(n, ToWrite()), size - writepos)
    {
      writelock := true;
      offset := writepos;
      len := Min(n, ToWrite()) as u16;
      len := Min(len, size - writepos) as u16;
    }
  }
}
