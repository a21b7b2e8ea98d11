/**
 * The application event queue of ProtoPlasm: a 16-slot circular queue of
 * 32-bit events, the event type in the top byte and its value in the low
 * 24 bits. Interrupt handlers push, the state machine pops. A push onto a
 * full queue overwrites the oldest event.
 */
module AppTask {
  import opened Defines
  import opened Circular

  const QueueSize := 16

  /** Button state flags carried in an event value. */
  const EventDown: u32 := 0x0001_0000
  const EventUp: u32 := 0x0000_0000

  /** The type byte and the value bits of an event. */
  const EventMask: u32 := 0xff00_0000
  const EventMaskValue: u32 := 0x00ff_ffff

  const EventAny: u32 := 0x3f00_0000
  /** "No event": what a pop of an empty queue returns. */
  const EventNone: u32 := 0x8000_0000

  /** The type byte of an event, `e & APP_EVENT_MASK`. */
  function EventType(e: u32): (r: u32)
    ensures r % 0x100_0000 == 0 && r <= e < r + 0x100_0000
  {
    e / 0x100_0000 * 0x100_0000
  }

  /** The value of an event, `e & APP_EVENT_MASK_VALUE`. */
  function EventValue(e: u32): (r: u32)
    ensures r < 0x100_0000 && EventType(e) + r == e
  {
    e % 0x100_0000
  }

  /** The read position after popping slot `p` (the wrap of app_popevent). */
  function PopPos(p: int): (r: int)
    ensures -1 <= p < QueueSize ==> r == (p + 1) % QueueSize
  {
    if p + 1 >= QueueSize then 0 else p + 1
  }

  /** The read position `ui_pusheventback` leaves, as written: decrement, then map 0 to 15. */
  function UiPushBackPos(p: int): (r: int)
    ensures 2 <= p < QueueSize ==> PopPos(r) == p
  {
    if p - 1 == 0 then QueueSize - 1 else p - 1
  }

  /** The read position of a push-back that undoes a pop: decrement with wrap-around. */
  function PushBackPos(p: int): (r: int)
    requires 0 <= p < QueueSize
    ensures 0 <= r < QueueSize
  {
    if p == 0 then QueueSize - 1 else p - 1
  }

  /** The corrected push-back puts every popped slot back. */
  lemma PushBackUndoesPop(p: int)
    requires 0 <= p < QueueSize
    ensures PushBackPos(PopPos(p)) == p
  {
  }

  /**
   * The push-back as written misses exactly two slots: after popping slot 0
   * it moves to slot 15, and after popping slot 15 to -1, outside the queue.
   */
  lemma UiPushBackMisses(p: int)
    requires 0 <= p < QueueSize
    ensures UiPushBackPos(PopPos(p)) == p <==> (p != 0 && p != QueueSize - 1)
    ensures UiPushBackPos(PopPos(0)) == QueueSize - 1
    ensures UiPushBackPos(PopPos(QueueSize - 1)) == -1
  {
  }

  /** What a push does to the pending events: append, dropping the oldest when 15 are held. */
  function Pushed(pending: seq<u32>, e: u32): (r: seq<u32>)
    requires |pending| < QueueSize
    ensures |r| == if |pending| == QueueSize - 1 then |pending| else |pending| + 1
    ensures |r| < QueueSize && r[|r| - 1] == e
  {
    if |pending| == QueueSize - 1 then pending[1..] + [e] else pending + [e]
  }

  /** A queue holding no EventNone keeps holding none under pushes of real events. */
  lemma PushedKeepsNoNone(pending: seq<u32>, e: u32)
    requires |pending| < QueueSize && EventNone !in pending && e != EventNone
    ensures EventNone !in Pushed(pending, e)
  {
    if |pending| == QueueSize - 1 {
      assert forall x :: x in pending[1..] ==> x in pending;
    }
  }

  /** The pending events after pushing `es` in order. */
  function PushedAll(pending: seq<u32>, es: seq<u32>): (r: seq<u32>)
    requires |pending| < QueueSize
    ensures |r| < QueueSize
  {
    if es == [] then pending else Pushed(PushedAll(pending, es[..|es| - 1]), es[|es| - 1])
  }

  /** Pushing two runs of events is pushing their concatenation. */
  lemma {:induction false} PushedAllAppend(pending: seq<u32>, a: seq<u32>, b: seq<u32>)
    requires |pending| < QueueSize
    ensures PushedAll(pending, a + b) == PushedAll(PushedAll(pending, a), b)
  {
    if b == [] {
      assert a + b == a;
    } else {
      ConcatInit(a, b);
      PushedAllAppend(pending, a, b[..|b| - 1]);
    }
  }

  /** While the queue has room nothing is dropped: the events are appended. */
  lemma {:induction false} PushedAllRoom(pending: seq<u32>, es: seq<u32>)
    requires |pending| + |es| < QueueSize
    ensures PushedAll(pending, es) == pending + es
  {
    if es != [] {
      PushedAllRoom(pending, es[..|es| - 1]);
      assert pending + es[..|es| - 1] + [es[|es| - 1]] == pending + es;
    }
  }

  /**
   * The positions `app_pushevent` leaves, on the array's contents: storing
   * e at wp and advancing wp, and rp too when wp catches up with it,
   * appends e to the pending events and drops the oldest when they were
   * full.
   */
  lemma PushSpan(b: seq<u32>, rp: nat, wp: nat, e: u32)
    requires |b| == QueueSize && rp < QueueSize && wp < QueueSize
    ensures var wp' := PopPos(wp);
      var rp' := if rp == wp' then PopPos(rp) else rp;
      Span(b[wp := e], rp', Count(QueueSize, rp', wp')) == Pushed(Span(b, rp, Count(QueueSize, rp, wp)), e)
  {
    var c := Count(QueueSize, rp, wp);
    var b' := b[wp := e];
    assert b' == b[Wrap(QueueSize, rp + c) := e];
    SpanStore(b, rp, c, e);
    if c == QueueSize - 1 {
      SpanAdvance(b', rp, QueueSize, 1);
    } else {
      CountWrap(QueueSize, rp, c + 1);
    }
  }

  class EventQueue {
    const queue: array<u32>
    var readpos: int
    var writepos: int

    /** The array and the positions the C code keeps; readpos may sit one past the end. */
    ghost predicate Bounded()
      reads this
    {
      queue.Length == QueueSize && 0 <= writepos < QueueSize && 0 <= readpos <= QueueSize
    }

    ghost predicate Valid()
      reads this
    {
      Bounded() && readpos < QueueSize
    }

    /** The static queue at start-up: empty, both positions 0. */
    constructor ()
      ensures Valid() && fresh(queue) && readpos == 0 && writepos == 0
      ensures Pending() == []
    {
      queue := new u32[QueueSize];
      readpos, writepos := 0, 0;
    }

    /** The pending events, oldest first. */
    ghost function Pending(): (s: seq<u32>)
      reads this, queue
      requires Valid()
      ensures |s| < QueueSize
    {
      Span(queue[..], readpos, Count(QueueSize, readpos, writepos))
    }

    /**
     * `app_pushevent`: store at writepos and advance it; when that catches
     * up with readpos, advance readpos too, dropping the oldest event. This
     * also brings a readpos left one past the end back to slot 0.
     */
    method Push(e: u32)
      requires Bounded()
      modifies this, queue
      ensures Valid()
      ensures writepos == PopPos(old(writepos))
      ensures old(readpos) < QueueSize ==> Pending() == Pushed(old(Pending()), e)
      ensures old(readpos) == QueueSize ==> readpos == 0
    {
      ghost var wasValid := readpos < QueueSize;
      ghost var p := if wasValid then Pending() else [];
      ghost var b := queue[..];
      queue[writepos] := e;
      writepos := writepos + 1;
      if writepos >= QueueSize { writepos := 0; }
      if readpos == writepos { readpos := readpos + 1; }
      if readpos >= QueueSize { readpos := 0; }
      if wasValid {
        assert queue[..] == b[old(writepos) := e];
        PushSpan(b, old(readpos), old(writepos), e);
      }
    }

    /**
     * `app_popevent`: EventNone on an empty queue, otherwise the oldest
     * event. The wrap of readpos is skipped when the popped event is itself
     * EventNone, so popping a stored EventNone from slot 15 leaves readpos
     * at 16.
     */
    method Pop() returns (e: u32)
      requires Valid()
      modifies this
      ensures Bounded() && writepos == old(writepos)
      ensures old(Pending()) == [] ==> e == EventNone && readpos == old(readpos)
      ensures old(Pending()) != [] ==> e == old(Pending())[0]
      ensures old(Pending()) != [] ==>
                readpos == if e != EventNone then PopPos(old(readpos)) else old(readpos) + 1
      ensures EventNone !in old(Pending()) ==> Valid()
      ensures Valid() ==> Pending() == if old(Pending()) == [] then [] else old(Pending())[1..]
    {
      ghost var p := Pending();
      if p != [] {
        SpanAt(queue[..], readpos, |p|, 0);
      }
      e := EventNone;
      if readpos != writepos {
        e := queue[readpos];
        readpos := readpos + 1;
      } else {
        e := EventNone;
      }
      if e != EventNone && readpos >= QueueSize {
        readpos := 0;
      }
      if p != [] && readpos < QueueSize {
        SpanAdvance(queue[..], old(readpos), |p|, 1);
      }
    }

    /** `app_clearevents`: drop every pending event; the slots are not touched. */
    method Clear()
      requires Valid()
      modifies this
      ensures Valid() && writepos == old(writepos) && readpos == writepos
      ensures Pending() == []
    {
      readpos := writepos;
    }

    /** `ui_pusheventback`, as written. */
    method UiPushEventBack()
      requires Bounded()
      modifies this
      ensures writepos == old(writepos) && readpos == UiPushBackPos(old(readpos))
    {
      readpos := readpos - 1;
      if readpos == 0 { readpos := QueueSize - 1; }
    }

    /**
     * `app_pusheventback`, the push-back the header declares: step readpos
     * back over the slot just popped, so that the popped event is pending
     * again, first.
     */
    method PushEventBack()
      requires Valid()
      modifies this
      ensures Valid() && writepos == old(writepos) && readpos == PushBackPos(old(readpos))
      ensures |old(Pending())| < QueueSize - 1 ==> Pending() == [queue[readpos]] + old(Pending())
    {
      ghost var c := |Pending()|;
      if readpos == 0 {
        readpos := QueueSize - 1;
      } else {
        readpos := readpos - 1;
      }
      if c < QueueSize - 1 {
        assert Wrap(QueueSize, readpos + 1) == old(readpos);
        assert writepos == Wrap(QueueSize, readpos + c + 1);
        CountWrap(QueueSize, readpos, c + 1);
        SpanAdvance(queue[..], readpos, c + 1, 1);
        SpanAt(queue[..], readpos, c + 1, 0);
      }
    }
  }
}
