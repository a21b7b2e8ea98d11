/**
 * The MIDI stream assembler: a byte-at-a-time state machine that turns the
 * raw MIDI 1.0 byte stream received on USB or the I2C bus into packed
 * commands (status | data0 << 8 | data1 << 16), posted as MIDI events. It
 * skips System Exclusive messages, takes the number of data bytes of each
 * status byte from the length table and keeps its state between calls.
 *
 * The pure layer (Feed, Assemble, CallbackScan) states what the assembler
 * computes; the class MidiPort holds the static state of the C module and its
 * methods are proved against that layer.
 */
module Midi {
  import opened Defines
  import opened AppTask
  import opened AppEvents
  import opened MidiTable
  import opened RingBuffers
  import opened Application

  datatype MidiState = Reset | SysEx

  /** The four static variables of the assembler. */
  datatype Parser = Parser(state: MidiState, offset: u8, args: u8, midi: u32)

  /** The state at start-up and after `midi_reset`. */
  const Initial := Parser(Reset, 0, 0, 0)

  /**
   * The states the assembler can reach: the offset is a byte boundary, the
   * command held so far fits in the bits below it, and the data bytes still
   * awaited fit below bit 24.
   */
  ghost predicate Sound(p: Parser)
  {
    p.args as int <= Slots(p.offset) && p.midi < Room(p.offset)
  }

  /** The data bytes that may still be awaited at an offset; -1 off the byte boundaries. */
  function Slots(offset: nat): int
  {
    if offset == 0 then 0 else if offset == 8 then 2 else if offset == 16 then 1 else if offset == 24 then 0 else -1
  }

  /** 2^offset for the byte offsets 0, 8, 16 and 24. */
  function Room(offset: nat): nat
  {
    if offset == 0 then 1 else if offset == 8 then 0x100 else if offset == 16 then 0x1_0000 else 0x100_0000
  }

  lemma Pow2Bytes()
    ensures Pow2(8) == 0x100 && Pow2(16) == 0x1_0000 && Pow2(24) == 0x100_0000
  {
  }

  /**
   * `APP_EVENT_MIDI | m` for a payload below 2^24, written as the sum the
   * OR amounts to (MidiEventIsOr).
   */
  function MidiEvent(m: nat): (e: u32)
    requires m < 0x100_0000
    ensures EventType(e) == EventMidi && EventValue(e) == m
  {
    EventMidi + m
  }

  lemma MidiEventIsOr(m: nat)
    requires m < 0x100_0000
    ensures MidiEvent(m) == BitOr(EventMidi, m)
  {
    Pow2Bytes();
    BitOrDisjoint(m, 4, 24);
  }

  /**
   * `_midi |= cmd << _midi_offset` while a data byte is awaited, at offset 8
   * or 16; the sum the OR amounts to there (AddDataIsOr).
   */
  function AddData(p: Parser, cmd: u8): (m: u32)
    requires Sound(p) && p.args > 0
    ensures m < Room(p.offset + 8)
  {
    if p.offset == 8 then p.midi + cmd * 0x100 else p.midi + cmd * 0x1_0000
  }

  lemma AddDataIsOr(p: Parser, cmd: u8)
    requires Sound(p) && p.args > 0
    ensures AddData(p, cmd) == BitOr(p.midi, cmd * Pow2(p.offset))
  {
    Pow2Bytes();
    BitOrDisjoint(p.midi, cmd, p.offset);
  }

  /** `(cmd & MIDI_SYSEX_START) < MIDI_COMMAND_FIRST`: the top bit is clear. */
  lemma DataTest(cmd: u8)
    ensures (cmd / 0x10 * 0x10 < CommandFirst) == IsData(cmd)
  {
  }

  /**
   * One byte through the assembler: the new state and the events it posts.
   * Inside SysEx only 0xF7 is acted on; 0xF0 enters SysEx; a data byte (the
   * C test on the high nibble, DataTest) adds
   * to the command being assembled; any other byte starts a new command.
   * A command is posted once its last data byte has arrived.
   */
  function Feed(p: Parser, cmd: u8): (r: (Parser, seq<u32>))
    requires Sound(p)
    ensures Sound(r.0) && |r.1| <= 1
    ensures r.1 != [] ==> r.0.state == Reset && r.0.args == 0 && r.1 == [MidiEvent(r.0.midi)]
  {
    match p.state
    case SysEx =>
      (if cmd == SysexEnd then p.(state := Reset) else p, [])
    case Reset =>
      if cmd == SysexStart then
        (p.(state := SysEx), [])
      else if IsData(cmd) then
        if p.args > 0 then
          var q := p.(offset := p.offset + 8, args := p.args - 1, midi := AddData(p, cmd));
          (q, if q.args == 0 then [MidiEvent(q.midi)] else [])
        else
          (p, [])
      else
        LutAtMostTwo(cmd);
        var q := p.(offset := 8, args := LengthLut(cmd), midi := cmd);
        (q, if q.args == 0 then [MidiEvent(q.midi)] else [])
  }

  /** A run of bytes through the assembler, oldest first. */
  function Assemble(p: Parser, bytes: seq<u8>): (r: (Parser, seq<u32>))
    requires Sound(p)
    ensures Sound(r.0)
  {
    if bytes == [] then (p, [])
    else
      var a := Assemble(p, bytes[..|bytes| - 1]);
      var b := Feed(a.0, bytes[|bytes| - 1]);
      (b.0, a.1 + b.1)
  }

  /** Assemble unfolded at its last byte. */
  lemma AssembleSnoc(p: Parser, bytes: seq<u8>, x: u8)
    requires Sound(p)
    ensures var a := Assemble(p, bytes); var b := Feed(a.0, x);
      Assemble(p, bytes + [x]) == (b.0, a.1 + b.1)
  {
    assert (bytes + [x])[..|bytes|] == bytes;
  }

  /**
   * Because the state survives between calls, a stream split into two runs
   * posts the same events, and ends in the same state, as the whole stream.
   */
  lemma {:induction false} AssembleAppend(p: Parser, a: seq<u8>, b: seq<u8>)
    requires Sound(p)
    ensures var x := Assemble(p, a); var y := Assemble(x.0, b);
      Assemble(p, a + b) == (y.0, x.1 + y.1)
  {
    if b == [] {
      assert a + b == a;
      ConcatUnit(Assemble(p, a).1, [], []);
    } else {
      ConcatInit(a, b);
      AssembleAppend(p, a, b[..|b| - 1]);
      var x := Assemble(p, a);
      var y' := Assemble(x.0, b[..|b| - 1]);
      var f := Feed(y'.0, b[|b| - 1]);
      ConcatUnit(x.1, y'.1, f.1);
    }
  }

  /** Every posted event is a MIDI event. */
  lemma {:induction false} AssembleEvents(p: Parser, bytes: seq<u8>)
    requires Sound(p)
    ensures forall e <- Assemble(p, bytes).1 :: EventType(e) == EventMidi
  {
    if bytes != [] {
      AssembleEvents(p, bytes[..|bytes| - 1]);
    }
  }

  /** Outside SysEx, 0xF0 enters it; inside, 0xF7 leaves it. Neither posts anything. */
  lemma SysexBounds(p: Parser)
    requires Sound(p)
    ensures p.state == Reset ==> Feed(p, SysexStart) == (p.(state := SysEx), [])
    ensures p.state == SysEx ==> Feed(p, SysexEnd) == (p.(state := Reset), [])
  {
  }

  /**
   * Inside SysEx every byte but 0xF7 is dropped, real-time bytes included,
   * and the state is kept; closing with 0xF7 returns to the reset state.
   */
  lemma {:induction false} SysexSkipped(p: Parser, bytes: seq<u8>)
    requires Sound(p) && p.state == SysEx && SysexEnd !in bytes
    ensures Assemble(p, bytes) == (p, [])
    ensures Assemble(p, bytes + [SysexEnd]) == (p.(state := Reset), [])
  {
    if bytes != [] {
      SysexSkipped(p, bytes[..|bytes| - 1]);
      assert bytes[|bytes| - 1] in bytes;
    }
    AssembleSnoc(p, bytes, SysexEnd);
    assert Feed(p, SysexEnd) == (p.(state := Reset), []);
    var none: seq<u32> := [];
    assert none + none == none;
  }

  /** There is no running status: a data byte with no data byte awaited is ignored. */
  lemma NoRunningStatus(p: Parser, cmd: u8)
    requires Sound(p) && p.state == Reset && p.args == 0 && IsData(cmd)
    ensures Feed(p, cmd) == (p, [])
  {
  }

  /**
   * Outside SysEx a status byte other than 0xF0 starts a new command,
   * discarding any partly assembled one; one without data bytes is posted
   * at once.
   */
  lemma StatusRestarts(p: Parser, s: u8)
    requires Sound(p) && p.state == Reset && !IsData(s) && s != SysexStart
    ensures Feed(p, s).0 == Parser(Reset, 8, LengthLut(s), s)
    ensures Feed(p, s).1 == if LengthLut(s) == 0 then [EventMidi + s] else []
  {
  }

  /** The first and second data bytes of a command, 0 where absent. */
  function DataAt(d: seq<u8>, i: nat): u8
  {
    if i < |d| then d[i] else 0
  }

  /**
   * A status byte followed by exactly its data bytes posts one event, the
   * packed command, whatever was being assembled before.
   */
  lemma CommandAssembled(p: Parser, s: u8, d: seq<u8>)
    requires Sound(p) && p.state == Reset && !IsData(s) && s != SysexStart
    requires |d| == LengthLut(s) && forall b <- d :: IsData(b)
    ensures var v := Packed(s, DataAt(d, 0), DataAt(d, 1));
      Assemble(p, [s] + d) == (Parser(Reset, 8 + 8 * |d|, 0, v), [MidiEvent(v)])
  {
    LutAtMostTwo(s);
    if |d| == 0 {
      assert [s] + d == [s];
      StatusAssembled(p, s);
      StatusRestarts(p, s);
    } else if |d| == 1 {
      assert d == [d[0]];
      Command1Assembled(p, s, d[0]);
    } else {
      assert [s] + d == [s] + [d[0]] + [d[1]];
      Command2Assembled(p, s, d[0], d[1]);
    }
  }

  /** CommandAssembled for a status byte with one data byte. */
  lemma Command1Assembled(p: Parser, s: u8, d0: u8)
    requires Sound(p) && p.state == Reset && !IsData(s) && s != SysexStart
    requires LengthLut(s) == 1 && IsData(d0)
    ensures var v := Packed(s, d0, 0);
      Assemble(p, [s] + [d0]) == (Parser(Reset, 16, 0, v), [MidiEvent(v)])
  {
    StatusAssembled(p, s);
    StatusRestarts(p, s);
    OneDataAssembled(p, s, d0);
    assert Packed(s, d0, 0) == s + d0 * 0x100;
  }

  /** CommandAssembled for a status byte with two data bytes. */
  lemma Command2Assembled(p: Parser, s: u8, d0: u8, d1: u8)
    requires Sound(p) && p.state == Reset && !IsData(s) && s != SysexStart
    requires LengthLut(s) == 2 && IsData(d0) && IsData(d1)
    ensures var v := Packed(s, d0, d1);
      Assemble(p, [s] + [d0] + [d1]) == (Parser(Reset, 24, 0, v), [MidiEvent(v)])
  {
    StatusAssembled(p, s);
    StatusRestarts(p, s);
    OneDataAssembled(p, s, d0);
    TwoDataAssembled(p, s, d0, d1);
    assert Packed(s, d0, d1) == s + d0 * 0x100 + d1 * 0x1_0000;
  }

  lemma StatusAssembled(p: Parser, s: u8)
    requires Sound(p) && p.state == Reset && !IsData(s) && s != SysexStart
    ensures Assemble(p, [s]) == Feed(p, s)
  {
    AssembleSnoc(p, [], s);
    assert [] + [s] == [s];
    assert [] + Feed(p, s).1 == Feed(p, s).1;
  }

  /** A data byte awaited by the command being assembled. */
  lemma DataFed(q: Parser, cmd: u8)
    requires Sound(q) && q.state == Reset && q.args > 0 && IsData(cmd)
    ensures var m := AddData(q, cmd); var r := q.(offset := q.offset + 8, args := q.args - 1, midi := m);
      Feed(q, cmd) == (r, if r.args == 0 then [MidiEvent(m)] else [])
  {
  }

  /** The first data byte after a status byte that awaits one or two. */
  lemma FirstDataFed(s: u8, d0: u8)
    requires 1 <= LengthLut(s) <= 2 && IsData(d0)
    ensures var m := s + d0 * 0x100;
      Feed(Parser(Reset, 8, LengthLut(s), s), d0) ==
        (Parser(Reset, 16, LengthLut(s) - 1, m), if LengthLut(s) == 1 then [MidiEvent(m)] else [])
  {
    var q := Parser(Reset, 8, LengthLut(s), s);
    DataFed(q, d0);
    assert AddData(q, d0) == s + d0 * 0x100;
  }

  /** A status byte awaiting one or two data bytes, then the first of them. */
  lemma OneDataAssembled(p: Parser, s: u8, d0: u8)
    requires Sound(p) && p.state == Reset && 1 <= LengthLut(s) <= 2 && IsData(d0)
    requires Assemble(p, [s]) == (Parser(Reset, 8, LengthLut(s), s), [])
    ensures var m := s + d0 * 0x100;
      Assemble(p, [s] + [d0]) ==
        (Parser(Reset, 16, LengthLut(s) - 1, m), if LengthLut(s) == 1 then [MidiEvent(m)] else [])
  {
    var q := Parser(Reset, 8, LengthLut(s), s);
    AssembleSnoc(p, [s], d0);
    FirstDataFed(s, d0);
    var e := Feed(q, d0).1;
    assert [] + e == e;
  }

  /** The second data byte of a command that awaits two. */
  lemma TwoDataAssembled(p: Parser, s: u8, d0: u8, d1: u8)
    requires Sound(p) && p.state == Reset && IsData(d1) && s + d0 * 0x100 < 0x1_0000
    requires Assemble(p, [s] + [d0]) == (Parser(Reset, 16, 1, s + d0 * 0x100), [])
    ensures var v := s + d0 * 0x100 + d1 * 0x1_0000;
      Assemble(p, [s] + [d0] + [d1]) == (Parser(Reset, 24, 0, v), [MidiEvent(v)])
  {
    var q := Parser(Reset, 16, 1, s + d0 * 0x100);
    var v := s + d0 * 0x100 + d1 * 0x1_0000;
    var r := Parser(Reset, 24, 0, v);
    assert AddData(q, d1) == v;
    DataFed(q, d1);
    assert Feed(q, d1) == (r, [MidiEvent(v)]);
    AssembleSnoc(p, [s] + [d0], d1);
    assert [] + [MidiEvent(v)] == [MidiEvent(v)];
  }

  /** Note On, key 0x40, velocity 0x7F posts exactly the event 0x047F4090. */
  lemma NoteOnExample()
    ensures Assemble(Initial, [0x90, 0x40, 0x7F]).1 == [0x047F_4090]
  {
    CommandAssembled(Initial, 0x90, [0x40, 0x7F]);
    assert [0x90] + [0x40, 0x7F] == [0x90, 0x40, 0x7F];
  }

  /**
   * One byte of `midi_callback`: a 0xF4 byte received on the bus reports the
   * bus disconnected (posting a change event if it was connected), then the
   * byte goes through the assembler. Yields the new parser state, the new
   * bus flag and the events posted.
   */
  function CallbackStep(p: Parser, bus: bool, fromBus: bool, cmd: u8): (r: (Parser, bool, seq<u32>))
    requires Sound(p)
    ensures Sound(r.0) && r.0 == Feed(p, cmd).0
  {
    var (bus', e) :=
      if fromBus && cmd == ReservedF4 then (false, if bus then [EventConnectionChange] else [])
      else (bus, []);
    var f := Feed(p, cmd);
    (f.0, bus', e + f.1)
  }

  /** A run of bytes through CallbackStep. */
  function CallbackScan(p: Parser, bus: bool, fromBus: bool, bytes: seq<u8>): (r: (Parser, bool, seq<u32>))
    requires Sound(p)
    ensures Sound(r.0)
  {
    if bytes == [] then (p, bus, [])
    else
      var a := CallbackScan(p, bus, fromBus, bytes[..|bytes| - 1]);
      var b := CallbackStep(a.0, a.1, fromBus, bytes[|bytes| - 1]);
      (b.0, b.1, a.2 + b.2)
  }

  lemma {:induction false} CallbackScanAppend(p: Parser, bus: bool, fromBus: bool, a: seq<u8>, b: seq<u8>)
    requires Sound(p)
    ensures var x := CallbackScan(p, bus, fromBus, a); var y := CallbackScan(x.0, x.1, fromBus, b);
      CallbackScan(p, bus, fromBus, a + b) == (y.0, y.1, x.2 + y.2)
  {
    if b == [] {
      assert a + b == a;
      ConcatUnit(CallbackScan(p, bus, fromBus, a).2, [], []);
    } else {
      ConcatInit(a, b);
      CallbackScanAppend(p, bus, fromBus, a, b[..|b| - 1]);
      var x := CallbackScan(p, bus, fromBus, a);
      var y' := CallbackScan(x.0, x.1, fromBus, b[..|b| - 1]);
      var f := CallbackStep(y'.0, y'.1, fromBus, b[|b| - 1]);
      ConcatUnit(x.2, y'.2, f.2);
    }
  }

  /**
   * The bytes change the parser exactly as the assembler does. From USB the
   * bus flag is untouched and only MIDI events are posted; from the bus the
   * flag ends cleared exactly when a 0xF4 byte went by.
   */
  lemma {:induction false} CallbackScanIsAssemble(p: Parser, bus: bool, fromBus: bool, bytes: seq<u8>)
    requires Sound(p)
    ensures CallbackScan(p, bus, fromBus, bytes).0 == Assemble(p, bytes).0
    ensures !fromBus ==> CallbackScan(p, bus, fromBus, bytes) == (Assemble(p, bytes).0, bus, Assemble(p, bytes).1)
    ensures fromBus ==> CallbackScan(p, bus, fromBus, bytes).1 == (bus && ReservedF4 !in bytes)
  {
    if bytes != [] {
      var init := bytes[..|bytes| - 1];
      CallbackScanIsAssemble(p, bus, fromBus, init);
      var f := Feed(CallbackScan(p, bus, fromBus, init).0, bytes[|bytes| - 1]);
      assert [] + f.1 == f.1;
      assert ReservedF4 in bytes <==> ReservedF4 in init || bytes[|bytes| - 1] == ReservedF4 by {
        assert bytes == init + [bytes[|bytes| - 1]];
      }
    }
  }

  /**
   * The events one `midi_callback` posts for the unread bytes: on the bus
   * receive buffer a connection-change event first if the bus was not yet
   * connected, then those of the bytes.
   */
  function CallbackEvents(p: Parser, bus: bool, fromBus: bool, bytes: seq<u8>): (r: seq<u32>)
    requires Sound(p)
    ensures fromBus && !bus ==> |r| > 0 && r[0] == EventConnectionChange
    ensures !fromBus ==> r == Assemble(p, bytes).1
  {
    CallbackScanIsAssemble(p, bus, fromBus, bytes);
    if fromBus then
      (if !bus then [EventConnectionChange] else []) + CallbackScan(p, true, true, bytes).2
    else
      CallbackScan(p, bus, false, bytes).2
  }

  /**
   * What a run of writes `d` leaves in a transmit buffer that held `u0`
   * with `free0` bytes free, when nothing drains it in between: the bytes
   * of `d` that fit, appended, and that much less free space.
   */
  ghost predicate Sent(u0: seq<u8>, u: seq<u8>, d: seq<u8>, free0: int, free: int)
  {
    0 <= free0 && u == u0 + d[..Min(|d|, free0)] && free == free0 - Min(|d|, free0)
  }

  /** One more write of `c`, truncated to the free space, keeps Sent. */
  lemma SentStep(u0: seq<u8>, u: seq<u8>, d: seq<u8>, free0: int, free: int, c: seq<u8>)
    requires Sent(u0, u, d, free0, free)
    ensures var w := Min(|c|, free); Sent(u0, u + c[..w], d + c, free0, free - w)
  {
    var w := Min(|c|, free);
    if |d| <= free0 {
      assert d[..|d|] == d;
      assert (d + c)[..Min(|d + c|, free0)] == d + c[..w];
      ConcatUnit(u0, d, c[..w]);
    } else {
      assert c[..w] == [];
      assert (d + c)[..free0] == d[..free0];
      ConcatUnit(u, [], []);
    }
  }

  /** Every byte of `rx` from `cut` on written, in one run or in chunks. */
  lemma SentAll(u0: seq<u8>, u: seq<u8>, rx: seq<u8>, cut: nat, free0: int, free: int)
    requires cut <= |rx| && Sent(u0, u, rx[cut..|rx|], free0, free)
    ensures u == u0 + rx[cut..][..Min(|rx| - cut, free0)]
    ensures cut == 0 ==> u == u0 + rx[..Min(|rx|, free0)]
  {
    assert rx[cut..|rx|] == rx[cut..];
    assert cut == 0 ==> rx[cut..] == rx;
  }

  /**
   * Scanning the bytes before `k` and then those from `k` to `k2` is
   * scanning the bytes before `k2`, with the bus flag kept as ScanBusFlag
   * says.
   */
  lemma ScanChunk(p: Parser, bus: bool, fromBus: bool, rx: seq<u8>, k: nat, k2: nat, q: seq<u32>)
    requires Sound(p) && |q| < QueueSize && k <= k2 <= |rx| && (fromBus ==> bus)
    ensures var x := CallbackScan(p, bus, fromBus, rx[..k]);
      var y := CallbackScan(x.0, x.1, fromBus, rx[k..k2]);
      var z := CallbackScan(p, bus, fromBus, rx[..k2]);
      && z.0 == y.0 && z.1 == y.1 && PushedAll(q, z.2) == PushedAll(PushedAll(q, x.2), y.2)
      && (!fromBus ==> z.1 == bus) && (fromBus && ReservedF4 !in rx ==> z.1)
      && (fromBus ==> z.1 == (ReservedF4 !in rx[..k2]))
  {
    var x := CallbackScan(p, bus, fromBus, rx[..k]);
    var y := CallbackScan(x.0, x.1, fromBus, rx[k..k2]);
    PrefixSplit(rx, k, k2);
    CallbackScanAppend(p, bus, fromBus, rx[..k], rx[k..k2]);
    PushedAllAppend(q, x.2, y.2);
    ScanBusFlag(p, bus, fromBus, rx, k2);
  }

  /**
   * From USB the bus flag stays; from the bus it stays set while no 0xF4
   * byte arrives, and is clear once one has.
   */
  lemma ScanBusFlag(p: Parser, bus: bool, fromBus: bool, rx: seq<u8>, k: nat)
    requires Sound(p) && k <= |rx|
    ensures !fromBus ==> CallbackScan(p, bus, fromBus, rx[..k]).1 == bus
    ensures fromBus && ReservedF4 !in rx ==> CallbackScan(p, bus, fromBus, rx[..k]).1 == bus
    ensures fromBus ==> CallbackScan(p, bus, fromBus, rx[..k]).1 == (bus && ReservedF4 !in rx[..k])
  {
    CallbackScanIsAssemble(p, bus, fromBus, rx[..k]);
    assert forall x :: x in rx[..k] ==> x in rx;
  }

  /** The events of a callback: the connection report, then those of the scan. */
  lemma CallbackEventsSplit(p: Parser, bus: bool, fromBus: bool, bytes: seq<u8>, q: seq<u32>)
    requires Sound(p) && |q| < QueueSize
    ensures var conn: seq<u32> := if fromBus && !bus then [EventConnectionChange] else [];
      PushedAll(q, CallbackEvents(p, bus, fromBus, bytes)) ==
      PushedAll(PushedAll(q, conn), CallbackScan(p, fromBus || bus, fromBus, bytes).2)
  {
    var conn: seq<u32> := if fromBus && !bus then [EventConnectionChange] else [];
    PushedAllAppend(q, conn, CallbackScan(p, fromBus || bus, fromBus, bytes).2);
    if !fromBus {
      assert [] + CallbackScan(p, bus, fromBus, bytes).2 == CallbackScan(p, bus, fromBus, bytes).2;
    }
  }

  /**
   * What `midi_callback` starts from: the unread bytes, the parser, the bus
   * flag once the bus receive buffer has reported it, the pending events
   * and the two transmit buffers with their free space.
   */
  datatype Start = Start(rx: seq<u8>, parser: Parser, bus: bool, pending: seq<u32>,
                         usbTx: seq<u8>, usbFree: int, busTx: seq<u8>, busFree: int,
                         forward: bool)

  /**
   * The static state of `midi.c` and the buffers and flags it uses: the
   * echo buffer back to the host (`BUFFER_MIDI_TX`), the bus receive and
   * transmit buffers and the connection flags.
   */

  /**
   * Where forwarding to the bus began, for the flags `usb` and `bus` after
   * `k` unread bytes: forwarding is under way exactly while USB is
   * connected and the bus is not, and only then may `cut` lie before `k`.
   * From USB that holds throughout (`forward`) or never; from the bus the
   * flag is clear exactly once a 0xF4 byte went by, and forwarding begins
   * after the chunk that held it.
   */
  ghost predicate CutOk(fromBus: bool, s: Start, k: nat, cut: nat, usb: bool, bus: bool)
  {
    && cut <= k <= |s.rx|
    && (!(usb && !bus) ==> cut == k)
    && (s.forward ==> cut == 0 && usb && !bus)
    && (fromBus ==> (bus <==> ReservedF4 !in s.rx[..k]))
    && (fromBus && !bus ==> ReservedF4 in s.rx[..cut])
  }

  /** One chunk more: forwarding continues from `cut`, or is yet to begin after the chunk. */
  lemma CutStep(fromBus: bool, s: Start, k: nat, k2: nat, cut: nat, usb: bool, bus: bool, bus2: bool)
    requires CutOk(fromBus, s, k, cut, usb, bus) && k <= k2 <= |s.rx|
    requires s.forward ==> !fromBus
    requires !fromBus ==> bus2 == bus
    requires fromBus ==> (bus2 <==> ReservedF4 !in s.rx[..k2])
    ensures CutOk(fromBus, s, k2, if usb && !bus then cut else k2, usb, bus2)
  {
    assert forall x | x in s.rx[..k] :: x in s.rx[..k2] by {
      assert s.rx[..k] == s.rx[..k2][..k];
    }
  }

  /**
   * Where forwarding began, once every byte went through: from USB at 0
   * when it was on and nowhere otherwise; from the bus nowhere unless USB
   * is connected and a 0xF4 byte came before it.
   */
  lemma CutEnd(fromBus: bool, s: Start, cut: nat, usb: bool, bus: bool)
    requires CutOk(fromBus, s, |s.rx|, cut, usb, bus)
    requires !fromBus ==> bus == s.bus && (s.forward <==> usb && !s.bus)
    ensures !fromBus ==> cut == if usb && !s.bus then 0 else |s.rx|
    ensures fromBus && (!usb || ReservedF4 !in s.rx) ==> cut == |s.rx|
    ensures fromBus && cut < |s.rx| ==> ReservedF4 in s.rx[..cut]
  {
    assert s.rx[..|s.rx|] == s.rx;
  }

  class MidiPort {
    var state: MidiState
    var offset: u8
    var args: u8
    var midi: u32
    const usbTx: RingBuffer
    const i2cRx: RingBuffer
    const i2cTx: RingBuffer
    const link: Connections

    ghost function Current(): Parser
      reads this
    {
      Parser(state, offset, args, midi)
    }

    ghost predicate Valid()
      reads this, link, link.queue, usbTx, i2cTx
    {
      && Sound(Current())
      && link.queue.Valid() && usbTx.Valid() && i2cTx.Valid()
      && usbTx != i2cTx && usbTx.buffer != i2cTx.buffer
    }

    /** The static initialisers: the reset state. */
    constructor (usbTx: RingBuffer, i2cRx: RingBuffer, i2cTx: RingBuffer, link: Connections)
      ensures this.usbTx == usbTx && this.i2cRx == i2cRx && this.i2cTx == i2cTx && this.link == link
      ensures Current() == Initial
    {
      this.usbTx, this.i2cRx, this.i2cTx, this.link := usbTx, i2cRx, i2cTx, link;
      state, midi, offset, args := MidiState.Reset, 0, 0, 0;
    }

    /** `midi_reset`: back to the start-up state. */
    method Reset()
      modifies this
      ensures Current() == Initial
    {
      state := MidiState.Reset;
      midi := 0;
      offset := 0;
      args := 0;
    }

    /** The body of the byte loop of `midi_callback`, for one byte `cmd`. */
    method FeedByte(cmd: u8, fromBus: bool)
      requires Sound(Current()) && link.queue.Valid()
      modifies this, link, link.queue, link.queue.queue
      ensures link.queue.Valid() && link.usb == old(link.usb)
      ensures var r := CallbackStep(old(Current()), old(link.bus), fromBus, cmd);
        Current() == r.0 && link.bus == r.1 && link.queue.Pending() == PushedAll(old(link.queue.Pending()), r.2)
    {
      ghost var q0 := link.queue.Pending();
      ghost var p := Current();
      ghost var r := CallbackStep(p, link.bus, fromBus, cmd);
      ghost var e: seq<u32> := if fromBus && cmd == ReservedF4 && link.bus then [EventConnectionChange] else [];
      ghost var f := Feed(p, cmd);
      assert r == (f.0, if fromBus && cmd == ReservedF4 then false else link.bus, e + f.1);
      if fromBus && cmd == ReservedF4 {
        link.ConnectionBus(false);
      }
      assert e != [] ==> e[..0] == [];
      ghost var q1 := link.queue.Pending();
      assert q1 == PushedAll(q0, e);
      Parse(cmd);
      assert link.queue.Pending() == PushedAll(q1, f.1);
      PushedAllAppend(q0, e, f.1);
    }

    /** The assembler part of the byte loop body. */
    method Parse(cmd: u8)
      requires Sound(Current()) && link.queue.Valid()
      modifies this, link.queue, link.queue.queue
      ensures link.queue.Valid()
      ensures Current() == Feed(old(Current()), cmd).0
      ensures link.queue.Pending() == PushedAll(old(link.queue.Pending()), Feed(old(Current()), cmd).1)
    {
      DataTest(cmd);
      if state == SysEx {
        if cmd == SysexEnd {
          state := MidiState.Reset;
        }
      } else {
        if cmd == SysexStart {
          state := SysEx;
        } else if cmd / 0x10 * 0x10 < CommandFirst {
          if args > 0 {
            AddByte(cmd);
          }
        } else {
          StartCommand(cmd);
        }
      }
    }

    /** A data byte while data bytes are awaited: add it, post the command when complete. */
    method AddByte(cmd: u8)
      requires Sound(Current()) && link.queue.Valid()
      requires state == MidiState.Reset && IsData(cmd) && args > 0
      modifies this, link.queue, link.queue.queue
      ensures link.queue.Valid()
      ensures Current() == Feed(old(Current()), cmd).0
      ensures link.queue.Pending() == PushedAll(old(link.queue.Pending()), Feed(old(Current()), cmd).1)
    {
      ghost var p := Current();
      ghost var r := Feed(p, cmd);
      DataFed(p, cmd);
      midi := AddData(Parser(state, offset, args, midi), cmd);
      offset := offset + 8;
      args := args - 1;
      assert Current() == r.0;
      if args == 0 {
        Post(MidiEvent(midi));
      } else {
        assert r.1 == [];
      }
    }

    /** A status byte other than 0xF0: start a new command, posting it at once if it has no data. */
    method StartCommand(cmd: u8)
      requires Sound(Current()) && link.queue.Valid()
      requires state == MidiState.Reset && !IsData(cmd) && cmd != SysexStart
      modifies this, link.queue, link.queue.queue
      ensures link.queue.Valid()
      ensures Current() == Feed(old(Current()), cmd).0
      ensures link.queue.Pending() == PushedAll(old(link.queue.Pending()), Feed(old(Current()), cmd).1)
    {
      StatusRestarts(Current(), cmd);
      midi := cmd;
      offset := 8;
      LutAtMostTwo(cmd);
      args := LengthLut(cmd);
      if args == 0 {
        Post(MidiEvent(midi));
      }
    }

    /** `app_pushevent` of one event. */
    method Post(e: u32)
      requires link.queue.Valid()
      modifies link.queue, link.queue.queue
      ensures link.queue.Valid() && link.queue.Pending() == PushedAll(old(link.queue.Pending()), [e])
    {
      link.queue.Push(e);
      assert [e][..0] == [];
    }

    /** The byte loop of `midi_callback` over one chunk. */
    method ConsumeChunk(chunk: seq<u8>, fromBus: bool)
      requires Sound(Current()) && link.queue.Valid()
      modifies this, link, link.queue, link.queue.queue
      ensures link.queue.Valid() && link.usb == old(link.usb)
      ensures var r := CallbackScan(old(Current()), old(link.bus), fromBus, chunk);
        Current() == r.0 && link.bus == r.1 && link.queue.Pending() == PushedAll(old(link.queue.Pending()), r.2)
    {
      ghost var p := Current();
      ghost var bus0 := link.bus;
      ghost var q0 := link.queue.Pending();
      for i := 0 to |chunk|
        invariant Sound(Current()) && link.queue.Valid() && link.usb == old(link.usb)
        invariant var r := CallbackScan(p, bus0, fromBus, chunk[..i]);
          Current() == r.0 && link.bus == r.1 && link.queue.Pending() == PushedAll(q0, r.2)
      {
        ghost var r := CallbackScan(p, bus0, fromBus, chunk[..i]);
        ghost var s := CallbackStep(r.0, r.1, fromBus, chunk[i]);
        FeedByte(chunk[i], fromBus);
        assert chunk[..i + 1][..i] == chunk[..i];
        PushedAllAppend(q0, r.2, s.2);
      }
      assert chunk[..|chunk|] == chunk;
    }

    /**
     * The writes of one chunk in `midi_callback`: echo to the host and, while
     * USB is connected and the bus is not, forward to the bus. A full buffer
     * takes what fits.
     */
    method Echo(chunk: seq<u8>)
      requires usbTx.Valid() && i2cTx.Valid() && usbTx != i2cTx && usbTx.buffer != i2cTx.buffer
      requires |chunk| < 0x1_0000
      modifies usbTx, usbTx.buffer, i2cTx, i2cTx.buffer
      ensures usbTx.Valid() && i2cTx.Valid()
      ensures usbTx.Contents() == old(usbTx.Contents()) + chunk[..Min(|chunk|, old(usbTx.ToWrite()))]
      ensures i2cTx.Contents() ==
                if link.usb && !link.bus then old(i2cTx.Contents()) + chunk[..Min(|chunk|, old(i2cTx.ToWrite()))]
                else old(i2cTx.Contents())
    {
      var _ := usbTx.Write(Some(chunk), |chunk|);
      if link.usb && !link.bus {
        var _ := i2cTx.Write(Some(chunk), |chunk|);
      }
    }

    /** The receive side after `k` of the unread bytes: the rest are unread. */
    ghost predicate RxAt(appbuffer: RingBuffer, s: Start, k: nat)
      reads appbuffer, appbuffer.buffer
    {
      appbuffer.Valid() && k <= |s.rx| && appbuffer.Contents() == s.rx[k..]
    }

    /**
     * The parser, bus flag and events are `sc`, the result of scanning a
     * prefix of the unread bytes; the bus flag only moves as the source of
     * the bytes allows.
     */
    ghost predicate ScanAt(fromBus: bool, s: Start, sc: (Parser, bool, seq<u32>))
      reads this, link, link.queue, link.queue.queue
    {
      && |s.pending| < QueueSize && Sound(Current()) && link.queue.Valid()
      && Current() == sc.0 && link.bus == sc.1 && link.queue.Pending() == PushedAll(s.pending, sc.2)
      && (!fromBus ==> link.bus == s.bus)
      && (fromBus && ReservedF4 !in s.rx ==> link.bus)
    }

    /**
     * The transmit buffers after the first `k` unread bytes were echoed:
     * all of them to the host, and those from `cut` on to the bus.
     */
    ghost predicate TxAt(s: Start, k: nat, cut: nat)
      reads usbTx, usbTx.buffer, i2cTx, i2cTx.buffer
    {
      && cut <= k <= |s.rx| && usbTx.Valid() && i2cTx.Valid() && usbTx != i2cTx && usbTx.buffer != i2cTx.buffer
      && Sent(s.usbTx, usbTx.Contents(), s.rx[..k], s.usbFree, usbTx.ToWrite())
      && Sent(s.busTx, i2cTx.Contents(), s.rx[cut..k], s.busFree, i2cTx.ToWrite())
    }

    /** Echo of the chunk at `k` keeps TxAt, forwarding it when the flags say so. */
    method EchoStep(appbuffer: RingBuffer, chunk: seq<u8>, fromBus: bool, ghost s: Start, ghost k: nat, ghost k2: nat,
                    ghost cut: nat, ghost cut2: nat, ghost sc: (Parser, bool, seq<u32>))
      requires RxAt(appbuffer, s, k) && ScanAt(fromBus, s, sc) && TxAt(s, k, cut) && CutOk(fromBus, s, k, cut, link.usb, link.bus)
      requires appbuffer != usbTx && appbuffer != i2cTx
      requires appbuffer.buffer != usbTx.buffer && appbuffer.buffer != i2cTx.buffer
      requires k2 == k + |chunk| <= |s.rx| && chunk == s.rx[k..k2] && |chunk| < 0x1_0000
      requires cut2 == if link.usb && !link.bus then cut else k2
      modifies usbTx, usbTx.buffer, i2cTx, i2cTx.buffer
      ensures RxAt(appbuffer, s, k) && ScanAt(fromBus, s, sc) && TxAt(s, k2, cut2) && CutOk(fromBus, s, k, cut, link.usb, link.bus)
    {
      ghost var u := usbTx.Contents();
      ghost var t := i2cTx.Contents();
      ghost var fu := usbTx.ToWrite();
      ghost var ft := i2cTx.ToWrite();
      Echo(chunk);
      assert s.rx[..k2] == s.rx[..k] + chunk;
      SentStep(s.usbTx, u, s.rx[..k], s.usbFree, fu, chunk);
      if link.usb && !link.bus {
        assert s.rx[cut..k2] == s.rx[cut..k] + chunk;
        SentStep(s.busTx, t, s.rx[cut..k], s.busFree, ft, chunk);
      } else {
        assert s.rx[cut..k] == [] && s.rx[cut2..k2] == [];
      }
    }

    /** The byte loop over the chunk at `k` keeps ScanAt. */
    method ConsumeStep(appbuffer: RingBuffer, chunk: seq<u8>, fromBus: bool, ghost s: Start, ghost k: nat, ghost k2: nat, ghost cut2: nat)
      requires RxAt(appbuffer, s, k) && TxAt(s, k2, cut2) && Sound(s.parser)
      requires ScanAt(fromBus, s, CallbackScan(s.parser, s.bus, fromBus, s.rx[..k]))
      requires k2 == k + |chunk| <= |s.rx| && chunk == s.rx[k..k2]
      requires fromBus ==> s.bus
      modifies this, link, link.queue, link.queue.queue
      ensures RxAt(appbuffer, s, k) && TxAt(s, k2, cut2)
      ensures ScanAt(fromBus, s, CallbackScan(s.parser, s.bus, fromBus, s.rx[..k2]))
      ensures link.usb == old(link.usb)
      ensures fromBus ==> (link.bus <==> ReservedF4 !in s.rx[..k2])
    {
      ConsumeChunk(chunk, fromBus);
      ScanChunk(s.parser, s.bus, fromBus, s.rx, k, k2, s.pending);
    }

    /** Consuming the chunk at `k` of `len` bytes moves RxAt on to `k + len`. */
    method ReadStep(appbuffer: RingBuffer, len: u16, fromBus: bool, ghost s: Start, ghost k: nat, ghost k2: nat,
                    ghost cut2: nat, ghost sc: (Parser, bool, seq<u32>))
      requires RxAt(appbuffer, s, k) && ScanAt(fromBus, s, sc) && TxAt(s, k2, cut2)
      requires appbuffer != usbTx && appbuffer != i2cTx
      requires appbuffer.buffer != usbTx.buffer && appbuffer.buffer != i2cTx.buffer
      requires 0 < len && k2 == k + len as int <= |s.rx|
      modifies appbuffer
      ensures RxAt(appbuffer, s, k2) && ScanAt(fromBus, s, sc) && TxAt(s, k2, cut2)
      ensures appbuffer.writelock == old(appbuffer.writelock) && appbuffer.ToRead() < old(appbuffer.ToRead())
    {
      var _ := appbuffer.Read(null, len);
      assert s.rx[k..][len..] == s.rx[k2..];
    }

    /** One pass of the loop of `midi_callback`: the chunk at `k` of at most `chunkSize` bytes. */
    method DrainStep(appbuffer: RingBuffer, chunkSize: u16, fromBus: bool, ghost s: Start, ghost k: nat, ghost cut: nat)
      returns (len: u16, ghost k2: nat, ghost cut2: nat)
      requires RxAt(appbuffer, s, k) && TxAt(s, k, cut) && CutOk(fromBus, s, k, cut, link.usb, link.bus) && Sound(s.parser)
      requires ScanAt(fromBus, s, CallbackScan(s.parser, s.bus, fromBus, s.rx[..k]))
      requires appbuffer != usbTx && appbuffer != i2cTx
      requires appbuffer.buffer != usbTx.buffer && appbuffer.buffer != i2cTx.buffer
      requires appbuffer.ToRead() > 0 && chunkSize > 0
      requires fromBus ==> s.bus
      requires s.forward ==> !fromBus && link.usb && !s.bus
      modifies this, appbuffer, usbTx, usbTx.buffer, i2cTx, i2cTx.buffer, link, link.queue, link.queue.queue
      ensures 0 < len && k2 == k + len as int
      ensures RxAt(appbuffer, s, k2) && TxAt(s, k2, cut2) && CutOk(fromBus, s, k2, cut2, link.usb, link.bus)
      ensures ScanAt(fromBus, s, CallbackScan(s.parser, s.bus, fromBus, s.rx[..k2]))
      ensures appbuffer.writelock == old(appbuffer.writelock) && link.usb == old(link.usb)
      ensures appbuffer.ToRead() < old(appbuffer.ToRead())
    {
      var off;
      off, len := appbuffer.GetReadBuffer(chunkSize);
      var chunk := appbuffer.buffer[off..off + len];
      k2 := k + len as int;
      assert chunk == s.rx[k..k2] && |chunk| == len as int by {
        assert s.rx[k..][..len] == s.rx[k..k2];
      }
      ghost var bus := link.bus;
      cut2 := if link.usb && !link.bus then cut else k2;
      EchoStep(appbuffer, chunk, fromBus, s, k, k2, cut, cut2, CallbackScan(s.parser, s.bus, fromBus, s.rx[..k]));
      ConsumeStep(appbuffer, chunk, fromBus, s, k, k2, cut2);
      ReadStep(appbuffer, len, fromBus, s, k, k2, cut2, CallbackScan(s.parser, s.bus, fromBus, s.rx[..k2]));
      CutStep(fromBus, s, k, k2, cut, link.usb, bus, link.bus);
    }

    /** Once every byte went through, the transmit buffers hold what was written to them. */
    lemma DrainEnd(fromBus: bool, s: Start, cut: nat)
      requires TxAt(s, |s.rx|, cut) && CutOk(fromBus, s, |s.rx|, cut, link.usb, link.bus)
      requires !fromBus ==> link.bus == s.bus && (s.forward <==> link.usb && !s.bus)
      ensures usbTx.Valid() && i2cTx.Valid() && cut <= |s.rx|
      ensures usbTx.Contents() == s.usbTx + s.rx[..Min(|s.rx|, s.usbFree)]
      ensures i2cTx.Contents() == s.busTx + s.rx[cut..][..Min(|s.rx| - cut, s.busFree)]
      ensures !fromBus ==> cut == if link.usb && !s.bus then 0 else |s.rx|
      ensures fromBus && (!link.usb || ReservedF4 !in s.rx) ==> cut == |s.rx|
      ensures fromBus && cut < |s.rx| ==> ReservedF4 in s.rx[..cut]
    {
      CutEnd(fromBus, s, cut, link.usb, link.bus);
      assert s.rx[..|s.rx|] == s.rx[0..|s.rx|];
      SentAll(s.usbTx, usbTx.Contents(), s.rx, 0, s.usbFree, usbTx.ToWrite());
      SentAll(s.busTx, i2cTx.Contents(), s.rx, cut, s.busFree, i2cTx.ToWrite());
    }

    /** The loop of `midi_callback`, from the state `s` recorded before it. */
    method Drain(appbuffer: RingBuffer, window: u16, fromBus: bool, ghost s: Start) returns (ghost cut: nat, ghost k: nat)
      requires RxAt(appbuffer, s, 0) && TxAt(s, 0, 0) && CutOk(fromBus, s, 0, 0, link.usb, link.bus) && Sound(s.parser)
      requires ScanAt(fromBus, s, CallbackScan(s.parser, s.bus, fromBus, s.rx[..0]))
      requires appbuffer != usbTx && appbuffer != i2cTx
      requires appbuffer.buffer != usbTx.buffer && appbuffer.buffer != i2cTx.buffer
      requires appbuffer.ToRead() > 0 ==> window > 0
      requires fromBus ==> s.bus
      requires s.forward ==> !fromBus && link.usb && !s.bus
      modifies this, appbuffer, usbTx, usbTx.buffer, i2cTx, i2cTx.buffer, link, link.queue, link.queue.queue
      ensures k == |s.rx|
      ensures RxAt(appbuffer, s, k) && TxAt(s, k, cut) && CutOk(fromBus, s, k, cut, link.usb, link.bus)
      ensures ScanAt(fromBus, s, CallbackScan(s.parser, s.bus, fromBus, s.rx[..k]))
      ensures appbuffer.writelock == old(appbuffer.writelock) && link.usb == old(link.usb)
    {
      var chunkSize := window;
      k, cut := 0, 0;
      while appbuffer.ToRead() > 0
        invariant RxAt(appbuffer, s, k) && TxAt(s, k, cut) && CutOk(fromBus, s, k, cut, link.usb, link.bus)
        invariant ScanAt(fromBus, s, CallbackScan(s.parser, s.bus, fromBus, s.rx[..k]))
        invariant appbuffer.writelock == old(appbuffer.writelock) && link.usb == old(link.usb)
        invariant appbuffer.ToRead() > 0 ==> chunkSize > 0
        decreases appbuffer.ToRead()
      {
        chunkSize, k, cut := DrainStep(appbuffer, chunkSize, fromBus, s, k, cut);
      }
      assert |s.rx[k..]| == 0;
    }

    /** The loop, and what the transmit buffers hold after it. */
    method DrainAll(appbuffer: RingBuffer, window: u16, fromBus: bool, ghost s: Start) returns (ghost cut: nat)
      requires RxAt(appbuffer, s, 0) && TxAt(s, 0, 0) && CutOk(fromBus, s, 0, 0, link.usb, link.bus) && Sound(s.parser)
      requires ScanAt(fromBus, s, CallbackScan(s.parser, s.bus, fromBus, s.rx[..0]))
      requires appbuffer != usbTx && appbuffer != i2cTx
      requires appbuffer.buffer != usbTx.buffer && appbuffer.buffer != i2cTx.buffer
      requires appbuffer.ToRead() > 0 ==> window > 0
      requires fromBus ==> s.bus
      requires !fromBus ==> (s.forward <==> link.usb && !s.bus)
      modifies this, appbuffer, usbTx, usbTx.buffer, i2cTx, i2cTx.buffer, link, link.queue, link.queue.queue
      ensures RxAt(appbuffer, s, |s.rx|)
      ensures ScanAt(fromBus, s, CallbackScan(s.parser, s.bus, fromBus, s.rx[..|s.rx|]))
      ensures appbuffer.writelock == old(appbuffer.writelock) && link.usb == old(link.usb)
      ensures usbTx.Valid() && i2cTx.Valid() && cut <= |s.rx|
      ensures usbTx.Contents() == s.usbTx + s.rx[..Min(|s.rx|, s.usbFree)]
      ensures i2cTx.Contents() == s.busTx + s.rx[cut..][..Min(|s.rx| - cut, s.busFree)]
      ensures !fromBus ==> cut == if link.usb && !s.bus then 0 else |s.rx|
      ensures fromBus && (!link.usb || ReservedF4 !in s.rx) ==> cut == |s.rx|
      ensures fromBus && cut < |s.rx| ==> ReservedF4 in s.rx[..cut]
    {
      ghost var k;
      cut, k := Drain(appbuffer, window, fromBus, s);
      DrainEnd(fromBus, s, cut);
    }

    /**
     * The start of `midi_callback`: data on the bus receive buffer reports
     * the bus connected; `s` records what the loop starts from.
     */
    method Begin(appbuffer: RingBuffer, fromBus: bool) returns (ghost s: Start)
      requires Valid() && appbuffer.Valid()
      requires appbuffer != usbTx && appbuffer != i2cTx
      requires appbuffer.buffer != usbTx.buffer && appbuffer.buffer != i2cTx.buffer
      modifies link, link.queue, link.queue.queue
      ensures RxAt(appbuffer, s, 0) && TxAt(s, 0, 0) && CutOk(fromBus, s, 0, 0, link.usb, link.bus) && Sound(s.parser)
      ensures ScanAt(fromBus, s, CallbackScan(s.parser, s.bus, fromBus, s.rx[..0]))
      ensures (fromBus ==> s.bus) && (!fromBus ==> (s.forward <==> link.usb && !s.bus)) && link.usb == old(link.usb)
      ensures s.rx == old(appbuffer.Contents()) && s.parser == old(Current()) && s.bus == (fromBus || old(link.bus))
      ensures s.usbTx == old(usbTx.Contents()) && s.usbFree == old(usbTx.ToWrite())
      ensures s.busTx == old(i2cTx.Contents()) && s.busFree == old(i2cTx.ToWrite())
      ensures s.pending == PushedAll(old(link.queue.Pending()), if fromBus && !old(link.bus) then [EventConnectionChange] else [])
    {
      ghost var forward := !fromBus && link.usb && !link.bus;
      if fromBus {
        link.ConnectionBus(true);
      }
      s := Start(appbuffer.Contents(), Current(), link.bus, link.queue.Pending(),
                 usbTx.Contents(), usbTx.ToWrite(), i2cTx.Contents(), i2cTx.ToWrite(), forward);
      WholeSlices(s.rx);
      assert s.rx[0..0] == [] && s.rx[..0] == [];
      ConcatUnit(s.usbTx, [], []);
      ConcatUnit(s.busTx, [], []);
      assert [EventConnectionChange][..0] == [];
    }

    /**
     * `midi_callback`: drains `appbuffer` chunk by chunk through its read
     * window. Each chunk is first echoed to the host and, while USB is
     * connected and the bus is not, forwarded to the bus; then its bytes go
     * through the assembler and the chunk is consumed. Data on the bus
     * receive buffer reports the bus connected first. Nothing drains the
     * transmit buffers meanwhile, so each receives the bytes written to it
     * up to its free space: the host all unread bytes, the bus those from
     * `cut` on. From USB `cut` is 0 when forwarding is on and the end
     * otherwise; from the bus it is the end unless USB is connected and a
     * 0xF4 byte arrived, in which case it follows that byte.
     */
    method Callback(appbuffer: RingBuffer) returns (ghost cut: nat)
      requires Valid() && appbuffer.Valid()
      requires appbuffer != usbTx && appbuffer != i2cTx
      requires appbuffer.buffer != usbTx.buffer && appbuffer.buffer != i2cTx.buffer
      modifies this, appbuffer, usbTx, usbTx.buffer, i2cTx, i2cTx.buffer, link, link.queue, link.queue.queue
      ensures Valid() && appbuffer.Valid() && appbuffer.ToRead() == 0
      ensures appbuffer.writelock == old(appbuffer.writelock) && link.usb == old(link.usb)
      ensures var fromBus := appbuffer == i2cRx;
        var r := CallbackScan(old(Current()), fromBus || old(link.bus), fromBus, old(appbuffer.Contents()));
        && Current() == r.0 && link.bus == r.1
        && link.queue.Pending() ==
             PushedAll(old(link.queue.Pending()), CallbackEvents(old(Current()), old(link.bus), fromBus, old(appbuffer.Contents())))
      ensures var rx := old(appbuffer.Contents());
        && cut <= |rx|
        && usbTx.Contents() == old(usbTx.Contents()) + rx[..Min(|rx|, old(usbTx.ToWrite()))]
        && i2cTx.Contents() == old(i2cTx.Contents()) + rx[cut..][..Min(|rx| - cut, old(i2cTx.ToWrite()))]
      ensures appbuffer != i2cRx ==> cut == if old(link.usb) && !old(link.bus) then 0 else |old(appbuffer.Contents())|
      ensures appbuffer == i2cRx && (!old(link.usb) || ReservedF4 !in old(appbuffer.Contents())) ==>
                cut == |old(appbuffer.Contents())|
      ensures appbuffer == i2cRx && cut < |old(appbuffer.Contents())| ==> ReservedF4 in old(appbuffer.Contents())[..cut]
    {
      var chunkSize := appbuffer.ToRead();
      var fromBus := appbuffer == i2cRx;
      ghost var q0 := link.queue.Pending();
      ghost var bus0 := link.bus;
      ghost var s := Begin(appbuffer, fromBus);
      cut := DrainAll(appbuffer, chunkSize, fromBus, s);
      WholeSlices(s.rx);
      CallbackEventsSplit(old(Current()), bus0, fromBus, s.rx, q0);
    }
  }
}
