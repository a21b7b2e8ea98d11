/**
 * The application layer of the MIDI interface: the connection flags of the
 * two transports (USB and the I2C bus), the operation mode, the MIDI filter
 * with its flash configuration, and the state machine that routes and
 * filters MIDI commands.
 *
 * The state machine is written with the macros of app_task_meta.h: each
 * state runs its ENTER case first (the handler with event APP_EVENT_MASK),
 * then handles popped events by their type byte; SWITCHTO jumps to a state,
 * which runs its ENTER case again. React states what one event does in one
 * state; the class App holds the globals and is proved against it. The
 * calls into process.c and io.c are recorded in order, as Call values.
 */
module Application {
  import opened Defines
  import opened AppTask
  import opened AppEvents
  import opened MidiTable
  import opened Io

  /**
   * `usb_connected` and `bus_connected` with the two functions that update
   * them; a change posts a connection-change event to the event queue.
   */
  class Connections {
    var usb: bool
    var bus: bool
    const queue: EventQueue

    /** Both transports start disconnected. */
    constructor (q: EventQueue)
      ensures queue == q && !usb && !bus
    {
      queue := q;
      usb, bus := false, false;
    }

    /** `application_connection_usb`: record the USB state, posting an event only on a change. */
    method ConnectionUsb(connected: bool)
      requires queue.Valid()
      modifies this, queue, queue.queue
      ensures queue.Valid() && usb == connected && bus == old(bus)
      ensures queue.Pending() ==
                if connected != old(usb) then Pushed(old(queue.Pending()), EventConnectionChange)
                else old(queue.Pending())
    {
      if connected != usb {
        usb := connected;
        queue.Push(EventConnectionChange);
      }
    }

    /** `application_connection_bus`: record the bus state, posting an event only on a change. */
    method ConnectionBus(connected: bool)
      requires queue.Valid()
      modifies this, queue, queue.queue
      ensures queue.Valid() && bus == connected && usb == old(usb)
      ensures queue.Pending() ==
                if connected != old(bus) then Pushed(old(queue.Pending()), EventConnectionChange)
                else old(queue.Pending())
    {
      if connected != bus {
        bus := connected;
        queue.Push(EventConnectionChange);
      }
    }
  }

  /** `operation_mode`, chosen at start-up from the strapping of the mode pin. */
  datatype OperationMode = MidiThru | Synth | Trigger

  /** The states of the APPLICATION state machine. */
  datatype AppState = Startup | Idle | Error | Normal | LearnClear | Learn

  /** The MIDI filter: `channelMask`, `range`, `noteMin` and `noteMax`. */
  datatype Filter = Filter(channelMask: u16, range: bool, noteMin: u8, noteMax: u8)

  /** The filter's initial values. */
  const InitialFilter := Filter(0xffff, false, 0, 255)

  /** The filter the LEARN_CLEAR state starts from. */
  const ClearedFilter := Filter(0xff, false, 0, 255)

  /** A call the state machine makes into process.c or the LED driver, in the order made. */
  datatype Call =
    | ThruCall(midi: u32)
    | SynthCall(midi: u32)
    | TriggerCall(midi: u32)
    | LedBlinkCall(led: Led, once: bool, fast: bool)
    | LedSetCall(led: Led, on: bool)

  /**
   * The mode decode of `application_init`: three independent tests of the
   * pin read with pull-up and with pull-down. The fourth combination
   * (low with pull-up, high with pull-down) keeps the mode it had.
   */
  function ModeDecode(m: OperationMode, readUp: bool, readDown: bool): (r: OperationMode)
    ensures readUp && !readDown ==> r == MidiThru
    ensures !readUp && !readDown ==> r == Synth
    ensures readUp && readDown ==> r == Trigger
    ensures !readUp && readDown ==> r == m
  {
    var m1 := if readUp && !readDown then MidiThru else m;
    var m2 := if !readUp && !readDown then Synth else m1;
    if readUp && readDown then Trigger else m2
  }

  /** `1 << MIDI_CHANNEL(midi)`: one bit per channel; only channel 0 sets the lowest bit. */
  function ChannelBit(midi: u32): (r: u16)
    ensures r == Pow2(Channel(midi))
    ensures r % 2 == 1 <==> Channel(midi) == 0
  {
    Pow2Widths();
    Pow2Mono(Channel(midi), 15);
    Pow2(Channel(midi))
  }

  /**
   * `channel & channelMask == channel` and `channel & channelMask == 0` as
   * C parses them: the comparison binds tighter, so the channel bit is
   * AND-ed with the comparison's 0 or 1.
   */
  function AndFlag(channel: nat, flag: bool): nat
  {
    BitAnd(channel, if flag then 1 else 0)
  }

  /** The parsed guard holds only for MIDI channel 0, and only when the comparison does. */
  lemma AndFlagChannel(midi: u32, flag: bool)
    ensures AndFlag(ChannelBit(midi), flag) != 0 <==> Channel(midi) == 0 && flag
  {
    BitAndOne(ChannelBit(midi));
  }

  /** `MIDI_COMMAND(midi)` between `MIDI_COMMAND_FIRST` and `MIDI_COMMAND_LAST`: a channel message. */
  predicate ChannelVoice(midi: u32)
  {
    CommandFirst <= Command(midi) <= CommandLast
  }

  /** A Note On or Note Off command. */
  predicate IsNote(midi: u32)
  {
    Command(midi) == NoteOn || Command(midi) == NoteOff
  }

  /** The range test of SYNTH and TRIGGER mode: DATA0 against noteMin, DATA1 against noteMax. */
  predicate NoteInRange(midi: u32, f: Filter)
  {
    Data0(midi) >= f.noteMin && Data1(midi) <= f.noteMax
  }

  /** The process.c entry point for a command in a mode. */
  function ModeCall(mode: OperationMode, midi: u32): Call
  {
    match mode
    case MidiThru => ThruCall(midi)
    case Synth => SynthCall(midi)
    case Trigger => TriggerCall(midi)
  }

  /** What one event does in one state: the filter after it, the calls made, a flash store, a switch. */
  datatype Reaction = Reaction(filter: Filter, calls: seq<Call>, store: bool, next: Option<AppState>)

  /** A handler that does nothing. */
  function Ignore(f: Filter): Reaction
  {
    Reaction(f, [], false, None)
  }

  /** The ENTER case of each state after STARTUP; none of them switches. */
  function EnterReaction(st: AppState, f: Filter): (r: Reaction)
    requires st != Startup
    ensures r.next == None && !r.store
    ensures st == LearnClear ==> r.filter == ClearedFilter
    ensures st != LearnClear ==> r.filter == f
  {
    match st
    case Idle => Reaction(f, [LedBlinkCall(Red, false, false)], false, None)
    case Error => Reaction(f, [LedBlinkCall(Red, false, true)], false, None)
    case Normal => Reaction(f, [LedBlinkCall(Blue, true, true)], false, None)
    case LearnClear =>
      Reaction(f.(noteMin := 0, noteMax := 255, channelMask := 0xff, range := false), [LedSetCall(Red, true)], false, None)
    case Learn => Ignore(f)
  }

  /**
   * EVENT_TRACK_CONNECTION_CHANGE: NORMAL when exactly one transport is
   * connected, IDLE when none is, ERROR when both are.
   */
  function Track(usb: bool, bus: bool): (r: AppState)
    ensures r == Normal <==> usb != bus
    ensures r == Idle <==> !usb && !bus
    ensures r == Error <==> usb && bus
  {
    if usb != bus then Normal
    else if !(usb || bus) then Idle
    else if usb && bus then Error
    else assert false; Idle
  }

  /** The NORMAL state's MIDI handler: which process.c call a command reaches, if any. */
  function NormalCalls(midi: u32, mode: OperationMode, f: Filter): (r: seq<Call>)
    ensures |r| <= 1 && (r != [] ==> r == [ModeCall(mode, midi)])
  {
    if ChannelVoice(midi) then
      var channel := ChannelBit(midi);
      if AndFlag(channel, f.channelMask == channel) != 0 then
        if mode == MidiThru then [ThruCall(midi)]
        else if mode == Synth then
          if IsNote(midi) && NoteInRange(midi, f) then [SynthCall(midi)] else []
        else if IsNote(midi) && NoteInRange(midi, f) then [TriggerCall(midi)] else []
      else []
    else if mode == MidiThru then [ThruCall(midi)]
    else []
  }

  /**
   * In NORMAL a channel command is forwarded only on MIDI channel 0 and
   * only when the mask is exactly 1; in SYNTH and TRIGGER mode it must also
   * be an in-range note. Other commands are forwarded in THRU mode only.
   */
  lemma NormalForwarding(midi: u32, mode: OperationMode, f: Filter)
    ensures NormalCalls(midi, mode, f) != [] <==>
      if ChannelVoice(midi) then
        Channel(midi) == 0 && f.channelMask == 1 && (mode != MidiThru ==> IsNote(midi) && NoteInRange(midi, f))
      else mode == MidiThru
  {
    AndFlagChannel(midi, f.channelMask == ChannelBit(midi));
  }

  /** With the filter's initial values NORMAL forwards no channel command at all. */
  lemma InitialFilterBlocksChannels(midi: u32, mode: OperationMode)
    ensures ChannelVoice(midi) ==> NormalCalls(midi, mode, InitialFilter) == []
  {
    NormalForwarding(midi, mode, InitialFilter);
  }

  /** The NORMAL state's MIDI handler as a reaction. */
  function NormalMidi(midi: u32, mode: OperationMode, f: Filter): (r: Reaction)
    ensures r.filter == f && !r.store && r.next == None && |r.calls| <= 1
  {
    Reaction(f, NormalCalls(midi, mode, f), false, None)
  }

  /**
   * The LEARN_CLEAR state's MIDI handler: in THRU mode a channel command
   * learns its channel; otherwise a note learns its channel and note. Either
   * is forwarded and switches to LEARN.
   */
  function LearnClearMidi(midi: u32, mode: OperationMode, f: Filter): (r: Reaction)
    ensures !r.store && (r.next == None || r.next == Some(Learn))
  {
    if mode == MidiThru && ChannelVoice(midi) then
      Reaction(f.(range := false, channelMask := ChannelBit(midi)), [ThruCall(midi)], false, Some(Learn))
    else if IsNote(midi) then
      var note := Data0(midi);
      var g := f.(range := false, noteMin := note, noteMax := note, channelMask := ChannelBit(midi));
      var calls := if mode == Synth then [SynthCall(midi)] else if mode == Trigger then [TriggerCall(midi)] else [];
      Reaction(g, calls, false, Some(Learn))
    else
      Ignore(f)
  }

  /** The first qualifying command is learned and forwarded; anything else is ignored. */
  lemma LearnClearLearns(midi: u32, mode: OperationMode, f: Filter)
    ensures var r := LearnClearMidi(midi, mode, f);
      (r.next == Some(Learn) <==> (mode == MidiThru && ChannelVoice(midi)) || IsNote(midi)) &&
      (r.next == Some(Learn) ==> r.filter.channelMask == Pow2(Channel(midi)) && !r.filter.range && r.calls == [ModeCall(mode, midi)]) &&
      (r.next == Some(Learn) && mode != MidiThru ==> r.filter.noteMin == r.filter.noteMax == Data0(midi)) &&
      (r.next == None ==> r == Ignore(f))
  {
    if mode == MidiThru && !ChannelVoice(midi) {
      assert !IsNote(midi);
    }
  }

  /** Adding a channel bit to a 16-bit mask keeps it a 16-bit mask. */
  lemma MaskWiden(mask: u16, channel: u16)
    ensures BitOr(mask, channel) < 0x1_0000
  {
    Pow2Widths();
    BitOrBelow(mask, channel, 16);
  }

  /**
   * The LEARN state's MIDI handler. In THRU mode a channel command widens
   * the mask when `channel & (channelMask == 0)` holds and is forwarded;
   * otherwise a note of channel 0 under a mask of exactly 1 that lies
   * outside the range widens the range. Notes are forwarded in SYNTH and
   * TRIGGER mode.
   */
  function LearnMidi(midi: u32, mode: OperationMode, f: Filter): (r: Reaction)
    ensures !r.store && r.next == None
  {
    if mode == MidiThru && ChannelVoice(midi) then
      var channel := ChannelBit(midi);
      if AndFlag(channel, f.channelMask == 0) != 0 then
        MaskWiden(f.channelMask, channel);
        Reaction(f.(channelMask := BitOr(f.channelMask, channel), range := true),
                 [LedSetCall(Purple, true), ThruCall(midi)], false, None)
      else
        Reaction(f, [ThruCall(midi)], false, None)
    else if IsNote(midi) then
      var channel := ChannelBit(midi);
      var note := Data0(midi);
      var widen := AndFlag(channel, f.channelMask == channel) != 0 && (note < f.noteMin || note > f.noteMax);
      var g := if widen then f.(noteMin := Min(f.noteMin, note), noteMax := Max(f.noteMax, note), range := true) else f;
      var led := if widen then [LedSetCall(Purple, true)] else [];
      var calls := if mode == Synth then [SynthCall(midi)] else if mode == Trigger then [TriggerCall(midi)] else [];
      Reaction(g, led + calls, false, None)
    else
      Ignore(f)
  }

  /**
   * In LEARN with a non-zero mask the channel mask never changes, since the
   * parsed guard of the widening needs a zero mask; noteMin never rises and
   * noteMax never falls.
   */
  lemma LearnMonotone(midi: u32, mode: OperationMode, f: Filter)
    requires f.channelMask != 0
    ensures var g := LearnMidi(midi, mode, f).filter;
      g.channelMask == f.channelMask && g.noteMin <= f.noteMin && g.noteMax >= f.noteMax &&
      (f.noteMin <= f.noteMax ==> g.noteMin <= g.noteMax)
  {
    AndFlagChannel(midi, false);
  }

  /**
   * The boot button in each state: NORMAL goes to LEARN_CLEAR; LEARN_CLEAR
   * stores the filter and goes to NORMAL; LEARN first widens a single-note
   * range to 0..255 in SYNTH mode, then does the same; IDLE and ERROR
   * ignore it.
   */
  function BootDownReaction(st: AppState, mode: OperationMode, f: Filter): (r: Reaction)
    ensures r.calls == [] && (r.store <==> st == LearnClear || st == Learn)
    ensures r.next == None <==> !(st == Normal || st == LearnClear || st == Learn)
  {
    match st
    case Normal => Reaction(f, [], false, Some(LearnClear))
    case LearnClear => Reaction(f, [], true, Some(Normal))
    case Learn =>
      var g := if mode == Synth && f.noteMin == f.noteMax then f.(noteMin := 0, noteMax := 255) else f;
      Reaction(g, [], true, Some(Normal))
    case _ => Ignore(f)
  }

  /**
   * One event in one state, dispatched on its type byte as the state's
   * switch does. An event whose type byte is that of the ENTER case runs
   * the ENTER case again; a type with no case is consumed with no effect.
   */
  function React(st: AppState, e: u32, usb: bool, bus: bool, mode: OperationMode, f: Filter): (r: Reaction)
    requires st != Startup
    ensures r.next != Some(Startup)
  {
    var t := EventType(e);
    var midi := EventValue(e);
    if t == EventMask then EnterReaction(st, f)
    else if t == EventConnectionChange then Reaction(f, [], false, Some(Track(usb, bus)))
    else if t == EventMidi then
      match st
      case Normal => NormalMidi(midi, mode, f)
      case LearnClear => LearnClearMidi(midi, mode, f)
      case Learn => LearnMidi(midi, mode, f)
      case _ => Ignore(f)
    else if t == EventBootDown then BootDownReaction(st, mode, f)
    else Ignore(f)
  }

  /** `CONFIGURATION_SANITY_MARKER`, the first flash word of a stored configuration. */
  const ConfigMarker: u32 := 0xF00F_C7C8

  /** `channelMask << 16 | noteMax << 8 | noteMin`: the filter's three stored fields in one word. */
  function Pack(f: Filter): (w: u32)
    ensures HiWord(w) == f.channelMask && HiByte(w) == f.noteMax && LoByte(w) == f.noteMin
  {
    var low := f.noteMax * 0x100 + f.noteMin;
    var w := f.channelMask * 0x1_0000 + low;
    assert low / 0x100 == f.noteMax && low % 0x100 == f.noteMin;
    assert w / 0x1_0000 == f.channelMask && w % 0x1_0000 == low;
    assert w % 0x100 == low % 0x100 && (w / 0x100) % 0x100 == low / 0x100 by {
      var q := f.channelMask * 0x100;
      assert w == (q + f.noteMax) * 0x100 + f.noteMin;
      assert w / 0x100 == q + f.noteMax;
    }
    w
  }

  /** The packing is the OR of the three shifted fields, which do not overlap. */
  lemma PackIsOr(f: Filter)
    ensures Pack(f) == BitOr(BitOr(f.channelMask * 0x1_0000, f.noteMax * 0x100), f.noteMin)
  {
    Pow2Widths();
    BitOrDisjoint(f.noteMax * 0x100, f.channelMask, 16);
    var m := f.noteMax + f.channelMask * 0x100;
    assert m * 0x100 == f.noteMax * 0x100 + f.channelMask * 0x1_0000;
    BitOrDisjoint(f.noteMin, m, 8);
  }

  /** Whether the flash already holds the filter's three stored fields under the marker. */
  predicate Stored(flash: seq<u32>, f: Filter)
    requires |flash| == 2
  {
    flash[0] == ConfigMarker && f.channelMask == HiWord(flash[1]) &&
    f.noteMin == LoByte(flash[1]) && f.noteMax == HiByte(flash[1])
  }

  /** `config_store` as intended, on the two flash words: write marker and packed word unless already stored. */
  function StoreFlash(flash: seq<u32>, f: Filter): (r: seq<u32>)
    requires |flash| == 2
    ensures |r| == 2 && Stored(r, f)
  {
    if !Stored(flash, f) then [ConfigMarker, Pack(f)] else flash
  }

  /** A store writes exactly when the stored fields or the marker differ. */
  lemma StoreSkipsUnchanged(flash: seq<u32>, f: Filter)
    requires |flash| == 2
    ensures StoreFlash(flash, f) == flash <==> Stored(flash, f)
  {
  }

  /**
   * `config_load`: with the marker in place, take mask, noteMin and noteMax
   * from the second word; otherwise keep the filter. `range` is not stored.
   */
  function LoadFilter(flash: seq<u32>, f: Filter): (r: Filter)
    requires |flash| == 2
    ensures flash[0] != ConfigMarker ==> r == f
    ensures flash[0] == ConfigMarker ==> r.range == f.range && Stored(flash, r)
  {
    if flash[0] == ConfigMarker then
      f.(channelMask := HiWord(flash[1]), noteMin := LoByte(flash[1]), noteMax := HiByte(flash[1]))
    else
      f
  }

  /** Loading after a store brings back the three stored fields. */
  lemma LoadAfterStore(flash: seq<u32>, f: Filter, g: Filter)
    requires |flash| == 2
    ensures LoadFilter(StoreFlash(flash, f), g) == g.(channelMask := f.channelMask, noteMin := f.noteMin, noteMax := f.noteMax)
  {
  }

  /**
   * `config_store` as application.c writes it. HAL_FLASH_Program takes the
   * doubleword to program as a value, and the call passes the address of
   * `local_configuration` cast to 32 bits; the page then receives that
   * address in its first word and 0, the zero-extended upper half, in its
   * second. The address is a parameter here.
   */
  function StoreFlashAsWritten(flash: seq<u32>, f: Filter, address: u32): (r: seq<u32>)
    requires |flash| == 2
    ensures |r| == 2 && (Stored(flash, f) ==> r == flash)
    ensures address != ConfigMarker ==> (Stored(r, f) <==> Stored(flash, f))
  {
    if !Stored(flash, f) then [address, 0] else flash
  }

  /**
   * Loading after such a store keeps whatever filter is in RAM, and the
   * next store writes again: nothing learned survives a restart.
   */
  lemma StoreAsWrittenForgets(flash: seq<u32>, f: Filter, g: Filter, address: u32)
    requires |flash| == 2 && address != ConfigMarker && !Stored(flash, f)
    ensures var r := StoreFlashAsWritten(flash, f, address);
      LoadFilter(r, g) == g && StoreFlashAsWritten(r, f, address) == r && !Stored(r, f)
  {
  }

  /**
   * An erased page and a learned mask of channel 0 alone: stored from a
   * RAM address, the next boot loads the initial filter, not the mask.
   */
  lemma StoreAsWrittenExample()
    ensures var learned := InitialFilter.(channelMask := 1);
      var r := StoreFlashAsWritten([0xFFFF_FFFF, 0xFFFF_FFFF], learned, 0x2000_0000);
      r == [0x2000_0000, 0] && LoadFilter(r, InitialFilter) == InitialFilter &&
      LoadFilter(StoreFlash([0xFFFF_FFFF, 0xFFFF_FFFF], learned), InitialFilter) == learned
  {
    var learned := InitialFilter.(channelMask := 1);
    assert !Stored([0xFFFF_FFFF, 0xFFFF_FFFF], learned);
    LoadAfterStore([0xFFFF_FFFF, 0xFFFF_FFFF], learned, InitialFilter);
  }

  /** A loaded filter packs back to the stored word. */
  lemma StoredPacks(flash: seq<u32>, f: Filter)
    requires |flash| == 2 && Stored(flash, f)
    ensures Pack(f) == flash[1]
  {
    var w := flash[1];
    assert w == HiWord(w) * 0x1_0000 + HiByte(w) * 0x100 + LoByte(w) by {
      assert w == (w / 0x100) * 0x100 + w % 0x100;
      assert w / 0x100 == (w / 0x1_0000) * 0x100 + (w / 0x100) % 0x100;
    }
  }

  /** Everything the state machine keeps: state, mode, filter, the calls made so far, the flash words. */
  datatype Machine = Machine(state: AppState, mode: OperationMode, filter: Filter, calls: seq<Call>, flash: seq<u32>)

  /** SWITCHTO(t): go to t and run its ENTER case. */
  function EnterIn(m: Machine, t: AppState): (m': Machine)
    requires t != Startup
    ensures m'.state == t && m'.mode == m.mode && m'.flash == m.flash
  {
    var en := EnterReaction(t, m.filter);
    m.(state := t, filter := en.filter, calls := m.calls + en.calls)
  }

  /** The machine after a reaction: store first, then switch. */
  function Apply(m: Machine, r: Reaction): (m': Machine)
    requires |m.flash| == 2 && r.next != Some(Startup)
    ensures m'.mode == m.mode && |m'.flash| == 2 && m.calls <= m'.calls
    ensures r.next == None ==> m'.state == m.state && m'.filter == r.filter
    ensures !r.store ==> m'.flash == m.flash
  {
    var flash := if r.store then StoreFlash(m.flash, r.filter) else m.flash;
    var m1 := m.(filter := r.filter, calls := m.calls + r.calls, flash := flash);
    match r.next
    case None => m1
    case Some(t) => EnterIn(m1, t)
  }

  /** One dispatched event, with the connection flags as they are when it is handled. */
  function Next(m: Machine, e: u32, usb: bool, bus: bool): (m': Machine)
    requires |m.flash| == 2 && m.state != Startup
    ensures m'.state != Startup && m'.mode == m.mode && |m'.flash| == 2 && m.calls <= m'.calls
  {
    Apply(m, React(m.state, e, usb, bus, m.mode, m.filter))
  }

  /** The STARTUP state: decode the mode, load the filter, go to IDLE. */
  function Booted(m: Machine, readUp: bool, readDown: bool): (m': Machine)
    requires |m.flash| == 2
    ensures m'.state == Idle && m'.flash == m.flash && m.calls <= m'.calls
  {
    var m1 := m.(mode := ModeDecode(m.mode, readUp, readDown), filter := LoadFilter(m.flash, m.filter));
    EnterIn(m1, Idle)
  }

  /**
   * What holds between events: the flash has its two words, start-up is
   * over, LEARN_CLEAR still has its cleared filter, and LEARN has a
   * non-zero mask and an ordered note range.
   */
  ghost predicate Inv(m: Machine)
  {
    |m.flash| == 2 && m.state != Startup &&
    (m.state == LearnClear ==> m.filter == ClearedFilter) &&
    (m.state == Learn ==> m.filter.channelMask != 0 && m.filter.noteMin <= m.filter.noteMax)
  }

  /** Start-up establishes the invariant, in IDLE, with the red LED blinking slowly. */
  lemma BootedInv(m: Machine, readUp: bool, readDown: bool)
    requires |m.flash| == 2 && m.calls == []
    ensures var b := Booted(m, readUp, readDown);
      Inv(b) && b.state == Idle && b.calls == [LedBlinkCall(Red, false, false)] &&
      b.filter == LoadFilter(m.flash, m.filter) && b.flash == m.flash
  {
  }

  /** Every event keeps the invariant. */
  lemma NextInv(m: Machine, e: u32, usb: bool, bus: bool)
    requires Inv(m)
    ensures Inv(Next(m, e, usb, bus))
  {
    var midi := EventValue(e);
    if m.state == Learn && EventType(e) == EventMidi {
      LearnMonotone(midi, m.mode, m.filter);
    }
    if m.state == LearnClear && EventType(e) == EventMidi {
      LearnClearLearns(midi, m.mode, m.filter);
      assert Pow2(Channel(midi)) > 0;
    }
  }

  /** A connection change always switches, even to the current state, whose ENTER case then runs again. */
  lemma ConnectionChangeTracks(m: Machine, e: u32, usb: bool, bus: bool)
    requires Inv(m) && EventType(e) == EventConnectionChange
    ensures var n := Next(m, e, usb, bus);
      n == EnterIn(m, Track(usb, bus)) &&
      (m.state == Normal && usb != bus ==> n.calls == m.calls + [LedBlinkCall(Blue, true, true)])
  {
    assert m.calls + [] == m.calls;
  }

  /** The boot button's transitions; IDLE and ERROR ignore it. */
  lemma BootDownTransitions(m: Machine, e: u32, usb: bool, bus: bool)
    requires Inv(m) && EventType(e) == EventBootDown
    ensures var n := Next(m, e, usb, bus);
      (m.state == Normal ==> n.state == LearnClear && n.filter == ClearedFilter && n.flash == m.flash &&
                             n.calls == m.calls + [LedSetCall(Red, true)]) &&
      (m.state == LearnClear ==> n.state == Normal && n.flash == StoreFlash(m.flash, m.filter) &&
                                 n.calls == m.calls + [LedBlinkCall(Blue, true, true)]) &&
      (m.state == Learn ==> n.state == Normal &&
                            n.filter.channelMask == m.filter.channelMask &&
                            (m.mode == Synth && m.filter.noteMin == m.filter.noteMax ==>
                               n.filter.noteMin == 0 && n.filter.noteMax == 255) &&
                            n.flash == StoreFlash(m.flash, n.filter)) &&
      (m.state == Idle || m.state == Error ==> n == m)
  {
    assert m.calls + [] == m.calls;
  }

  /** Event types without a case in the current state are consumed with no effect. */
  lemma UnknownEventsIgnored(m: Machine, e: u32, usb: bool, bus: bool)
    requires Inv(m)
    requires var t := EventType(e);
      t != EventMask && t != EventConnectionChange && t != EventBootDown &&
      (t != EventMidi || m.state == Idle || m.state == Error)
    ensures Next(m, e, usb, bus) == m
  {
    assert m.calls + [] == m.calls;
  }

  /**
   * The globals of application.c and the state machine over them. The
   * two-word configuration page of flash is an array; the calls made are
   * recorded in `calls`.
   */
  class App {
    var state: AppState
    var mode: OperationMode
    var channelMask: u16
    var range: bool
    var noteMin: u8
    var noteMax: u8
    var calls: seq<Call>
    const flash: array<u32>
    const link: Connections

    /** The filter globals as one value. */
    function F(): Filter
      reads this
    {
      Filter(channelMask, range, noteMin, noteMax)
    }

    /** The whole state as a machine. */
    ghost function M(): Machine
      reads this, flash
    {
      Machine(state, mode, F(), calls, flash[..])
    }

    /** The globals' initial values, before STARTUP runs. */
    constructor (page: array<u32>, l: Connections)
      requires page.Length == 2
      ensures flash == page && link == l && state == Startup && mode == MidiThru
      ensures F() == InitialFilter && calls == []
    {
      flash, link := page, l;
      state, mode := Startup, MidiThru;
      channelMask, range, noteMin, noteMax := 0xffff, false, 0, 255;
      calls := [];
    }

    /** `application_init` with the two pin reads as inputs. */
    method ApplicationInit(readUp: bool, readDown: bool)
      modifies this
      ensures mode == ModeDecode(old(mode), readUp, readDown)
      ensures state == old(state) && F() == old(F()) && calls == old(calls)
    {
      if readUp && !readDown { mode := MidiThru; }
      if !readUp && !readDown { mode := Synth; }
      if readUp && readDown { mode := Trigger; }
    }

    /** `config_load`. */
    method ConfigLoad()
      requires flash.Length == 2
      modifies this
      ensures F() == LoadFilter(flash[..], old(F()))
      ensures state == old(state) && mode == old(mode) && calls == old(calls)
    {
      if flash[0] == ConfigMarker {
        var word := flash[1];
        channelMask := HiWord(word);
        noteMin := LoByte(word);
        noteMax := HiByte(word);
      }
    }

    /**
     * `config_store` as intended: the marker and the packed word reach the
     * page (StoreFlash). The page erase and programming are taken to
     * succeed; what the programming call as written stores is
     * StoreFlashAsWritten.
     */
    method ConfigStore()
      requires flash.Length == 2
      modifies flash
      ensures flash[..] == StoreFlash(old(flash[..]), F())
    {
      ghost var before := flash[..];
      if flash[0] != ConfigMarker || channelMask != HiWord(flash[1]) ||
         noteMin != LoByte(flash[1]) || noteMax != HiByte(flash[1]) {
        var word := channelMask * 0x1_0000 + noteMax * 0x100 + noteMin;
        flash[0] := ConfigMarker;
        flash[1] := word;
        assert flash[..] == [ConfigMarker, Pack(F())];
      } else {
        assert Stored(before, F());
      }
    }

    /** The ENTER case of the current state. */
    method EnterState()
      requires state != Startup && flash.Length == 2
      modifies this
      ensures M() == EnterIn(old(M()), old(state))
    {
      match state
      case Idle => calls := calls + [LedBlinkCall(Red, false, false)];
      case Error => calls := calls + [LedBlinkCall(Red, false, true)];
      case Normal => calls := calls + [LedBlinkCall(Blue, true, true)];
      case LearnClear =>
        noteMin, noteMax := 0, 255;
        channelMask := 0xff;
        range := false;
        calls := calls + [LedSetCall(Red, true)];
      case Learn =>
        assert calls + [] == calls;
    }

    /** SWITCHTO(t): jump to t's label, which runs its ENTER case. */
    method SwitchTo(t: AppState)
      requires t != Startup && flash.Length == 2
      modifies this
      ensures M() == EnterIn(old(M()), t)
    {
      state := t;
      EnterState();
    }

    /** The STARTUP state: `application_init`, `config_load`, then SWITCHTO(IDLE). */
    method Boot(readUp: bool, readDown: bool)
      requires state == Startup && flash.Length == 2
      modifies this
      ensures M() == Booted(old(M()), readUp, readDown)
    {
      ApplicationInit(readUp, readDown);
      ConfigLoad();
      SwitchTo(Idle);
    }

    /** EVENT_TRACK_CONNECTION_CHANGE. */
    method TrackConnection()
      requires state != Startup && flash.Length == 2
      modifies this
      ensures M() == Apply(old(M()), Reaction(old(F()), [], false, Some(Track(link.usb, link.bus))))
    {
      assert M() == M().(filter := F(), calls := calls + [], flash := flash[..]);
      if link.usb != link.bus {
        SwitchTo(Normal);
        return;
      }
      if !(link.usb || link.bus) {
        SwitchTo(Idle);
        return;
      }
      if link.usb && link.bus {
        SwitchTo(Error);
        return;
      }
    }

    /** The NORMAL state's MIDI case. */
    method NormalMidiCase(midi: u32)
      requires flash.Length == 2
      modifies this
      ensures M() == Apply(old(M()), NormalMidi(midi, mode, old(F())))
    {
      var command := Command(midi);
      if command >= CommandFirst && command <= CommandLast {
        var channel := ChannelBit(midi);
        if AndFlag(channel, channelMask == channel) != 0 {
          if mode == MidiThru {
            calls := calls + [ThruCall(midi)];
          } else if mode == Synth {
            if (command == NoteOn || command == NoteOff) && Data0(midi) >= noteMin && Data1(midi) <= noteMax {
              calls := calls + [SynthCall(midi)];
            }
          } else if mode == Trigger {
            if (command == NoteOn || command == NoteOff) && Data0(midi) >= noteMin && Data1(midi) <= noteMax {
              calls := calls + [TriggerCall(midi)];
            }
          }
        }
      } else if mode == MidiThru {
        calls := calls + [ThruCall(midi)];
      }
      assert old(calls) + NormalCalls(midi, mode, old(F())) == calls;
    }

    /** The LEARN_CLEAR state's MIDI case. */
    method LearnClearMidiCase(midi: u32)
      requires flash.Length == 2
      modifies this
      ensures M() == Apply(old(M()), LearnClearMidi(midi, mode, old(F())))
    {
      var command := Command(midi);
      if mode == MidiThru && command >= CommandFirst && command <= CommandLast {
        var channel := ChannelBit(midi);
        range := false;
        channelMask := channel;
        calls := calls + [ThruCall(midi)];
        SwitchTo(Learn);
      } else if command == NoteOn || command == NoteOff {
        var channel := ChannelBit(midi);
        var note := Data0(midi);
        range := false;
        noteMin := note;
        noteMax := note;
        channelMask := channel;
        if mode == Synth {
          calls := calls + [SynthCall(midi)];
        } else if mode == Trigger {
          calls := calls + [TriggerCall(midi)];
        }
        SwitchTo(Learn);
      } else {
        assert calls + [] == calls;
      }
    }

    /** The LEARN state's MIDI case. */
    method LearnMidiCase(midi: u32)
      requires flash.Length == 2
      modifies this
      ensures M() == Apply(old(M()), LearnMidi(midi, mode, old(F())))
    {
      var command := Command(midi);
      if mode == MidiThru && command >= CommandFirst && command <= CommandLast {
        LearnThruCase(midi);
      } else if command == NoteOn || command == NoteOff {
        LearnNoteCase(midi);
      } else {
        assert calls + [] == calls;
      }
    }

    /** The THRU branch of the LEARN state's MIDI case. */
    method LearnThruCase(midi: u32)
      requires flash.Length == 2 && mode == MidiThru && ChannelVoice(midi)
      modifies this
      ensures M() == Apply(old(M()), LearnMidi(midi, mode, old(F())))
    {
      var channel := ChannelBit(midi);
      ghost var c0 := calls;
      if AndFlag(channel, channelMask == 0) != 0 {
        MaskWiden(channelMask, channel);
        channelMask := BitOr(channelMask, channel);
        range := true;
        calls := calls + [LedSetCall(Purple, true)];
        calls := calls + [ThruCall(midi)];
        assert calls == c0 + [LedSetCall(Purple, true), ThruCall(midi)];
      } else {
        calls := calls + [ThruCall(midi)];
      }
    }

    /** The note branch of the LEARN state's MIDI case. */
    method LearnNoteCase(midi: u32)
      requires flash.Length == 2 && IsNote(midi) && !(mode == MidiThru && ChannelVoice(midi))
      modifies this
      ensures M() == Apply(old(M()), LearnMidi(midi, mode, old(F())))
    {
      var channel := ChannelBit(midi);
      var note := Data0(midi);
      ghost var c0 := calls;
      if AndFlag(channel, channelMask == channel) != 0 && (note < noteMin || note > noteMax) {
        noteMin := Min(noteMin, note);
        noteMax := Max(noteMax, note);
        range := true;
        calls := calls + [LedSetCall(Purple, true)];
      }
      ghost var c1 := calls;
      if mode == Synth {
        calls := calls + [SynthCall(midi)];
      } else if mode == Trigger {
        calls := calls + [TriggerCall(midi)];
      }
      assert calls == c0 + (c1[|c0|..] + calls[|c1|..]);
    }

    /** The boot-button case of each state. */
    method BootDownCase()
      requires state != Startup && flash.Length == 2
      modifies this, flash
      ensures M() == Apply(old(M()), BootDownReaction(old(state), mode, old(F())))
    {
      assert M() == M().(filter := F(), calls := calls + [], flash := flash[..]);
      match state
      case Normal =>
        SwitchTo(LearnClear);
      case LearnClear =>
        ConfigStore();
        SwitchTo(Normal);
      case Learn =>
        if mode == Synth && noteMin == noteMax {
          noteMin := 0;
          noteMax := 255;
        }
        ConfigStore();
        SwitchTo(Normal);
      case _ =>
    }

    /** One popped event: the current state's switch on its type byte. */
    method Dispatch(e: u32)
      requires state != Startup && flash.Length == 2
      modifies this, flash
      ensures M() == Next(old(M()), e, link.usb, link.bus)
    {
      var midi := EventValue(e);
      var t := EventType(e);
      if t == EventMask {
        EnterState();
        assert M() == Apply(old(M()), EnterReaction(old(state), old(F())));
      } else if t == EventConnectionChange {
        TrackConnection();
      } else if t == EventMidi && state == Normal {
        NormalMidiCase(midi);
      } else if t == EventMidi && state == LearnClear {
        LearnClearMidiCase(midi);
      } else if t == EventMidi && state == Learn {
        LearnMidiCase(midi);
      } else if t == EventBootDown {
        BootDownCase();
      } else {
        assert M() == M().(filter := F(), calls := calls + [], flash := flash[..]);
      }
    }

    /**
     * One turn of the wait loop at the end of a state: pop an event, and
     * handle it unless the queue was empty.
     */
    method Step()
      requires state != Startup && flash.Length == 2 && link.queue.Valid()
      modifies this, flash, link.queue
      ensures link.queue.Bounded()
      ensures EventNone !in old(link.queue.Pending()) ==> link.queue.Valid()
      ensures link.queue.Valid() ==>
                link.queue.Pending() == if old(link.queue.Pending()) == [] then [] else old(link.queue.Pending())[1..]
      ensures old(link.queue.Pending()) == [] || old(link.queue.Pending())[0] == EventNone ==> M() == old(M())
      ensures old(link.queue.Pending()) != [] && old(link.queue.Pending())[0] != EventNone ==>
                M() == Next(old(M()), old(link.queue.Pending())[0], link.usb, link.bus)
    {
      var e := link.queue.Pop();
      if e != EventNone {
        Dispatch(e);
      }
    }
  }
}
