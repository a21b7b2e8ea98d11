/**
 * Output processing of the MIDI interface: a count of held notes, the
 * synth gate (high while a note is held), the retriggered trigger pulse
 * and the re-serialisation of a command to the UART for MIDI thru. The
 * count and the `normal` flag are globals defined outside process.c and
 * the operation mode one of application.c; they are fields of Processor
 * here.
 */
module Process {
  import opened Defines
  import opened AppTask
  import opened AppEvents
  import opened MidiTable
  import opened RingBuffers
  import opened Io
  import opened Application
  import Midi

  /** `keyDowns` after a command: an 8-bit count up on Note On, down to 0 on Note Off. */
  function KeyDownsAfter(k: u8, midi: u32): (r: u8)
    ensures Command(midi) == NoteOn ==> r == (k + 1) % 0x100
    ensures Command(midi) == NoteOff ==> r == Max(k - 1, 0)
    ensures Command(midi) != NoteOn && Command(midi) != NoteOff ==> r == k
  {
    if Command(midi) == NoteOn then
      (k + 1) % 0x100
    else if Command(midi) == NoteOff then
      if k > 0 then k - 1 else k
    else
      k
  }

  /** The count after a run of commands. */
  function KeyDownsRun(k: u8, ms: seq<u32>): (r: u8)
    ensures (forall m <- ms :: Command(m) != NoteOn && Command(m) != NoteOff) ==> r == k
  {
    if ms == [] then k
    else
      assert forall m <- ms[..|ms| - 1] :: m in ms;
      KeyDownsAfter(KeyDownsRun(k, ms[..|ms| - 1]), ms[|ms| - 1])
  }

  /** The count is modulo 256: 256 Note Ons bring it back to where it was. */
  lemma {:induction false} NoteOnsWrap(k: u8, ms: seq<u32>)
    requires forall i :: 0 <= i < |ms| ==> Command(ms[i]) == NoteOn
    ensures KeyDownsRun(k, ms) == (k + |ms|) % 0x100
  {
    if ms != [] {
      var init := ms[..|ms| - 1];
      NoteOnsWrap(k, init);
      assert Command(ms[|ms| - 1]) == NoteOn;
      WrapSucc(k + |init|);
    }
  }

  /** Counting one more modulo 256 is counting modulo 256 one more. */
  lemma WrapSucc(a: nat)
    ensures (a % 0x100 + 1) % 0x100 == (a + 1) % 0x100
  {
    var q := a / 0x100;
    assert a == 0x100 * q + a % 0x100;
    if a % 0x100 == 0xff {
      assert a + 1 == 0x100 * (q + 1);
    } else {
      assert a + 1 == 0x100 * q + (a % 0x100 + 1);
    }
  }

  /** Note Offs never take the count below 0; enough of them bring it to 0 and keep it there. */
  lemma {:induction false} NoteOffsFloor(k: u8, ms: seq<u32>)
    requires forall i :: 0 <= i < |ms| ==> Command(ms[i]) == NoteOff
    ensures KeyDownsRun(k, ms) == Max(k - |ms|, 0)
  {
    if ms != [] {
      NoteOffsFloor(k, ms[..|ms| - 1]);
    }
  }

  /**
   * The bytes MIDI thru sends for a command: the status byte and as many
   * data bytes as the length table gives it, in stream order.
   */
  function ThruBytes(midi: u32): (r: seq<u8>)
    ensures |r| == LengthLut(Status(midi)) as int + 1 && r[0] == Status(midi)
    ensures |r| > 1 ==> r[1] == Data0(midi)
    ensures |r| > 2 ==> r[2] == Data1(midi)
  {
    LutAtMostTwo(Status(midi));
    [Status(midi), Data0(midi), Data1(midi)][..LengthLut(Status(midi)) + 1]
  }

  /**
   * MIDI thru re-emits a command as it arrived: the status byte followed
   * by exactly its data bytes, packed as the stream assembler packs them,
   * comes out as the same bytes.
   */
  lemma ThruRoundTrip(s: u8, d: seq<u8>)
    requires |d| == LengthLut(s)
    ensures ThruBytes(Packed(s, Midi.DataAt(d, 0), Midi.DataAt(d, 1))) == [s] + d
  {
    LutAtMostTwo(s);
    var v := Packed(s, Midi.DataAt(d, 0), Midi.DataAt(d, 1));
    UnpackPacked(s, Midi.DataAt(d, 0), Midi.DataAt(d, 1));
    var r := ThruBytes(v);
    assert |r| == |[s] + d|;
    forall i | 0 <= i < |r|
      ensures r[i] == ([s] + d)[i]
    {
    }
  }

  /**
   * Outside SysEx, every command the stream assembler posts goes out of
   * MIDI thru as exactly the bytes that produced it.
   */
  lemma ThruEchoesAssembled(p: Midi.Parser, s: u8, d: seq<u8>)
    requires Midi.Sound(p) && p.state == Midi.Reset && !IsData(s) && s != SysexStart
    requires |d| == LengthLut(s) && forall b <- d :: IsData(b)
    ensures var es := Midi.Assemble(p, [s] + d).1;
      |es| == 1 && EventType(es[0]) == EventMidi && ThruBytes(EventValue(es[0])) == [s] + d
  {
    Midi.CommandAssembled(p, s, d);
    ThruRoundTrip(s, d);
  }

  /**
   * The globals process.c works on: the held-note count, whether LED
   * feedback is on, the operation mode, the LEDs and output of io.c and
   * the UART transmit buffer.
   */
  class Processor {
    var keyDowns: u8
    var normal: bool
    var mode: OperationMode
    const io: Io
    const uartTx: RingBuffer

    ghost predicate Valid()
      reads this, uartTx
    {
      uartTx.Valid()
    }

    constructor (i: Io, tx: RingBuffer, m: OperationMode, n: bool)
      requires tx.Valid()
      ensures Valid() && io == i && uartTx == tx && mode == m && normal == n && keyDowns == 0
    {
      io, uartTx, mode, normal := i, tx, m, n;
      keyDowns := 0;
    }

    /** `process_synth_noteoff`: forget every held note; in SYNTH mode drop the gate. */
    method SynthNoteOff()
      modifies this, io
      ensures keyDowns == 0 && normal == old(normal) && mode == old(mode)
      ensures mode == Synth ==> io.high == WritePin(old(io.high), {OutPin}, false) && !io.Gate()
      ensures mode != Synth ==> io.high == old(io.high)
      ensures io.led == old(io.led) && io.gpio == old(io.gpio) && io.Blinker() == old(io.Blinker())
      ensures io.tim1 == old(io.tim1) && io.tim3 == old(io.tim3)
      ensures io.Debounce() == old(io.Debounce()) && io.tim2 == old(io.tim2)
    {
      keyDowns := 0;
      if mode == Synth {
        io.GpioSet(Out, false);
      }
    }

    /**
     * The LED feedback of `process_midi` for `midi`, with `keyDowns` the
     * count after it. With feedback on, a Note On lights blue and blinks
     * red once, and a Note Off that releases the last note turns blue off;
     * otherwise the LED pins, the blink and timer 1 keep their state.
     * `normal`, `mode`, the debouncer and timer 2 never change. The output
     * pin is not part of it.
     */
    twostate predicate Feedback(midi: u32)
      reads this, io
    {
      && (normal && Command(midi) == NoteOn ==>
            && io.Blinker() == BlinkStart(true, true) && io.tim1 && io.led == LedPins(Red)
            && io.high - {OutPin} == WritePin(WritePin(old(io.high), LedPins(Blue), true), LedPins(Red), true) - {OutPin})
      && (normal && Command(midi) == NoteOff && keyDowns == 0 ==>
            && io.high - {OutPin} == WritePin(old(io.high), LedPins(Blue), false) - {OutPin}
            && io.led == old(io.led) && io.Blinker() == old(io.Blinker()) && io.tim1 == old(io.tim1))
      && (!normal || (Command(midi) != NoteOn && !(Command(midi) == NoteOff && keyDowns == 0)) ==>
            && io.high - {OutPin} == old(io.high) - {OutPin}
            && io.led == old(io.led) && io.Blinker() == old(io.Blinker()) && io.tim1 == old(io.tim1))
      && normal == old(normal) && mode == old(mode)
      && io.Debounce() == old(io.Debounce()) && io.tim2 == old(io.tim2)
    }

    /**
     * `process_midi`: count Note On and Note Off, with the LED feedback
     * above; the output pin and its pulse are left alone.
     */
    method ProcessMidi(midi: u32)
      modifies this, io
      ensures keyDowns == KeyDownsAfter(old(keyDowns), midi) && Feedback(midi)
      ensures io.gpio == old(io.gpio) && io.tim3 == old(io.tim3) && (io.Gate() <==> old(io.Gate()))
    {
      if Command(midi) == NoteOn {
        keyDowns := (keyDowns + 1) % 0x100;
        if normal {
          io.LedSet(Blue, true);
          io.LedBlink(Red, true, true);
        }
      } else if Command(midi) == NoteOff {
        if keyDowns > 0 {
          keyDowns := keyDowns - 1;
        }
        if keyDowns == 0 && normal {
          io.LedSet(Blue, false);
        }
      }
    }

    /**
     * `process_midi_thru`: count the command, then write its status byte
     * and data bytes to the UART (as many as fit) and start sending.
     */
    method ProcessMidiThru(midi: u32)
      requires Valid()
      modifies this, io, uartTx, uartTx.buffer
      ensures Valid() && keyDowns == KeyDownsAfter(old(keyDowns), midi) && Feedback(midi)
      ensures var b := ThruBytes(midi); var w := Min(|b|, old(uartTx.ToWrite()));
        uartTx.Contents() == old(uartTx.Contents()) + b[..w]
      ensures io.gpio == old(io.gpio) && io.tim3 == old(io.tim3) && (io.Gate() <==> old(io.Gate()))
    {
      ProcessMidi(midi);
      var status := ToByte(Status(midi));
      var commandLen := LengthLut(status);
      LutAtMostTwo(status);
      if commandLen > 2 {
        assert false;
        return;
      }
      var command := [status, ToByte(Data0(midi)), ToByte(Data1(midi))][..commandLen + 1];
      assert command == ThruBytes(midi);
      var _ := uartTx.Write(Some(command), commandLen as u16 + 1);
    }

    /** `process_synth`: count the command; the gate is high exactly while a note is held. */
    method ProcessSynth(midi: u32)
      modifies this, io
      ensures keyDowns == KeyDownsAfter(old(keyDowns), midi) && Feedback(midi)
      ensures io.Gate() <==> keyDowns > 0
      ensures io.gpio == old(io.gpio) && io.tim3 == old(io.tim3)
    {
      ProcessMidi(midi);
      if keyDowns > 0 {
        io.GpioSet(Out, true);
      } else {
        io.GpioSet(Out, false);
      }
    }

    /**
     * `process_trigger`: count the command; a Note On restarts the output
     * pulse (drops the output, then raises it and restarts its timer).
     */
    method ProcessTrigger(midi: u32)
      modifies this, io
      ensures keyDowns == KeyDownsAfter(old(keyDowns), midi) && Feedback(midi)
      ensures Command(midi) == NoteOn ==> io.Gate() && io.tim3 && io.gpio == {OutPin}
      ensures Command(midi) != NoteOn ==>
                (io.Gate() <==> old(io.Gate())) && io.tim3 == old(io.tim3) && io.gpio == old(io.gpio)
    {
      ProcessMidi(midi);
      var command := ToByte(Command(midi));
      if command == NoteOn {
        io.GpioSet(Out, false);
        io.GpioBlink(Out);
      }
    }
  }
}
