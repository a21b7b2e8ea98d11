/**
 * The MIDI status-byte constants and the data-byte length table of the
 * stream assembler. The table is compared with an independent statement of
 * the status-byte summary of the MIDI 1.0 Detailed Specification: channel
 * voice messages by their high nibble, then the system common messages.
 */
module MidiTable {
  import opened Defines

  // Channel voice commands (high nibble; the low nibble is the channel).
  const NoteOff: u8 := 0x80
  const NoteOn: u8 := 0x90
  const KeyAftertouch: u8 := 0xA0
  const ControlChange: u8 := 0xB0
  const ProgramChange: u8 := 0xC0
  const ChannelAftertouch: u8 := 0xD0
  const PitchBend: u8 := 0xE0
  const CommandFirst: u8 := 0x80
  const CommandLast: u8 := 0xE0

  // System common messages.
  const SysexStart: u8 := 0xF0
  const SysexEnd: u8 := 0xF7
  const MtcQuarterFrame: u8 := 0xF1
  const SongPosition: u8 := 0xF2
  const SongSelect: u8 := 0xF3
  const ReservedF4: u8 := 0xF4
  const ReservedF5: u8 := 0xF5
  const TuneRequest: u8 := 0xF6

  // System real-time messages.
  const TimingClock: u8 := 0xF8
  const ReservedF9: u8 := 0xF9
  const Start: u8 := 0xFA
  const Continue: u8 := 0xFB
  const Stop: u8 := 0xFC
  const ReservedFD: u8 := 0xFD
  const ActiveSense: u8 := 0xFE
  const SystemReset: u8 := 0xFF

  /**
   * `midi_length_lut`: the designated initializers of the table, one range
   * per line; every entry not named is 0.
   */
  function LengthLut(b: u8): (r: u8)
    ensures r <= 2 && (b < 0x80 ==> r == 0)
  {
    if NoteOff <= b <= NoteOff + 0xF then 2
    else if NoteOn <= b <= NoteOn + 0xF then 2
    else if KeyAftertouch <= b <= KeyAftertouch + 0xF then 2
    else if ControlChange <= b <= ControlChange + 0xF then 2
    else if ProgramChange <= b <= ProgramChange + 0xF then 1
    else if ChannelAftertouch <= b <= ChannelAftertouch + 0xF then 1
    else if PitchBend <= b <= PitchBend + 0xF then 2
    else if b == MtcQuarterFrame then 1
    else if b == SongPosition then 2
    else if b == SongSelect then 1
    else 0
  }

  /** A data byte: the top bit is clear. */
  predicate IsData(b: u8)
  {
    b < 0x80
  }

  /** A channel voice status byte: 0x80 to 0xEF. */
  predicate IsChannelVoice(b: u8)
  {
    0x80 <= b < 0xF0
  }

  /**
   * The number of data bytes after a status byte, from the MIDI 1.0 status
   * summary: Program Change and Channel Pressure carry one, the other five
   * channel messages two; MTC quarter frame and Song Select one, Song
   * Position two; SysEx, tune request, the undefined codes and the
   * real-time messages none.
   */
  function MidiDataBytes(b: u8): (n: nat)
  {
    if IsData(b) then 0
    else if IsChannelVoice(b) then
      var kind := b / 16;
      if kind == 0xC || kind == 0xD then 1 else 2
    else
      match b - 0xF0
      case 1 => 1
      case 2 => 2
      case 3 => 1
      case _ => 0
  }

  /** The table agrees with the MIDI 1.0 status summary at every byte. */
  lemma LutIsMidiSpec(b: u8)
    ensures LengthLut(b) == MidiDataBytes(b)
  {
  }

  /** No status byte carries more than two data bytes. */
  lemma LutAtMostTwo(b: u8)
    ensures LengthLut(b) <= 2
  {
  }

  /** Data bytes, SysEx start and end, F4 to F6 and the real-time bytes have length 0. */
  lemma LutZero(b: u8)
    ensures LengthLut(b) == 0 <==> (IsData(b) || b == SysexStart || 0xF4 <= b)
  {
  }

  /** For channel voice status bytes the channel nibble does not matter. */
  lemma LutIgnoresChannel(b: u8)
    requires IsChannelVoice(b)
    ensures LengthLut(b) == LengthLut(b / 16 * 16)
  {
  }

  /** The channel voice lengths, command by command. */
  lemma LutChannelVoice(b: u8)
    requires IsChannelVoice(b)
    ensures LengthLut(b) == 1 <==> (ProgramChange <= b < PitchBend)
    ensures LengthLut(b) == 2 <==> (b < ProgramChange || PitchBend <= b)
  {
  }
}
