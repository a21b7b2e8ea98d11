/**
 * The application's custom event types and the accessors for a MIDI event
 * payload: status byte in bits 0-7, first data byte in bits 8-15, second
 * data byte in bits 16-23.
 */
module AppEvents {
  import opened Defines

  const EventBootUp: u32 := 0x0100_0000
  const EventBootDown: u32 := 0x0200_0000
  /** A transport was connected or disconnected. */
  const EventConnectionChange: u32 := 0x0300_0000
  /** A complete MIDI command was received; the payload is the packed command. */
  const EventMidi: u32 := 0x0400_0000

  /**
   * `MIDI_STATUS`, the low byte of the event value; with the two data
   * bytes it makes up the 24-bit payload.
   */
  function Status(v: u32): (r: u8)
    ensures v % 0x100_0000 == Packed(r, Data0(v), Data1(v))
  {
    LoByte(v)
  }

  /** `MIDI_DATA0`, the second byte; with DATA1 above it, the payload above the status byte. */
  function Data0(v: u32): (r: u8)
    ensures v % 0x100_0000 / 0x100 == r + Data1(v) * 0x100
  {
    HiByte(v)
  }

  /** `MIDI_DATA1`, the low byte of the high word: the top byte of the 24-bit payload. */
  function Data1(v: u32): (r: u8)
    ensures r == v % 0x100_0000 / 0x1_0000
  {
    LoByte(HiWord(v))
  }

  /** `MIDI_CHANNEL`: the low nibble of the status byte. */
  function Channel(v: u32): (r: nat)
    ensures r < 16
  {
    v % 0x10
  }

  /** `MIDI_COMMAND`: the high nibble of the status byte, in place. */
  function Command(v: u32): (r: u8)
    ensures r % 16 == 0 && r <= Status(v) < r + 16
  {
    Status(v) / 0x10 * 0x10
  }

  /** A command packed the way the stream assembler packs it. */
  function Packed(status: u8, data0: u8, data1: u8): (v: nat)
    ensures v < 0x100_0000
  {
    status + data0 * 0x100 + data1 * 0x1_0000
  }

  /** The accessors take a packed command apart again. */
  lemma UnpackPacked(status: u8, data0: u8, data1: u8)
    ensures var v := Packed(status, data0, data1);
      Status(v) == status && Data0(v) == data0 && Data1(v) == data1
  {
    var v := Packed(status, data0, data1);
    assert v / 0x100 == data0 + data1 * 0x100;
    assert v / 0x1_0000 == data1;
  }

  /** Every payload below 2^24 is the packing of its three bytes. */
  lemma PackedUnpack(v: u32)
    requires v < 0x100_0000
    ensures Packed(Status(v), Data0(v), Data1(v)) == v
  {
  }
}
