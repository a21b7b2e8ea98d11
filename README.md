# f1042 MIDI interface firmware, modelled in Dafny

This project models the core of the ProtoPlasm f1042 MIDI interface
firmware and proves properties of that model. The firmware is a small
STM32 device that routes MIDI between USB, an I2C bus link and a UART
output. It also has a synth gate and a trigger output, and a learnable
channel and note filter.

The model covers:

- the byte ring buffers that connect interrupt handlers to the main loop
  (`ringbuffer.c`);
- the 16-slot application event queue (`app_task.c`);
- the MIDI stream assembler and its length table (`midi.c`, `midi.h`);
- the output processing of held notes, gate, trigger pulse and MIDI thru
  (`process.c`);
- the application state machine built from the `app_task_meta.h` macros,
  with its mode decode, connection arbitration and learnable filter, and
  the flash configuration (`application.c`);
- the USB descriptor walker (`descriptor.c`);
- the tick-driven LED blinker, button debouncer and output pulse (`io.c`);
- `div64` and `memcpy_volatile` (`util.h`, `util.c`).

Every interrupt handler is an atomic method call. Code that changes state
in place becomes a class whose methods are proved against pure
specification functions. GPIO, LED and timer effects become abstract
fields (`Io`) or a recorded sequence of calls (`App.calls`). C integer
widths are subset types (`u8` to `u64`), and bit operations are written
arithmetically where the fields they combine are disjoint. Lemmas such as
`MidiEventIsOr`, `PackIsOr` and `LeWord` tie that arithmetic back to a
bit-by-bit OR.

The modules are:

- `Defines`: integer types and the defines.h helpers;
- `Circular`: wrap-around index arithmetic on sequences;
- `RingBuffers`, `AppTask`, `AppEvents`, `MidiTable`, `Midi`, `Process`,
  `Application`, `Descriptor`, `Io` and `Util`.

## Notes on the code as written

Apart from the defects listed under Findings, the model follows the code
as written, including these details:

- a boot-button press in NORMAL always goes to LEARN_CLEAR, whose ENTER
  case resets the filter;
- `channel & channelMask == channel` (application.c lines 88 and 198) and
  `channel & channelMask == 0` (line 186) are modelled as C parses them:
  `channel & (channelMask == …)`;
- the SYNTH and TRIGGER range tests compare DATA1 (the velocity) with
  `noteMax`;
- real-time bytes inside SysEx are dropped.

## Model

| member | source | states |
|---|---|---|
| Defines.Min | Protoplasm/global/defines.h:451-455 | min(x, y) is one of its arguments and at most both |
| Defines.Max | Protoplasm/global/defines.h:413-417 | max(x, y) is one of its arguments and at least both |
| Defines.ToByte | Protoplasm/global/defines.h:293 | tobyte is the low byte: the value less its multiples of 256; a value below 256 is kept |
| Defines.LoByte | Protoplasm/global/defines.h:320 | lobyte is the low byte of a word |
| Defines.HiByte | Protoplasm/global/defines.h:329 | hibyte is the second byte of a word |
| Defines.HiWord | Protoplasm/global/defines.h:347 | hiword is the upper half, which with hibyte and lobyte makes up the whole word |
| Circular.Wrap | Protoplasm/lowlevel/ringbuffer.c:36 | a position up to twice the size wraps to a slot index below size, either unchanged or less one size |
| Circular.WrapDistinct | Protoplasm/lowlevel/ringbuffer.c:75-83 | logical positions fewer than size apart land in different slots, so a copy never overwrites what it has just stored |
| Circular.Count | Protoplasm/lowlevel/ringbuffer.c:114-119 | toread is below size, and advancing readpos by it reaches writepos |
| Circular.WrapStop | Protoplasm/lowlevel/ringbuffer.c:75-76 | write's loop guard (i equals the slot before readpos) holds exactly when the buffer has become full |
| Circular.CountWrap | Protoplasm/lowlevel/ringbuffer.c:114-119 | toread after advancing writepos by m from readpos is m |
| Circular.Span | Protoplasm/lowlevel/ringbuffer.c:30-37 | the k bytes from a slot on, wrapping at the end, are k bytes |
| Circular.SpanAt | Protoplasm/lowlevel/ringbuffer.c:30-37 | element j of that run is the slot j positions on |
| Circular.SpanAdvance | Protoplasm/lowlevel/ringbuffer.c:58 | advancing the read position by k drops exactly the k oldest unread bytes |
| Circular.SpanStore | Protoplasm/lowlevel/ringbuffer.c:75-83 | storing at the slot after the unread bytes appends that byte to them |
| RingBuffers.Placed | Protoplasm/lowlevel/ringbuffer.c:75-83 | storing a run of bytes from a logical position keeps the array's size |
| RingBuffers.PlacedSpan | Protoplasm/lowlevel/ringbuffer.c:75-85 | bytes stored after the c unread ones read back as the unread bytes followed by them |
| RingBuffers.StoreStep | Protoplasm/lowlevel/ringbuffer.c:78-82 | one more store at the next wrapped slot extends the stored run by that byte |
| RingBuffers.WindowCommit | Protoplasm/lowlevel/ringbuffer.c:101-111 | bytes placed into getwritebuffer's window and then committed follow the unread bytes and leave them intact |
| RingBuffers.RingBuffer.constructor | Protoplasm/lowlevel/ringbuffer.h:54 | RINGBUFFER(size): both positions 0, not locked, nothing unread |
| RingBuffers.RingBuffer.ToRead | Protoplasm/lowlevel/ringbuffer.c:114-119 | the unread count is the circular distance from readpos to writepos |
| RingBuffers.RingBuffer.ToWrite | Protoplasm/lowlevel/ringbuffer.c:121-126 | toread + towrite == size - 1 in every valid state, so at most size - 1 bytes are held |
| RingBuffers.RingBuffer.Contents | Protoplasm/lowlevel/ringbuffer.h:35-41 | the unread bytes, oldest first, are toread bytes |
| RingBuffers.RingBuffer.Peek | Protoplasm/lowlevel/ringbuffer.c:23-40 | copies the oldest min(n, toread) bytes in order and returns that count; the buffer and positions do not change, and with no destination nothing is copied |
| RingBuffers.RingBuffer.CopyOut | Protoplasm/lowlevel/ringbuffer.c:27-37 | the loop shared by peek and read takes min(n, toread) bytes from readpos on and ends at the wrapped position after them |
| RingBuffers.RingBuffer.Read | Protoplasm/lowlevel/ringbuffer.c:42-66 | returns and removes the oldest min(n, toread) bytes in FIFO order; both positions reset to 0 when a read empties the buffer and writelock is clear, and otherwise stay put; n == 0 changes nothing |
| RingBuffers.RingBuffer.Write | Protoplasm/lowlevel/ringbuffer.c:68-90 | stores min(n, towrite) bytes after the unread ones and returns that count; the unread bytes stay; writelock is cleared unless n == 0; with no source nothing is copied but writepos still advances |
| RingBuffers.RingBuffer.Store | Protoplasm/lowlevel/ringbuffer.c:72-83 | write's copy loop places min(n, towrite) bytes from the write position on, wrapping at size |
| RingBuffers.RingBuffer.Put | Protoplasm/lowlevel/ringbuffer.c:78 | one array store extends the stored run by that byte |
| RingBuffers.RingBuffer.GetReadBuffer | Protoplasm/lowlevel/ringbuffer.c:92-99 | the window starts at readpos, has length min(n, toread, size - readpos) and holds the oldest unread bytes; nothing changes |
| RingBuffers.RingBuffer.GetWriteBuffer | Protoplasm/lowlevel/ringbuffer.c:101-111 | sets writelock; the window starts at writepos, right after the unread bytes, and has length min(n, towrite, size - writepos) |
| AppEvents.Channel | Application/application.h:32 | MIDI_CHANNEL is below 16 |
| AppEvents.Command | Application/application.h:33 | MIDI_COMMAND is the status byte's high nibble in place, a multiple of 16 within 16 below the status |
| AppEvents.Packed | Application/application.h:24-30 | status, data0 << 8 and data1 << 16 packed together fit in the 24-bit event value |
| AppEvents.UnpackPacked | Application/application.h:28-30 | MIDI_STATUS, MIDI_DATA0 and MIDI_DATA1 recover the three packed bytes |
| AppEvents.Status | Application/application.h:28 | MIDI_STATUS, the low byte of the event value, packs with DATA0 and DATA1 back into the 24-bit payload |
| AppEvents.Data0 | Application/application.h:29 | MIDI_DATA0, the second byte, is the payload above the status byte less DATA1 |
| AppEvents.Data1 | Application/application.h:30 | MIDI_DATA1 is the top byte of the 24-bit payload |
| AppEvents.PackedUnpack | Application/application.h:24-30 | every 24-bit value is the packing of its three bytes |
| AppTask.EventType | Protoplasm/protoplasm/app_task.h:59-62 | e & APP_EVENT_MASK is the top byte in place: a multiple of 2^24 within 2^24 below e |
| AppTask.EventValue | Protoplasm/protoplasm/app_task.h:59-62 | e & APP_EVENT_MASK_VALUE is below 2^24, and type plus value is the event |
| AppTask.PushBackPos | Protoplasm/protoplasm/app_task.h:89-92 | the corrected push-back position stays within the 16 slots |
| AppTask.PopPos | Protoplasm/protoplasm/app_task.c:48-52 | advancing a position in [-1, 16) gives the next slot, with 16 wrapping to 0, as app_popevent and app_pushevent do |
| AppTask.UiPushBackPos | Protoplasm/protoplasm/app_task.c:62-65 | from a readpos of 2 to 15, one advance undoes the push-back as written |
| AppTask.PushBackUndoesPop | Protoplasm/protoplasm/app_task.h:89-92 | the corrected push-back returns readpos to the slot just popped, for every slot |
| AppTask.UiPushBackMisses | Protoplasm/protoplasm/app_task.c:62-65 | the push-back as written undoes a pop exactly when the popped slot is neither 0 nor 15; after slot 0 it gives 15 and after slot 15 it gives -1 |
| AppTask.Pushed | Protoplasm/protoplasm/app_task.c:35-40 | a push appends e; with 15 events pending the oldest is dropped; fewer than 16 events are ever pending |
| AppTask.PushedKeepsNoNone | Protoplasm/protoplasm/app_task.c:35-40 | a queue without APP_EVENT_NONE keeps none when real events are pushed |
| AppTask.PushedAll | Protoplasm/protoplasm/app_task.c:35-40 | after any run of pushes at most 15 events are pending |
| AppTask.PushedAllAppend | Protoplasm/protoplasm/app_task.c:35-40 | pushing two runs of events is pushing their concatenation |
| AppTask.PushedAllRoom | Protoplasm/protoplasm/app_task.c:35-40 | while the queue has room nothing is dropped and the events are appended |
| AppTask.PushSpan | Protoplasm/protoplasm/app_task.c:36-39 | the C's store at writepos and its position updates turn the pending events of the array into Pushed of them |
| AppTask.EventQueue.constructor | Protoplasm/protoplasm/app_task.c:26-28 | the static queue starts empty with both positions 0 |
| AppTask.EventQueue.Pending | Protoplasm/protoplasm/app_task.c:26-28 | fewer than 16 events are pending |
| AppTask.EventQueue.Push | Protoplasm/protoplasm/app_task.c:35-40 | writepos advances modulo 16; the pending events become Pushed of them, so a full queue silently drops its oldest event; a readpos left at 16 returns to 0 |
| AppTask.EventQueue.Pop | Protoplasm/protoplasm/app_task.c:43-55 | an empty queue gives APP_EVENT_NONE and does not change; otherwise the oldest event is removed and returned, and readpos wraps unless that event is APP_EVENT_NONE, when it may reach 16; with no APP_EVENT_NONE stored both positions stay in [0, 16) |
| AppTask.EventQueue.Clear | Protoplasm/protoplasm/app_task.c:57-59 | readpos := writepos empties the queue; the slots are not touched |
| AppTask.EventQueue.UiPushEventBack | Protoplasm/protoplasm/app_task.c:62-65 | readpos is decremented and 0 becomes 15, as written |
| AppTask.EventQueue.PushEventBack | Protoplasm/protoplasm/app_task.h:89-92 | the corrected push-back steps readpos back with wrap-around; the event in that slot is pending again, first |
| MidiTable.LutIsMidiSpec | Application/midi.h:45-56 | every entry of midi_length_lut is the data-byte count of the MIDI 1.0 status summary |
| MidiTable.LutAtMostTwo | Application/midi.h:45-56 | no entry exceeds 2, so process_midi_thru's `commandLen > 2` return is unreachable |
| MidiTable.LutZero | Application/midi.h:45-56 | the entry is 0 exactly for data bytes, 0xF0 and 0xF4 to 0xFF |
| MidiTable.LutIgnoresChannel | Application/midi.h:46-52 | for 0x80 to 0xEF the length depends on the high nibble only |
| MidiTable.LutChannelVoice | Application/midi.h:46-52 | Program Change and Channel Aftertouch have length 1; the other channel voice commands have length 2 |
| MidiTable.LengthLut | Application/midi.h:45-56 | no status byte awaits more than 2 data bytes, and data bytes await none |
| Midi.MidiEvent | Application/midi.c:72 | APP_EVENT_MIDI with a 24-bit payload has type APP_EVENT_MIDI and that payload as value |
| Midi.MidiEventIsOr | Application/midi.c:72 | the event is the bitwise OR of APP_EVENT_MIDI and `_midi` |
| Midi.AddData | Application/midi.c:68-69 | a data byte added at the current offset keeps the command below the next byte boundary |
| Midi.AddDataIsOr | Application/midi.c:68 | the sum is the bitwise OR of `_midi` and `cmd << _midi_offset` |
| Midi.DataTest | Application/midi.c:66 | `(cmd & 0xF0) < 0x80` holds exactly for data bytes |
| Midi.Feed | Application/midi.c:58-83 | one byte keeps the assembler state sound and posts at most one event; an event is posted only when a command completes, and it is APP_EVENT_MIDI with the assembled command |
| Midi.Assemble | Application/midi.c:53-84 | a run of bytes keeps the assembler state sound |
| Midi.AssembleSnoc | Application/midi.c:53-84 | assembling one more byte is a Feed after the run |
| Midi.AssembleAppend | Application/midi.c:17-84 | since the state is static, a stream split anywhere into two calls posts the same events and ends in the same state as one call |
| Midi.AssembleEvents | Application/midi.c:72-80 | every posted event has type APP_EVENT_MIDI |
| Midi.SysexBounds | Application/midi.c:58-65 | outside SysEx 0xF0 enters it; inside, 0xF7 leaves it; neither posts anything |
| Midi.SysexSkipped | Application/midi.c:58-62 | inside SysEx every byte but 0xF7 is dropped and the state kept, real-time bytes included; 0xF7 then returns to the reset state without posting |
| Midi.NoRunningStatus | Application/midi.c:66-67 | a data byte with no data byte awaited is ignored |
| Midi.StatusRestarts | Application/midi.c:75-81 | any other status byte discards a partial command and starts a new one at offset 8 with lut[byte] awaited; one with length 0 is posted at once as APP_EVENT_MIDI with the byte |
| Midi.CommandAssembled | Application/midi.c:66-82 | a status byte followed by exactly its data bytes posts one event, the packed command, whatever state came before |
| Midi.Command1Assembled | Application/midi.c:66-82 | the same for a command with one data byte |
| Midi.Command2Assembled | Application/midi.c:66-82 | the same for a command with two data bytes |
| Midi.StatusAssembled | Application/midi.c:75-81 | assembling a lone status byte is one Feed |
| Midi.DataFed | Application/midi.c:66-74 | an awaited data byte is added at the offset, which grows by 8, and args is decremented; the command is posted exactly when args reaches 0 |
| Midi.FirstDataFed | Application/midi.c:66-74 | the first data byte after a status byte lands in bits 8-15 and completes a command of length 1 |
| Midi.OneDataAssembled | Application/midi.c:66-82 | a status byte and its first data byte give offset 16 and post a command of length 1 |
| Midi.TwoDataAssembled | Application/midi.c:66-74 | the second data byte lands in bits 16-23 and posts the command |
| Midi.NoteOnExample | Application/midi.c:66-82 | bytes 90 40 7F post exactly the event 0x047F4090 |
| Midi.CallbackStep | Application/midi.c:54-83 | one byte of midi_callback changes the parser exactly as the assembler does |
| Midi.CallbackScan | Application/midi.c:53-84 | a run of bytes keeps the parser sound |
| Midi.CallbackScanAppend | Application/midi.c:44-86 | scanning two chunks in turn is scanning their concatenation |
| Midi.CallbackScanIsAssemble | Application/midi.c:55-83 | the callback's parser follows the assembler; from USB the bus flag stays and only MIDI events are posted; from the bus the flag ends cleared exactly when a 0xF4 byte went by |
| Midi.SentStep | Application/midi.c:47-51 | while nothing drains a transmit buffer, one more write truncated to its free space leaves old contents plus every written byte that fit, in order, and that much less free space |
| Midi.SentAll | Application/midi.c:46-51 | the chunked writes of every unread byte from `cut` on leave the old contents plus those bytes truncated to the free space |
| Midi.CutStep | Application/midi.c:49-57 | forwarding to the bus is re-tested for each chunk: under way, it continues from where it began; otherwise it can begin only after the chunk |
| Midi.CutEnd | Application/midi.c:44-86 | after the loop, from USB every byte or none was forwarded; from the bus none was unless USB is connected and a 0xF4 byte came before where forwarding began |
| Midi.ScanChunk | Application/midi.c:44-86 | scanning up to k and then from k to k2 is scanning up to k2, event queue included; from the bus the flag is clear exactly when a 0xF4 byte lies before k2 |
| Midi.ScanBusFlag | Application/midi.c:55-57 | from USB the bus flag is kept; from the bus it stays set while no 0xF4 arrives and is clear once one has |
| Midi.CallbackEventsSplit | Application/midi.c:40-42 | the callback's events are the bus-connected report, if any, followed by those of the bytes |
| Midi.CallbackEvents | Application/midi.c:40-83 | on the bus receive buffer a bus not yet connected is reported first; from USB the events are exactly those of the assembler |
| Midi.MidiPort.constructor | Application/midi.c:17-20 | the static parser starts in the reset state |
| Midi.MidiPort.Reset | Application/midi.c:29-34 | midi_reset restores the start-up state |
| Midi.MidiPort.FeedByte | Application/midi.c:54-83 | the byte loop body moves the parser, bus flag and queue as CallbackStep says |
| Midi.MidiPort.Parse | Application/midi.c:58-83 | the assembler branch moves the parser as Feed does and pushes its events |
| Midi.MidiPort.AddByte | Application/midi.c:66-74 | the data-byte branch is Feed |
| Midi.MidiPort.StartCommand | Application/midi.c:75-82 | the status-byte branch is Feed |
| Midi.MidiPort.Post | Application/midi.c:72 | app_pushevent of one event |
| Midi.MidiPort.ConsumeChunk | Application/midi.c:53-84 | the byte loop over a chunk is CallbackScan of it |
| Midi.MidiPort.Echo | Application/midi.c:46-51 | the chunk is echoed to the USB transmit buffer and, while USB is connected and the bus is not, written to the bus too, each write truncated to the free space |
| Midi.MidiPort.EchoStep | Application/midi.c:46-51 | one chunk goes to the host buffer, and to the bus buffer only while USB is connected and the bus is not; forwarding then continues from where it began, or may begin after this chunk |
| Midi.MidiPort.ConsumeStep | Application/midi.c:53-84 | one chunk's byte loop extends the scan to the end of the chunk |
| Midi.MidiPort.ReadStep | Application/midi.c:85 | `ringbuffer_read(appbuffer, 0, chunk_size)` consumes the chunk, so toread falls |
| Midi.MidiPort.DrainStep | Application/midi.c:45-85 | one pass takes a non-empty chunk, echoes it, scans it and consumes it |
| Midi.MidiPort.Drain | Application/midi.c:44-86 | the loop ends with every unread byte echoed, scanned once in order and consumed, and forwarded to the bus from `cut` on |
| Midi.MidiPort.DrainEnd | Application/midi.c:44-86 | once every byte went through, the host buffer holds its old contents plus the unread bytes that fit, and the bus buffer its old contents plus those from `cut` on that fit |
| Midi.MidiPort.DrainAll | Application/midi.c:44-86 | the loop with the final contents of both transmit buffers |
| Midi.MidiPort.Begin | Application/midi.c:37-42 | data on the bus receive buffer reports the bus connected; the loop starts from the unread bytes, the parser, the flags, the queue and both transmit buffers as they were |
| Midi.MidiPort.Callback | Application/midi.c:36-93 | midi_callback leaves appbuffer empty; the parser and bus flag end as CallbackScan of the unread bytes; the queue receives CallbackEvents in order; the host transmit buffer ends as its old contents plus the unread bytes truncated to its free space; the bus transmit buffer ends as its old contents plus the bytes from `cut` on, truncated to its free space; `cut` is 0 for USB input while USB is connected and the bus is not, the end for other USB input and for bus input without USB or without 0xF4, and comes after a 0xF4 byte otherwise |
| Process.KeyDownsAfter | Application/process.c:26-41 | Note On counts up modulo 256; Note Off counts down but not below 0; other commands leave the count |
| Process.NoteOnsWrap | Application/process.c:27-28 | after any run of Note Ons the 8-bit count is the old one plus their number modulo 256, so 256 of them wrap it back |
| Process.WrapSucc | Application/process.c:28 | counting up modulo 256 once more is counting one more modulo 256 |
| Process.NoteOffsFloor | Application/process.c:33-36 | Note Offs never take the count below 0; enough of them bring it to 0 |
| Process.KeyDownsRun | Application/process.c:26-41 | a run with no Note On and no Note Off leaves the count of held notes |
| Process.ThruBytes | Application/process.c:49-60 | MIDI thru sends 1 + lut[status] bytes: the status byte, then DATA0, then DATA1 |
| Process.ThruRoundTrip | Application/process.c:49-60 | a command packed from a status byte and exactly its data bytes is sent as those bytes |
| Process.ThruEchoesAssembled | Application/process.c:49-60 | every command the assembler posts outside SysEx goes out of MIDI thru as exactly the bytes that produced it |
| Process.Processor.constructor | Application/process.c:13-17 | no note held at start |
| Process.Processor.SynthNoteOff | Application/process.c:19-24 | keyDowns becomes 0; the gate is driven low only in SYNTH mode; the LEDs, the blink, the pulse, the debouncer and all three timers keep their state |
| Process.Processor.ProcessMidi | Application/process.c:26-41 | keyDowns follows KeyDownsAfter; LED effects happen only with `normal` set: a Note On lights blue and blinks red once, a Note Off that releases the last note turns blue off, and otherwise the LED pins, blink and timer 1 keep their state; the output pin, pulse, debouncer, timer 2, `normal` and `mode` never change |
| Process.Processor.ProcessMidiThru | Application/process.c:43-62 | process_midi's count and LED feedback, then ThruBytes appended to the UART transmit buffer, truncated to its free space; the output pin and pulse keep their state |
| Process.Processor.ProcessSynth | Application/process.c:65-72 | process_midi's count and LED feedback; afterwards the gate is high exactly when keyDowns > 0 |
| Process.Processor.ProcessTrigger | Application/process.c:74-81 | process_midi's count and LED feedback; a Note On restarts the pulse, with the output high and timer 3 running; any other command leaves the output and pulse alone |
| Application.Connections.constructor | Application/application.c:8-9 | both transports start disconnected |
| Application.Connections.ConnectionUsb | Application/application.c:300-305 | the USB flag takes the new value; one change event is pushed only when the value differs |
| Application.Connections.ConnectionBus | Application/application.c:307-312 | the same for the bus flag |
| Application.ModeDecode | Application/application.c:295-297 | floating gives MIDI_THRU, tied low gives SYNTH, tied high gives TRIGGER, and low with pull-up but high with pull-down keeps the mode |
| Application.ChannelBit | Application/application.c:87 | `1 << MIDI_CHANNEL` is 2^channel, odd only for channel 0 |
| Application.AndFlagChannel | Application/application.c:88 | the C parse `channel & (channelMask == channel)` holds only on MIDI channel 0, and only when the comparison does |
| Application.EnterReaction | Application/application.c:47-58 | no ENTER case switches or stores; LEARN_CLEAR's resets the filter to mask 0xff, notes 0..255 and range off; the others keep the filter |
| Application.Track | Application/application.c:27-38 | EVENT_TRACK_CONNECTION_CHANGE goes to NORMAL exactly when one transport is connected, to IDLE exactly when none is, and to ERROR exactly when both are |
| Application.NormalCalls | Application/application.c:82-116 | NORMAL forwards a MIDI event to at most one process.c call, the one of the current mode |
| Application.NormalMidi | Application/application.c:82-116 | NORMAL's MIDI case never changes the filter, never stores, never switches and makes at most one call |
| Application.NormalForwarding | Application/application.c:82-116 | a channel command is forwarded exactly on MIDI channel 0 under a mask of exactly 1, and in SYNTH or TRIGGER mode only an in-range note; any other command is forwarded exactly in THRU mode |
| Application.InitialFilterBlocksChannels | Application/application.c:18-21 | under the initial mask 0xffff NORMAL forwards no channel command |
| Application.LearnClearMidi | Application/application.c:137-162 | LEARN_CLEAR's MIDI case never stores, and either stays or goes to LEARN |
| Application.LearnClearLearns | Application/application.c:137-162 | it goes to LEARN exactly for a channel command in THRU mode or a note; it then sets the mask to 2^channel, clears range and forwards the event; outside THRU mode it also sets noteMin = noteMax = DATA0; any other event changes nothing |
| Application.LearnMidi | Application/application.c:180-212 | LEARN's MIDI case never stores or switches |
| Application.LearnMonotone | Application/application.c:186-205 | with a non-zero mask the mask never changes, noteMin never rises, noteMax never falls and an ordered range stays ordered |
| Application.React | Application/application.c:40-226 | no event in any state goes back to STARTUP |
| Application.Pack | Application/application.c:333 | the packed word gives channelMask in its high word, noteMax in its second byte and noteMin in its low byte |
| Application.PackIsOr | Application/application.c:333 | the packed word is the bitwise OR of `channelMask << 16`, `noteMax << 8` and `noteMin` |
| Application.StoreFlash | Application/application.c:326-349 | config_store as intended: afterwards the flash holds the marker and the three fields (corrected half of the flash finding) |
| Application.StoreFlashAsWritten | Application/application.c:344-345 | config_store as written programs the address of local_configuration and a zero word; with an address other than the marker the filter is stored afterwards exactly when it was before |
| Application.StoreAsWrittenForgets | Application/application.c:314-349 | after a store as written, config_load keeps the filter in RAM and the next store writes again, so nothing learned survives a restart |
| Application.StoreAsWrittenExample | Application/application.c:326-349 | an erased page and a learned mask of channel 0 stored from RAM address 0x20000000: the next boot loads the initial filter, while the intended store would load the mask |
| Application.StoreSkipsUnchanged | Application/application.c:328-331 | config_store leaves the flash unchanged exactly when the marker and all three fields already match |
| Application.LoadFilter | Application/application.c:314-324 | with a wrong marker the filter stays; with the marker the three fields come from the second word and range stays |
| Application.LoadAfterStore | Application/application.c:314-349 | config_load after the intended config_store restores the three stored fields |
| Application.StoredPacks | Application/application.c:320-333 | a filter loaded from flash packs back to the stored word |
| Application.EnterIn | Protoplasm/protoplasm/app_task_meta.h:199 | SWITCHTO reaches the target state and keeps the mode and the flash |
| Application.BootedInv | Application/application.c:45-58 | STARTUP decodes the mode, loads the filter and ends in IDLE with the red LED blinking slowly, and the step invariant holds |
| Application.NextInv | Application/application.c:40-226 | every dispatched event keeps the invariant: LEARN_CLEAR keeps its cleared filter, LEARN keeps a non-zero mask and an ordered range |
| Application.ConnectionChangeTracks | Application/application.c:27-38 | a connection change always switches, even to the current state, whose ENTER case then runs again |
| Application.BootDownTransitions | Application/application.c:119-223 | with the boot button NORMAL goes to LEARN_CLEAR; LEARN_CLEAR stores and goes to NORMAL; LEARN widens a single-note range to 0..255 in SYNTH mode, stores and goes to NORMAL; IDLE and ERROR ignore it |
| Application.BootDownReaction | Application/application.c:119-223 | the boot button makes no call; LEARN_CLEAR and LEARN store; exactly NORMAL, LEARN_CLEAR and LEARN switch |
| Application.Apply | Application/application.c:56-223 | after a handler the mode is kept and calls are only appended; without a switch the state stays and the filter is the handler's; without a store the flash is unchanged |
| Application.Next | Protoplasm/protoplasm/app_task_meta.h:93-118 | a dispatched event never returns to STARTUP, never changes the mode, keeps two flash words and only appends calls |
| Application.Booted | Application/application.c:45-51 | STARTUP ends in IDLE with the flash untouched |
| Application.UnknownEventsIgnored | Protoplasm/protoplasm/app_task_meta.h:118 | an event type with no case in the current state is consumed with no effect |
| Application.App.constructor | Application/application.c:11-21 | the globals' initial values: THRU mode, mask 0xffff, notes 0..255 |
| Application.App.ApplicationInit | Application/application.c:276-298 | the mode becomes ModeDecode of the two pin reads; nothing else changes |
| Application.App.ConfigLoad | Application/application.c:314-324 | the filter becomes LoadFilter of the flash |
| Application.App.ConfigStore | Application/application.c:326-349 | the flash becomes StoreFlash of the filter, the intended store (see Left out) |
| Application.App.EnterState | Protoplasm/protoplasm/app_task_meta.h:93-166 | the state's first pass runs with event APP_EVENT_MASK, which is its ENTER case |
| Application.App.SwitchTo | Protoplasm/protoplasm/app_task_meta.h:199 | SWITCHTO jumps to the target and runs its ENTER case |
| Application.App.Boot | Application/application.c:45-51 | the STARTUP state is Booted |
| Application.App.TrackConnection | Application/application.c:27-38 | the connection case switches to Track of the flags |
| Application.App.NormalMidiCase | Application/application.c:82-116 | NORMAL's MIDI case is NormalMidi |
| Application.App.LearnClearMidiCase | Application/application.c:137-162 | LEARN_CLEAR's MIDI case is LearnClearMidi |
| Application.App.LearnMidiCase | Application/application.c:180-212 | LEARN's MIDI case is LearnMidi |
| Application.App.LearnThruCase | Application/application.c:182-193 | LEARN's THRU branch is LearnMidi |
| Application.App.LearnNoteCase | Application/application.c:194-211 | LEARN's note branch is LearnMidi |
| Application.App.BootDownCase | Application/application.c:119-223 | the boot-button case of each state is BootDownReaction |
| Application.App.Dispatch | Protoplasm/protoplasm/app_task_meta.h:98-225 | the switch on `event & APP_EVENT_MASK` is Next, with the handlers reading EVENT_VALUE |
| Application.App.Step | Protoplasm/protoplasm/app_task_meta.h:117-118 | one pop of the wait loop: the queue loses its oldest event; APP_EVENT_NONE or an empty queue changes nothing, and any other event is dispatched in the same state; so queued events are handled in FIFO order |
| Descriptor.Walk | Protoplasm/usbdevice/descriptor.c:78-86 | the walk starts at the given offset and visits only offsets below the configuration size, each with its type byte in the array and a non-zero bLength |
| Descriptor.WalkChained | Protoplasm/usbdevice/descriptor.c:85 | each visited offset is the previous one plus its bLength |
| Descriptor.Find | Protoplasm/usbdevice/descriptor.c:78-86 | an answer is a visited offset below the configuration size whose type byte is the type asked for |
| Descriptor.FirstOfType | Protoplasm/usbdevice/descriptor.c:79 | the position of the first visited descriptor of the type, with none of that type before it |
| Descriptor.FindFirst | Protoplasm/usbdevice/descriptor.c:72-90 | the scan answers with the first descriptor of the type along the walk, and with none exactly when no visited descriptor has it |
| Descriptor.FirstOfTypeCons | Protoplasm/usbdevice/descriptor.c:79-85 | a first descriptor of another type moves the answer one place along the walk |
| Descriptor.GetDescriptor | Protoplasm/usbdevice/descriptor.c:72-90 | desc_getdescriptor gives the offset Find gives, with its bLength as size, or no data and size 0 |
| Descriptor.LeWord | Protoplasm/usbdevice/descriptor.c:53-54 | the OR of byte4 and `byte5 << 8` is the little-endian word whose low and high bytes are byte4 and byte5 |
| Descriptor.InitChain | Protoplasm/usbdevice/descriptor.c:47-69 | the walk conditions of desc_init include those of the scan |
| Descriptor.InitStep | Protoplasm/usbdevice/descriptor.c:48-66 | one descriptor keeps the table size |
| Descriptor.InitWalk | Protoplasm/usbdevice/descriptor.c:47-69 | the walk keeps the table size |
| Descriptor.LastFor | Protoplasm/usbdevice/descriptor.c:48-51 | the last visited endpoint descriptor for a slot is an endpoint descriptor targeting that slot |
| Descriptor.Slot | Protoplasm/usbdevice/descriptor.c:49-51 | an endpoint address selects slot 2 * (address & 0x0F), plus 1 for device-to-host; there are 32 |
| Descriptor.InitSlot | Protoplasm/usbdevice/descriptor.c:48-65 | each slot ends with packetsize and attributes from the last endpoint descriptor for it, when it has a buffer; a slot without a buffer or without a descriptor keeps its values |
| Descriptor.InitKeepsBuffers | Protoplasm/usbdevice/descriptor.c:52-59 | no slot gains or loses its buffer |
| Descriptor.DescInit | Protoplasm/usbdevice/descriptor.c:41-70 | desc_init leaves the endpoint table as InitWalk of it |
| Io.LedPins | Application/io.c:46 | the pins of an LED selection: red for red and purple, blue for blue and purple, never the output pin |
| Io.WritePin | Application/io.c:47 | the pins of the mask take the level; the others keep theirs |
| Io.TogglePin | Application/io.c:85 | the pins of the mask are inverted; the others keep their level |
| Io.BlinkStart | Application/io.c:30-32 | the blink count is 1 for once and 100 for forever, the duration 1 or 5 ticks, and the duration count 0 |
| Io.BlinkTick | Application/io.c:77-86 | a tick counts up until the duration is reached, then restarts the count and takes a blink step: 100 stays, anything else goes down; at 0 the LED goes off, otherwise it toggles |
| Io.BlinkRun | Application/io.c:76-87 | n ticks give n actions |
| Io.BlinkRunWaits | Application/io.c:77-78 | before the duration is reached a tick only counts |
| Io.OnceBlink | Application/io.c:76-84 | a blink with once set keeps the LED as it is for duration - 1 ticks, then turns it off with the count at 0 |
| Io.ForeverBlink | Application/io.c:80 | a forever blink never turns the LED off |
| Io.ButtonTick | Application/io.c:89-95 | a timer-2 tick adopts the latched level and posts BOOT_DOWN or BOOT_UP only when it differs from the debounced one |
| Io.ButtonStep | Application/io.c:67-95 | an edge posts nothing; a tick posts at most one event, and only when the latched level differs from the debounced one, which it then becomes |
| Io.ButtonRun | Application/io.c:67-95 | a run of inputs posts at most one event per input |
| Io.ButtonEventsAlternate | Application/io.c:89-95 | whatever the edges and ticks, the posted button events alternate, starting opposite to the debounced state |
| Io.AlternatesDiffer | Application/io.c:90-92 | consecutive button events differ |
| Io.Io.constructor | Application/io.c:17-25 | the globals' initial values: no pins, timers stopped |
| Io.Io.LedBlink | Application/io.c:27-38 | led_blink selects the pins, loads the counters, drives the pins high and starts timer 1 |
| Io.Io.LedStopBlink | Application/io.c:40-42 | only timer 1 stops |
| Io.Io.LedSet | Application/io.c:45-48 | drives the selected LED pins; a running blink is not stopped |
| Io.Io.GpioSet | Application/io.c:50-53 | drives the output pin; the gate follows the requested level |
| Io.Io.GpioBlink | Application/io.c:55-62 | raises the output and restarts timer 3 |
| Io.Io.ExtiCallback | Application/io.c:67-73 | an edge of the boot pin latches the level and restarts timer 2; other pins change nothing |
| Io.Io.BlinkElapsed | Application/io.c:76-88 | the timer-1 branch is BlinkTick acted out on the pins and the timer, with nothing else changed |
| Io.Io.DebounceElapsed | Application/io.c:89-95 | the timer-2 branch is ButtonTick, pushing its event and stopping the timer when it posts, with nothing else changed |
| Io.Io.PulseElapsed | Application/io.c:96-99 | the timer-3 branch lowers the pulse pin and stops the timer, with nothing else changed |
| Io.Io.PeriodElapsed | Application/io.c:75-100 | the handler does exactly what the branch for the elapsed timer does, frame included, and only the timer-2 branch touches the event queue |
| Util.DivStep | Protoplasm/lowlevel/util.h:57-64 | shifting a bit into the dividend doubles the quotient and adds 1 exactly when the doubled remainder plus the bit reaches d |
| Util.DivAsWrittenClose | Protoplasm/lowlevel/util.h:50-75 | div64 as written is never above n / d and at most one below; it is exact for even n and for n below 2^32 |
| Util.Div64Counterexample | Protoplasm/lowlevel/util.h:47-74 | n = 6442450947 and d = 3 give 2147483648, although n / d is 2147483649 |
| Util.Div64Loop | Protoplasm/lowlevel/util.h:56-65 | the 63 iterations leave twice the quotient of n / 2 by d in q and the remainder, below d, in r, with bit 0 of n in bit 63 |
| Util.ShiftIn | Protoplasm/lowlevel/util.h:57-64 | one iteration shifts the top bit of n into r, shifts n out of 64 bits, subtracts d when it fits, records the quotient bit and shifts q |
| Util.IterStep | Protoplasm/lowlevel/util.h:56-65 | every iteration is one step of long division: r stays below d and nothing overflows 64 bits |
| Util.LoopEnd | Protoplasm/lowlevel/util.h:56-65 | after 63 shifts the bits taken are n / 2 and bit 0 sits in bit 63 |
| Util.Div64 | Protoplasm/lowlevel/util.h:50-75 | div64 as written returns DivAsWritten: n / d below 2^32, otherwise the quotient of n with bit 0 cleared |
| Util.ShiftedOutBit | Protoplasm/lowlevel/util.h:68 | after 63 left shifts `n & 1` is always 0 |
| Util.FinalShift | Protoplasm/lowlevel/util.h:67-72 | the final step sets bit 0 of q exactly when the doubled remainder plus the shifted-in bit reaches d |
| Util.LastStep | Protoplasm/lowlevel/util.h:67-72 | the final step completes the long division of 2 * (n / 2) + b |
| Util.Div64Fixed | Protoplasm/lowlevel/util.h:40-75 | with the final step reading bit 0 from bit 63, div64 returns n / d for every n and non-zero d |
| Util.MemcpyVolatile | Protoplasm/lowlevel/util.c:25-32 | dst[0..len) equals src[0..len); bytes of dst from len on, and all of src, are unchanged; len == 0 changes nothing |

## Left out

- I/O and hardware: the HAL GPIO, timer, flash and pin reconfiguration calls become abstract fields (`Io`), a two-word flash array and two boolean pin reads. Pin numbers come from a board header that is not part of this model, so the pins are named values and a mask is a set of pins.
- Flushes: `usb_flush`, `i2c_flush` and `uart_flush` only start DMA transfers of the transmit buffers' contents, which is driver code outside the core.
- Concurrency: interrupt handlers preempting the main loop, `volatile` and memory ordering. Every handler is one atomic call.
- The infinite loops: the APPLICATION state machine is modelled one event at a time (`App.Step` and `Next`), rather than as the non-terminating loop.
- TRANSLATETO and ANYEVENT (app_task_meta.h:184, 212): no state of application.c uses them. The push-back TRANSLATETO would call is modelled as `UiPushEventBack` and `PushEventBack`.
- `local_configuration`: the copy staged in RAM is folded into the flash words that `config_load` and `config_store` read and write.
- Application.App.ConfigStore: writes the marker and the packed word, as intended. As written, application.c:344-345 passes the address of `local_configuration` as HAL_FLASH_Program's 64-bit datum, so the page receives that address and 0 (StoreFlashAsWritten; see Findings). The state machine uses the intended store. The HAL is not part of this model; its datum is taken to be the value programmed. The page erase and programming are taken to succeed; a failed erase would leave the old flash contents.
- AppTask.EventQueue.Pop: requires readpos in [0, 16). The C reaches 16 by popping a stored APP_EVENT_NONE from slot 15, because app_task.c:51-52 skip the wrap for it, and -1 by `ui_pusheventback` from readpos 0. The next `app_popevent` then reads `_app_queue[16]` or `_app_queue[-1]`, outside the array, and the model gives that read no meaning.
- AppTask.EventQueue.Push: requires readpos in [0, 16]. From the readpos -1 that `ui_pusheventback` leaves, `app_pushevent` stores the event and keeps readpos at -1; the model does not cover that state.
- AppTask.EventQueue.UiPushEventBack: requires readpos in [0, 16]. From readpos -1 the C gives -2; the model does not cover repeated push-backs past 0.
- Descriptor.DescInit: requires InitOk, so every endpoint descriptor has bytes 2 to 5 inside the array and an endpoint number (`bEndpointAddress & 0x0F`, descriptor.c:49) below TOTAL_ENDPOINTS, which is 8 (Protoplasm/usbdevice/common.h:45). Numbers 8 to 15 make desc_init write past `_usb_endpoints[8][2]`, and a short array makes it read past the configuration; the model gives neither a meaning.
- Descriptor.GetDescriptor: requires ChainOk, so every visited descriptor has its type byte inside the array and a non-zero bLength; Walk, Find and InitOk ask the same. With a bLength of 0, `i += configuration[i]` adds nothing, and both desc_init (descriptor.c:68) and desc_getdescriptor (descriptor.c:85) loop for ever on that descriptor. This is a fact about the source; a walk that does not end has no result to state.
- Midi.MidiPort.Callback: for bus input while USB is connected, `cut` is stated to come after a 0xF4 byte. The contract does not say that it is exactly the end of the chunk holding the first 0xF4, because the chunks depend on the read window of the ring buffer.
- application.c:251-270 and 366-391 duplicate io.c's LED and interrupt handlers in an older form. Only io.c is modelled.
- application.c:351-361 are empty stubs of the process.c functions. The state machine records its calls to them as `Call` values; process.c is modelled on its own, in `Process`.
- application.c:393-417 and usb.c:100-128 are superseded chunk parsers. Their inner loop never consumes a status byte, so they do not terminate on one.
- Io.BlinkTick: the `int` blink counters are unbounded integers, so a count decremented below `INT_MIN` does not wrap. Reaching that needs about 2^31 steps started from a count of 0, which `led_blink` never loads.
- Application.Pack: `channelMask << 16` is computed on an `int` in C, which overflows (undefined behaviour) for a mask of 0x8000 or more. The model packs as the unsigned hardware result.
- Util.MemcpyVolatile: the contract states the final contents, not the ascending order of the byte stores, which only matters for volatile hardware registers.
- The `appbuffer`, `usbbuffer` and `callback` fields of `struct usb_endpoint_s`: desc_init only reads whether `usbbuffer` is null (`hasBuffer`) and writes `packetsize` and `attributes`.
- The USB device stack, the class descriptors, the I2C and UART drivers, `crc32` and the string helpers declared in util.h are not part of this model.

## Findings

| source | as written | input that shows it | evidently intended | confidence | as-written member | corrected member |
|---|---|---|---|---|---|---|
| Protoplasm/protoplasm/app_task.c:62-65 | `ui_pusheventback` decrements readpos and then maps 0 to 15 | a pop of slot 0 followed by the push-back leaves readpos at 15; a pop of slot 15 leaves it at -1 | step readpos back over the slot just popped, with 0 going to 15, as app_task.h:89-92 promises | not executed | AppTask.UiPushBackMisses | AppTask.PushBackUndoesPop |
| Application/application.c:344-345 | HAL_FLASH_Program is passed `(uint32_t) local_configuration`, the RAM address of the array, as the 64-bit value to program | any config_store that writes: the page receives that address and 0, so config_load's marker test (line 316) fails at the next boot and the learned filter is lost | program `local_configuration[0]` and `local_configuration[1]`, the marker and the packed word | not executed | Application.StoreAsWrittenForgets | Application.LoadAfterStore |
| Protoplasm/lowlevel/util.h:68 | the last step ORs `n & 1` into r after 63 left shifts of n, so the bit ORed in is always 0 | n = 6442450947, d = 3 gives 2147483648 instead of 2147483649 | OR in `(n >> 63) & 1` instead, giving n / d as the doc comment at util.h:40-47 says | not executed | Util.Div64Counterexample | Util.Div64Fixed |
