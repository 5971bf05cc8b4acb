# jpmidi: a verified model of the file-to-sound path

jpmidi plays Standard MIDI Files through the JACK audio server. This project models the whole path from the bytes
of a file to the MIDI events of each audio cycle, and the lock-free pool through which the command thread hands
control messages to the audio thread, and proves what the program is for: that a file played from start to end
sends exactly what it says, and that muting, soloing and stopping really silence.

The stages, in the order in which data flows:

- `Smf`, `Pairing`, `MidiFile` describe the file format as `midiread.c` understands it; `Reader` is the one-pass
  reader itself, a class with a byte count, push-back and a pending-note array, proved equal to that description.
  `NoteLengths` says what pairing note-ons with note-offs achieves, note by note.
- `Merge` is the time-ordered walk of `mdutil.c` over all tracks, proved to be the stable merge.
- `TempoMap` turns ticks into frames with the truncations and 32-bit arithmetic of `jpmidi.c`; `Score` is the frame
  index with its entry points and linked list; `Song` and `Loader` put merge, tempo and index together.
- `Timeline` says what should be heard, frame by frame, with no records or cursors. `Engine` is the `process`
  callback of `jackclient.c` with its cursor and prediction, proved to refine `Timeline` in every cycle. `Runs` and
  `Session` extend this to whole runs with relocations, stops and commands.
- `Nesting` describes overlapping notes of one channel and key that are released last-in first-out.
- `ControlPool` is the message pool used by one thread at a time, `Commands` the commands that use it. `Protocol` is
  the same pool under two threads, one load or store per step, with `ExactlyOnce` (delivery) and `SilentChannels`
  (mute and solo) proved for every interleaving, `Interleaving` for the scheduled messages of a cycle whose filters change
  under way, and `Uninterrupted` for the agreement with `Commands`.
- `EndToEnd` and `Performance` compose all stages.
- `WireFormat`, `Filtering` and `Channels` state in plain numbers what bytes are read as, what the filters let through and
  which channels have data, independently of the definitions the other modules share.

Conventions. Frames and ticks are unsigned 32-bit values (`Word`); the additions of the source that may wrap around do
so here. Casting a position of 2^32 frames or more from double to a frame number is undefined in the source; here it
wraps around, and the bounds on positions say when this does not arise. A frame is the exact floor of sample rate *
microseconds per quarter * ticks / (1000000 * time base), added to the frame of the last tempo change. Pointers to
pool messages and to notes of the current track are indices. The GLib tree is a map from frames to records visited in
ascending order, which the comparison function of the source provides while frames stay below 2^31
(`Score.CompareIsOrder`); loading therefore requires the last frame to be below 2^31. The JACK transport is an
arbitrary input of each cycle, and reserving an event appends to the output.

Where the program and its documentation disagree the model follows the program: the help text offers solo and mute for
channels 1 to 16 but 16 is refused (`SilentChannels.LastChannelNeverMuted`); a control message documented to go out in
the next cycle goes out in the current one exactly when the drain has yet to reach its slot
(`ExactlyOnce.SameCycleExactly`, with the run `ExactlyOnce.SameCycleRun`).

Properties that fail for some inputs are stated with such an input and with the exact condition under which they hold:

- Notes run to their first later note-off exactly when no two notes of a voice share one (`NoteLengths.NextOffExactly`).
- The pending notes of a voice stay in start order exactly when swap-removal moves no note over an older one of its voice
  (`Pairing.RemoveKeepsStartOrder`, `NoteLengths.StartOrderExactly`). As long as they do, notes are released last-in
  first-out (`Nesting.UndisturbedIsNested`), which means that each ends with the note-off that balances it
  (`Nesting.NestedExactly`); `Pairing.OlderNoteFirst` is an input for which this fails.
- Nothing sounds while the transport is not rolling exactly when Rolling is always left silently (`Runs.SilentExactly`);
  `Runs.SoundingAfterRolling` is a run for which it fails.
- Pitch-wheel data survives exactly when its low byte is below 64 (`Performance.PitchBytes`).
- A note-off falls on the tempo-map frame of its tick exactly when the stretch since the last tempo change before the
  note has as many frames, rounded at once, as its tempo segments rounded one by one (`TempoMap.NoteOffFrameExactly`):
  always when no tempo change lies inside the note (`TempoMap.NoteOffFrameAgrees`), never when the exact positions are
  further apart than the rounding inside the note (`TempoMap.NoteOffMisplaced`, `TempoMap.NoteOffFrameDiffers`), and
  sometimes in between (`TempoMap.NoteOffFrameSurvives`).

The format is that of the Standard MIDI-File Format Spec. 1.1: variable-length quantities in section 1.1, header chunks
in section 2.1, track chunks and running status in section 2.3.

`dafny verify dfyconfig.toml` checks the whole project.

## Model

| member | source | states |
|---|---|---|
| `Performance.FilePlaysItsEvents` | jpmidi/src/jackclient.c:105-213 | End to end, for every encoded file on port 0 whose tempo-map entries, taken track after track, are in order of time, overlapping notes included: the bytes read back as its song, and rolling from frame 0 past the last event, in any division into cycles, sends as a multiset exactly the messages its events say (note-on and note-off of every note except note-offs on channel index 9, every other channel message and sysex), each at its tempo-map frame (note-offs under the tempo of the note-on), ordered by time, nothing lost or repeated; the output is also the stateless window that PlayFile returns. |
| `Performance.SongIsGood` | jpmidi/src/midiread.c:65-102 | Such a file gives a song that loading accepts: every track sorted, on port 0, without tempo changes of its own, and a sorted tempo map of map events only. |
| `Performance.FilePlaysAsWritten` | jpmidi/src/jackclient.c:105-213 | When moreover no two notes of a channel and key share their first later note-off, the messages sent can be told from the events alone, without any pending array: each note ends with its first later note-off, or with the track. |
| `Performance.PlayEncodedFile` | jpmidi/src/jpmidi.c:81-125 | Playing the bytes of an encoded file past its last event returns, as a multiset and in order of time, exactly the messages its events say: reader, loader, pool and player in one contract. |
| `Performance.NoteHeard` | jpmidi/src/jpmidi.c:282-312 | A note-on event of the file makes the player send its note-on at the tempo-map frame and, except on channel index 9, its note-off at the end time of the note under the tempo of the note-on. |
| `Performance.OtherHeard` | jpmidi/src/jpmidi.c:313-409 | Every other event that adds an element makes the player send exactly its own message at the tempo-map frame, or nothing for text and SMPTE offsets. |
| `Performance.NoteElement` | jpmidi/src/midiread.c:544-595 | The element of a note starts at the sum of the deltas, ends at the event that releases it or with the track, and carries the note-off velocity into the note-off bytes. |
| `Performance.BytesSurvive` | jpmidi/src/jpmidi.c:313-409 | Aftertouch, controller, program, pressure and sysex bytes leave as they came in, with channel and status intact (sysex always under status 0xF0). |
| `Performance.PitchBytes` | jpmidi/src/jpmidi.c:378-395 | The bytes sent for a pitch-wheel message are those of the file if and only if the low byte is below 64, because the low byte is masked with 0x3F; for all other inputs the bytes sent are given. |
| `Performance.PlayFile` | jpmidi/src/jpmidi.c:81-125 | Read, load and play in one: a bad file gives the reader error; a loadable one gives exactly the stateless window of the song from frame 0 to the total length, whatever the lengths of the cycles. |
| `Performance.PlaySong` | jpmidi/src/jackclient.c:105-213 | Loading a song and rolling through it yields its window from frame 0. |
| `Performance.PlayCycles` | jpmidi/src/jackclient.c:156-212 | Consecutive rolling cycles, put on one time scale, add up to the window of the whole interval. |
| `Performance.PlayCycle` | jpmidi/src/jackclient.c:156-212 | A rolling cycle with nothing queued sends the window of its own frames. |
| `EndToEnd.GoodTrackResult` | jpmidi/src/midiread.c:173-231 | Reading one good track yields the expected elements, keeps port 0, and appends exactly the map entries of the track, with their times, to the tempo map. |
| `EndToEnd.InterpretMaps` | jpmidi/src/midiread.c:423-427 | After any prefix of the events the tempo map holds what it held before followed by the map entries of those events in file order with summed times. |
| `EndToEnd.AllMapsSorted` | jpmidi/src/midiread.c:424-427 | Map events from one track only are in order, whatever the other tracks contain, so such a file is one of those that play as written. |
| `EndToEnd.AllMapsAreMaps` | jpmidi/src/midiread.c:395-426 | The tempo map holds tempo, time-signature and key-signature entries only. |
| `EndToEnd.ExpectedGood` | jpmidi/src/midiread.c:349-354 | The elements of a good track are sorted by time, lie on channels 0 to 15 and include no tempo changes. |
| `EndToEnd.TracksAreExpected` | jpmidi/src/midiread.c:81-97 | Over all chunks of a good file the tempo map is the concatenation of the entries of all tracks, and dropping an empty first track of a format 1 file loses no message. |
| `Engine.Player.constructor` | jpmidi/src/jackclient.c:31-41 | The player starts stopped, with no cursor and an impossible expected frame, which is a valid state. |
| `Engine.Player.Process` | jpmidi/src/jackclient.c:105-213 | One cycle from any valid state, for any transport state, position and length: it sends all queued control messages, then sixteen all-sound-offs when rolling stops, then exactly the filtered events of frames pos to pos+nframes-1 in record order at offset frame-pos, and in all other cases the queued messages alone; the cursor invariant holds again (a non-null cursor is the first record at or after the expected frame) and the process array is empty. |
| `Engine.Player.SendControlMessages` | jpmidi/src/jackclient.c:128-140 | Every message waiting in the process array is sent once, in slot order, at offset 0, and given back. |
| `Engine.Player.Seek` | jpmidi/src/jackclient.c:161-169 | Seeking finds the first record of the whole list at or after the position, and NULL exactly when there is none. |
| `Engine.Player.SendRecord` | jpmidi/src/jackclient.c:181-207 | The events of one record that pass the sysex, solo, mute and channel-9 note-off filters are sent in order. |
| `Engine.Player.SendRecords` | jpmidi/src/jackclient.c:179-210 | From a cursor that is the first record at or after the position, the loop sends the window up to the expected frame and leaves a valid cursor. |
| `Engine.Player.Roll` | jpmidi/src/jackclient.c:160-212 | The rolling part sends exactly the window of the cycle on every path, including both early returns with a stale or absent cursor. |
| `Engine.CycleWritten` | jpmidi/src/jackclient.c:128-158 | What a cycle sends, message by message: the queued messages at offset 0; then, only in the step from Rolling to Stopped, exactly the sixteen messages 0xB0 + i, 120, 0; then, only when rolling, the window; in every other cycle the queued messages alone. |
| `Engine.CycleOrdered` | jpmidi/src/jackclient.c:131-210 | Across all three emission loops of a cycle with frames the offsets never decrease and lie in the cycle. |
| `Engine.WindowNext` | jpmidi/src/jackclient.c:179-210 | The record at the cursor continues the window with its own messages and nothing else. |
| `Engine.WindowEnd` | jpmidi/src/jackclient.c:177-179 | Once the next record is at or after the end of the cycle the window is complete. |
| `Engine.SilentWindow` | jpmidi/src/jackclient.c:171 | A position after every record has nothing to send. |
| `Filtering.AudibleWritten` | jpmidi/src/jackclient.c:189-199 | A message goes out if and only if it is a sysex and the switch is on, or its channel is not muted, nothing or that very channel is soloed, and it is not a note-off of channel index 9. |
| `Filtering.WindowWritten` | jpmidi/src/jackclient.c:179-210 | For any filter settings the window holds, in order and at their offsets, exactly those of all messages placed in its frames that pass this test, byte by byte. |
| `Filtering.FilteredWindow` | jpmidi/src/jackclient.c:189-196 | Against the window with open filters, any settings keep back exactly the sysex messages if the switch is off and the messages of channels muted or soloed away. |
| `Filtering.SoloWindow` | jpmidi/src/jackclient.c:195 | With solo on a channel the window is the open window restricted to sysex messages and that channel. |
| `Filtering.MutedWindow` | jpmidi/src/jackclient.c:196 | With any set of muted channels the window is the open window without exactly those channels. |
| `Filtering.NoSysexWindow` | jpmidi/src/jackclient.c:189-192 | With the switch off the window is the open window without exactly the sysex messages. |
| `Filtering.AfterSolo` | jpmidi/src/commands.c:204-218 | After solo k+1 only channel index k and sysex messages go out; solo 0 restores the open window. |
| `Filtering.AfterMute` | jpmidi/src/commands.c:242-280 | After mute k+1 exactly channel index k is missing; unmute k+1 restores the open window. |
| `Filtering.EffectWritten` | jpmidi/src/jpmidi.c:185-206 | Each command changes its own flag for arguments up to 15 and no other. |
| `Timeline.WindowSplit` | jpmidi/src/jackclient.c:179-210 | The window of an interval is the window of its first part followed by the window of its second part. |
| `Timeline.WindowShift` | jpmidi/src/jackclient.c:201 | Offsets within a cycle plus the position of the cycle give absolute frames. |
| `Timeline.WindowGap` | jpmidi/src/jackclient.c:177-210 | Frames without events, entry points included, contribute nothing. |
| `Timeline.WindowOrdered` | jpmidi/src/jackclient.c:179-210 | Offsets of scheduled messages never decrease and stay inside the window. |
| `Timeline.WindowGrows` | jpmidi/src/jackclient.c:179-210 | One more stored event adds its own message to exactly the windows that contain its frame. |
| `Timeline.WindowConserves` | jpmidi/src/jackclient.c:179-210 | The window over all frames is a permutation of all audible stored events: none lost, none repeated. |
| `Runs.RunSendsNoMore` | jpmidi/src/jackclient.c:128-210 | Over whole runs: as many messages are sent as have been queued and scheduled, plus sixteen for each step from Rolling to Stopped, and none besides; a run that never rolls sends the queued messages alone. |
| `Runs.ChoppingDoesNotMatter` | jpmidi/src/jackclient.c:161-210 | However an interval is cut into contiguous rolling cycles with fixed filters, the scheduled output in absolute frames is the window of the interval. |
| `Runs.WholeSongOnce` | jpmidi/src/jackclient.c:161-210 | Rolling over the whole song sends every audible event exactly once, in order of time. |
| `Runs.SoundOffsSilence` | jpmidi/src/jackclient.c:144-154 | All-sound-off on the first n channels ends every note on them and no other; sixteen end all notes. |
| `Runs.NotRollingCycle` | jpmidi/src/jackclient.c:128-158 | A cycle that is not rolling starts no note, and one that stops rolling ends every note. |
| `Runs.SilentWhenNotRolling` | jpmidi/src/jackclient.c:144-158 | In every run that leaves Rolling only for Stopped, no note sounds whenever the remembered state is not Rolling. |
| `Runs.LeavingRolling` | jpmidi/src/jackclient.c:128-158 | For any queued all-sound-offs and any sounding notes, a cycle that leaves Rolling silences everything if and only if the next state is Stopped or each sounding channel has an all-sound-off queued. |
| `Runs.QueuedSoundOffs` | jpmidi/src/jackclient.c:128-140 | Queued all-sound-offs end exactly the notes of their own channels. |
| `Runs.SilentExactly` | jpmidi/src/jackclient.c:128-158 | Over whole runs: nothing sounds whenever the transport is not rolling if and only if every departure from Rolling goes to Stopped or finds an all-sound-off queued for each sounding channel. |
| `Runs.SoundingAfterRolling` | jpmidi/src/jackclient.c:144-158 | A run from Rolling to Starting that leaves a note sounding. |
| `Session.RunSession` | jpmidi/src/jackclient.c:105-213 | Any mixture of cycles (any transport states, positions, lengths) and mute, unmute and solo commands between them: every cycle sends exactly its own output under the filters left by the commands, preceded by exactly the all-sound-offs queued since the cycle before (as a multiset); and nothing sounds while not rolling if and only if Rolling is always left silently. |
| `Session.RunCommand` | jpmidi/src/commands.c:204-280 | A command between cycles keeps the player valid, changes the filters as documented except that channel 16 is refused, and queues exactly the all-sound-offs of the channels it silences, as far as free messages go. |
| `Session.RunCycle` | jpmidi/src/jackclient.c:105-213 | A cycle of a session sends the output determined by its inputs and leaves nothing queued, with the whole pool free again. |
| `Score.CompareIsOrder` | jpmidi/src/jpmidi.c:145-152 | The tree comparison has the sign of the difference of two frames if and only if the difference fits 32 signed bits; equality is always recognised. |
| `Score.LastFrameIsMax` | jpmidi/src/jpmidi.c:224 | last_frame is the largest frame that holds an event, and 0 when there is none. |
| `Score.TimeRecord.constructor` | jpmidi/src/jpmidi.c:209-216 | A new record has its frame and tick, no events and no successor. |
| `Score.MidiRoot.constructor` | jpmidi/src/jpmidi.c:155-172 | A new root is empty, at 500000 microseconds per quarter, with sysex on, nothing soloed or muted. |
| `Score.MidiRoot.GetTime` | jpmidi/src/jpmidi.c:219-230 | The record of the frame of a tick: the existing one, or a new empty one that may raise last_frame; every other record stays. |
| `Score.MidiRoot.AddEvent` | jpmidi/src/jpmidi.c:232-235 | The event is appended to the record of its frame and no other record changes. |
| `Score.MidiRoot.Store` | jpmidi/src/jpmidi.c:286-306 | Storing an event keeps the index: each record sits under its own frame and holds exactly the events placed there in processing order, and last_frame stays the maximum. |
| `Score.MidiRoot.ProcessElement` | jpmidi/src/jpmidi.c:263-434 | One element stores two events per note, one per other channel or sysex element and none otherwise, with the given bytes and frames; updates the tempo state; marks its channel as having data; keeps the index. |
| `Score.MidiRoot.AddEntryPoint` | jpmidi/src/jpmidi.c:107-114 | A missing whole-second record is added empty; events and last_frame are untouched. |
| `Score.MidiRoot.AddEntryPoints` | jpmidi/src/jpmidi.c:104-114 | Afterwards the records are exactly the frames that hold events and the whole seconds before last_frame, and the added ones are empty. |
| `Score.MidiRoot.Traverse` | jpmidi/src/jpmidi.c:130-142 | Appending a record later than all linked ones keeps the list linked from head to tail in strictly ascending order. |
| `Score.MidiRoot.LinkNext` | jpmidi/src/jpmidi.c:119 | The visit takes the smallest remaining frame. |
| `Score.MidiRoot.LinkRecords` | jpmidi/src/jpmidi.c:116-119 | The threaded list visits every record once in strictly ascending frame order. |
| `Score.MidiRoot.SoloChannel` | jpmidi/src/jpmidi.c:185-190 | 0 turns solo off, 1 to 15 select, everything else is refused without effect. |
| `Score.MidiRoot.SetMuted` | jpmidi/src/jpmidi.c:193-206 | 1 to 15 change their own flag only; 16 and other values are refused without effect. |
| `Score.EntryPointPosition` | jpmidi/src/jpmidi.c:458-466 | The entry point of a frame is never past the first record at or after that frame, and is NULL only when every record lies before the frame; holds for empty songs, a last frame of 0 and multiples of the sample rate. |
| `Score.LoadedFrames` | jpmidi/src/jpmidi.c:107-142 | The list of a loaded song ascends strictly and contains the frame of every stored event. |
| `TempoMap.FrameEquation` | jpmidi/src/jpmidi.c:219-221 | The tempo equation in numbers: frames since the last tempo change times 1000000 times ticks per quarter is sample rate times microseconds per quarter times ticks, less than one frame short of it. |
| `TempoMap.FrameModulo` | jpmidi/src/jpmidi.c:219-221 | For all ticks: one before the last tempo change counts as 2^32 ticks later, and frames are taken modulo 2^32. |
| `TempoMap.ExactInMicroTicks` | jpmidi/src/jpmidi.c:267-281 | The exact position is the start plus sample rate times microseconds per quarter times ticks, summed over the tempo segments. |
| `TempoMap.TempoErrorBound` | jpmidi/src/jpmidi.c:219-221 | Against that sum, written out, the frame of a tick is never late and after k tempo changes less than k+1 frames early, and does not wrap while the sum is below 2^32 frames. |
| `Song.SongFrames` | jpmidi/src/jpmidi.c:155-172 | A song starts at frame 0 and tick 0 with 500000 microseconds per quarter and keeps to its tempo entries; without any it plays at that tempo throughout; its frames obey the same bounds. |
| `TempoMap.ChangeErrorBound` | jpmidi/src/jpmidi.c:273-281 | After k tempo changes the recorded frame of the last change lags its exact position by at most k frames. |
| `TempoMap.PositionBound` | jpmidi/src/jpmidi.c:219-221 | Inside a segment the conversion does not wrap around and adds less than one frame of lag to that of the segment. |
| `TempoMap.PositionsMonotone` | jpmidi/src/jpmidi.c:273-281 | Later positions of the map have frames at least as large across any number of tempo changes. |
| `TempoMap.TempoFrameMonotone` | jpmidi/src/jpmidi.c:219-221 | Tick to frame is monotone over the whole tempo map. |
| `TempoMap.NoteFramesOrdered` | jpmidi/src/jpmidi.c:286-299 | A note-on frame is the tempo-map frame of its tick and is never after its note-off frame. |
| `TempoMap.NoteOffFrameAgrees` | jpmidi/src/jpmidi.c:297-298 | A note-off is stored at the tempo-map frame of its tick whenever no tempo change lies strictly between note-on and note-off. |
| `TempoMap.NoteOffFrameExactly` | jpmidi/src/jpmidi.c:273-298 | A note-off falls on the tempo-map frame of its tick if and only if the stretch since the last tempo change before the note-on, rounded down at once under that tempo, has as many frames (modulo 2^32) as its tempo segments rounded down one by one. |
| `TempoMap.FramesAddUp` | jpmidi/src/jpmidi.c:273-281 | The frame of a tick is the start frame plus the frames of each tempo segment rounded down one by one, modulo 2^32. |
| `TempoMap.NoteOffMisplaced` | jpmidi/src/jpmidi.c:297-298 | With k tempo changes inside a note, the distance of its note-off from the tempo-map frame is the difference between the exact position under the tempo of the note-on and the exact position of the map, up to less than one frame on one side and less than k+1 on the other; a difference at least that large misplaces the note-off in its direction. Tempo changes before the note do not enter. |
| `TempoMap.NoteOffFrameSurvives` | jpmidi/src/jpmidi.c:297-298 | A concrete note with a tempo change inside whose note-off still falls on the tempo-map frame, by rounding. |
| `TempoMap.NoteOffFrameDiffers` | jpmidi/src/jpmidi.c:297-298 | A concrete note across a tempo change whose note-off frame is not the tempo-map frame. |
| `Song.RunningTempoIsLookup` | jpmidi/src/jpmidi.c:98-102 | Processing the merged elements with the running tempo state places every event where a stateless lookup in the tempo map places it, because the map is track 0 and wins ties. |
| `Song.PlacedByTempoMap` | jpmidi/src/jpmidi.c:96-102 | The stored stream of a song is its merged elements, each placed by tempo-map lookup. |
| `Song.MergeKeepsAmounts` | jpmidi/src/mdutil.c:125-164 | For every message, the merge changes the order but not how often it is sent. |
| `Song.EveryElementCounts` | jpmidi/src/jpmidi.c:96-102 | Each message occurs in the whole song as often as the elements of all tracks send it one by one: conservation over merge, tempo map and storing, overlapping notes included. |
| `Song.RootsOnlyFirst` | jpmidi/src/mdutil.c:134-139 | Only the first processed element is a root, so the time base is set before anything is converted. |
| `Loader.ProcessedChannels` | jpmidi/src/jpmidi.c:282-380 | With all tracks on port 0 every processed channel element indexes the 16 channels. |
| `Loader.ProcessOne` | jpmidi/src/jpmidi.c:101 | Processing one more element extends the stream and the tempo state by that element. |
| `Loader.ProcessAll` | jpmidi/src/jpmidi.c:98-102 | The loop processes everything the sequence hands out, in order. |
| `Loader.LoadFile` | jpmidi/src/jpmidi.c:81-125 | Loading yields a root that is indexed, threaded and unfiltered, holds exactly the stream of the song, and has data flags on exactly the channels of the processed elements. |
| `Channels.DataOfFile` | jpmidi/src/jpmidi.c:282-380 | A loaded file has data on a channel if and only if some heard note-on or other channel message of the file is on it. |
| `Channels.SoloLoaded` | jpmidi/src/commands.c:204-240 | Soloing a channel of a loaded song queues one all-sound-off for every other channel with data and none for any other. |
| `Merge.NextTrack` | jpmidi/src/mdutil.c:141-154 | The next track is the one with the earliest head, the lowest on ties, and there is none exactly when all are used up. |
| `Merge.OrderComplete` | jpmidi/src/mdutil.c:125-164 | Exactly the elements not yet taken come out, in as many calls as there are such elements. |
| `Merge.OrderKeepsTracks` | jpmidi/src/mdutil.c:155-159 | Each track comes out in its own order, sorted or not, so no element comes out twice. |
| `Merge.OrderSorted` | jpmidi/src/mdutil.c:141-154 | When every track is sorted the output is sorted by time and ties go to the lowest track. |
| `Merge.MergeIsTheStableMerge` | jpmidi/src/mdutil.c:88-164 | For sorted tracks a list is the walk of the source if and only if it holds all elements in stable time order. |
| `Merge.SequenceState.constructor` | jpmidi/src/mdutil.c:88-118 | A new sequence has the root and then the merge of all tracks to come. |
| `Merge.SequenceState.Next` | jpmidi/src/mdutil.c:125-164 | Each call hands out the head of what is to come and leaves the tail; when nothing is left it returns NULL for ever. |
| `Reader.MidiReader.constructor` | jpmidi/src/midiread.c:73-77 | The reader starts at the first byte on port 0 with an empty tempo map and no pending notes. |
| `Reader.MidiReader.ReadInt` | jpmidi/src/midiread.c:440-460 | n bytes, most significant first, in 32-bit arithmetic; the chunk count moves with the file position; a short file is an error. |
| `Reader.MidiReader.ReadVar` | jpmidi/src/midiread.c:500-517 | Seven bits a byte until a byte below 0x80; the chunk count moves with the position. |
| `Reader.MidiReader.PutBack` | jpmidi/src/midiread.c:526-531 | Position and chunk count go back by one and the byte is read again. |
| `Reader.MidiReader.ReadData` | jpmidi/src/midiread.c:470-490 | The next length bytes, or an error when there are fewer. |
| `Reader.MidiReader.SkipChunk` | jpmidi/src/midiread.c:604-609 | The rest of the chunk by its count is passed over, or an error when the file ends first. |
| `Reader.MidiReader.SaveNote` | jpmidi/src/midiread.c:544-558 | A new note has length -1 and joins the pending array. |
| `Reader.MidiReader.FinishNote` | jpmidi/src/midiread.c:569-595 | The backward search, length and swap-removal amount to finishing the last pending note of the key and channel. |
| `Reader.MidiReader.HandleMeta` | jpmidi/src/midiread.c:367-430 | Which meta events give an element, a tempo-map entry at the current time, or a new port; fails exactly when the event is too short for the bytes taken. |
| `Reader.MidiReader.HandleTwoBytes` | jpmidi/src/midiread.c:268-299 | Note-off, note-on (velocity 0 ends a note), aftertouch, controller and pitch wheel have the effect of their message. |
| `Reader.MidiReader.HandleChannelMessage` | jpmidi/src/midiread.c:266-321 | A channel message is read and applied as specified, one data byte for program and pressure and two otherwise. |
| `Reader.MidiReader.HandleSystemMessage` | jpmidi/src/midiread.c:335-342 | A sysex or meta event is read with its length and applied as specified. |
| `Reader.MidiReader.HandleStatus` | jpmidi/src/midiread.c:242-355 | Every status byte: the rest of the event is read and applied, the end of track skips to the end of the chunk, a data byte as status is an error. |
| `Reader.MidiReader.ReadEvent` | jpmidi/src/midiread.c:197-216 | Delta time, status or running status with push-back, and event; each round strictly advances the position and the chunk count by the same amount. |
| `Reader.MidiReader.ReadEvents` | jpmidi/src/midiread.c:196-216 | The loop reads the events of the chunk, and the chunk count always equals the bytes consumed since the body began; it ends with success or a format error. |
| `Reader.MidiReader.FinishNotes` | jpmidi/src/midiread.c:218-226 | The restart loop terminates and finishes every pending note. |
| `Reader.MidiReader.ReadTrack` | jpmidi/src/midiread.c:173-231 | A track chunk yields the elements of its events and leaves port, tempo map and an empty pending array behind. |
| `Reader.MidiReader.SkipExtra` | jpmidi/src/midiread.c:157-161 | Extra header bytes are passed over as far as there are any, without an error at the end of the file. |
| `Reader.MidiReader.ReadHead` | jpmidi/src/midiread.c:133-164 | Header chunk: magic number, length of at least 6, and three 16-bit fields, with the two errors of the source. |
| `Reader.MidiReader.MidiRead` | jpmidi/src/midiread.c:64-102 | The one-pass imperative reader returns exactly what the functional decoder returns, on every input, errors included. |
| `Smf.VarRoundTrip` | jpmidi/src/midiread.c:500-517 | Every variable-length quantity below 2^31 reads back as itself and stops at its last byte. |
| `Smf.BodyRoundTrip` | jpmidi/src/midiread.c:242-355 | The encoding of every encodable message reads back as that message. |
| `Smf.EventRoundTrip` | jpmidi/src/midiread.c:199-215 | An event with or without its status byte, as running status permits, reads back as itself with the right status in force. |
| `Smf.TrackRoundTrip` | jpmidi/src/midiread.c:196-216 | For every legal event list and every legal choice of running status the encoded chunk reads back as those events and reading stops exactly at the end of the chunk. |
| `MidiFile.IntRoundTrip` | jpmidi/src/midiread.c:440-460 | Big-endian integers of up to four bytes below 2^31 read back as themselves. |
| `MidiFile.ChunkRoundTrip` | jpmidi/src/midiread.c:184-216 | A well-formed track chunk reads back as its events and consumes exactly 8 plus chunk_size bytes, so the next header is aligned. |
| `MidiFile.TracksRoundTrip` | jpmidi/src/midiread.c:81-94 | Any number of chunks reads back as the tracks they mean, port and tempo map carrying over, an empty first track of format 1 dropped. |
| `MidiFile.FileRoundTrip` | jpmidi/src/midiread.c:64-102 | Every encoded file reads back as the song its event lists mean. |
| `WireFormat.VarWritten` | jpmidi/src/midiread.c:500-517 | A variable-length quantity of any number of bytes, leading zeros or not, is its base-128 value in 32 bits. |
| `WireFormat.VarFails` | jpmidi/src/midiread.c:507-514 | It cannot be read if and only if no byte below 0x80 is left. |
| `WireFormat.FourBytes` | jpmidi/src/midiread.c:440-460 | Four bytes are read most significant first in 32-bit arithmetic. |
| `WireFormat.IntFails` | jpmidi/src/midiread.c:453-454 | An integer cannot be read if and only if there are too few bytes. |
| `WireFormat.ChannelMessages` | jpmidi/src/midiread.c:268-321 | The status bytes 0x80 to 0xEF and their data bytes, kind by kind. |
| `WireFormat.SysexMessages` | jpmidi/src/midiread.c:334-342 | Any status from 0xF0 to 0xFE takes a length and as many data bytes. |
| `WireFormat.MetaMessages` | jpmidi/src/midiread.c:323-340 | 0x2F ends the track at once; any other meta event takes a length and as many data bytes, and is refused only when shorter than the bytes taken from a tempo, SMPTE offset, time or key signature. |
| `WireFormat.StandardMeta` | jpmidi/src/midiread.c:367-430 | The standard meta events (tempo of 3 bytes, SMPTE offset of 5, time signature of 4, key signature of 2, all others of any length) can be encoded and read back, whatever their data. |
| `WireFormat.BodyFails` | jpmidi/src/midiread.c:344-346 | A data byte without a status in force and a missing data byte are errors. |
| `WireFormat.StatusWritten` | jpmidi/src/midiread.c:202-213 | A byte of 0x80 and above is a new status; any other is the first byte of an event under the status in force, whichever that is. |
| `WireFormat.TrackStops` | jpmidi/src/midiread.c:197-216 | Reading stops as soon as the chunk is used up, also when its last event runs past the end; after the end-of-track event the rest of the chunk is passed over and has to be there. |
| `WireFormat.SilentNoteOn` | jpmidi/src/midiread.c:276-287 | A note-on of velocity 0 has the effect of a note-off; any other starts a pending note on device channel 16 * port + channel. |
| `WireFormat.TempoMessage` | jpmidi/src/midiread.c:395-400 | The three bytes of a tempo event append exactly that many microseconds per quarter at the current time. |
| `WireFormat.MetaEffects` | jpmidi/src/midiread.c:374-427 | Signatures go to the tempo map, texts and SMPTE offsets to the track, a port event sets the port, and no other meta event has any effect. |
| `WireFormat.LengthWritten` | jpmidi/src/midiread.c:582-590 | A note that would end before it starts gets length 0. |
| `WireFormat.HeaderWritten` | jpmidi/src/midiread.c:133-164 | A header with any other magic number or a length below 6 is refused; a longer one is accepted and its extra bytes passed over, as far as there are any. |
| `WireFormat.ChunkWritten` | jpmidi/src/midiread.c:183-197 | A chunk with any other magic number is refused, one of length 0 or at least 2^31 has no events, any other is read for as many bytes as it says. |
| `WireFormat.HeadersFail` | jpmidi/src/midiread.c:143-155 | A file or chunk that ends inside its first numbers is refused. |
| `WireFormat.FileWritten` | jpmidi/src/midiread.c:64-102 | A file is refused for its header or its first bad chunk, has no tracks when the header says none or fewer, and keeps the third header field as its ticks per quarter. |
| `WireFormat.TracksWritten` | jpmidi/src/midiread.c:81-94 | Only the first track of a format 1 file, and only when it has no elements, is left out of the song. |
| `Pairing.FindPending` | jpmidi/src/midiread.c:579-581 | The match is the last pending note of the key and channel, and there is none exactly when no pending note matches. |
| `Pairing.FinishEffect` | jpmidi/src/midiread.c:569-595 | A note-off finishes exactly one pending note of its key and channel and leaves every other element and pending note alone, despite swap-removal; without a match it changes nothing. |
| `Pairing.InterpretKeepsPending` | jpmidi/src/midiread.c:544-595 | After any events the pending array holds each unfinished note exactly once and nothing else. |
| `Pairing.FinishAllEffect` | jpmidi/src/midiread.c:218-226 | At the end of a track exactly the pending notes get the time from their start to now, and the array is empty. |
| `Pairing.EveryNoteFinished` | jpmidi/src/midiread.c:173-231 | However note-ons and note-offs interleave, a track ends with no pending note and no note keeps length -1. |
| `Pairing.OlderNoteFirst` | jpmidi/src/midiread.c:591 | A concrete overlap in which swap-removal makes the older of two equal notes be released first. |
| `Pairing.RemoveKeepsStartOrder` | jpmidi/src/midiread.c:591 | Swap-removal keeps the pending notes of each channel and key in start order if and only if the moved entry jumps over none of its own channel and key. |
| `Pairing.FinishKeepsStartOrder` | jpmidi/src/midiread.c:577-592 | In start order a note-off finishes the newest pending note of its channel and key, and the order survives if and only if the moved entry jumps over none of its own. |
| `NoteLengths.StateAt` | jpmidi/src/midiread.c:196-200 | The current time after n events is the sum of their deltas, and the port is the last one selected. |
| `NoteLengths.OpenNotes` | jpmidi/src/midiread.c:544-595 | The pending notes are exactly those that have not been released yet. |
| `NoteLengths.TrackElements` | jpmidi/src/midiread.c:173-231 | For every track: reading yields one element per element-making event, in order, stamped with summed deltas, and each note lasts until the event that releases it or the end of the track. |
| `NoteLengths.ReleasesItsVoice` | jpmidi/src/midiread.c:577-592 | A note-off releases only a note of its own channel and key, started before it and not released before. |
| `NoteLengths.ReleasesOneNote` | jpmidi/src/midiread.c:577-592 | No note-off releases two notes. |
| `NoteLengths.ReleasesSome` | jpmidi/src/midiread.c:577-592 | No note-off is wasted: while a note of its channel and key is unreleased it releases one. |
| `NoteLengths.ReleaseIsNextOff` | jpmidi/src/midiread.c:569-595 | When no two notes of a channel and key share their first later note-off, each note runs to that note-off, or to the end of the track. |
| `NoteLengths.NextOffExactly` | jpmidi/src/midiread.c:569-595 | All notes of a track run to their first later note-offs if and only if no two notes of a channel and key share one. |
| `NoteLengths.StartOrderExactly` | jpmidi/src/midiread.c:577-592 | Throughout a track the pending notes of each channel and key stand in start order if and only if no note-off moves a note over an older one of its own channel and key. |
| `NoteLengths.NewestReleased` | jpmidi/src/midiread.c:577-592 | As long as no note-off has done so, every note-off releases the newest open note of its channel and key. |
| `Nesting.NestedExactly` | jpmidi/src/midiread.c:577-592 | Notes of each channel and key are released last-in first-out if and only if every note ends with the note-off that balances it, the first one by which note-offs of its channel and key outnumber later note-ons, or with the track when there is none. |
| `Nesting.UndisturbedIsNested` | jpmidi/src/midiread.c:577-592 | When no note-off moves a note over an older one of its own channel and key, notes are released last-in first-out and each ends with its balancing note-off. |
| `Nesting.DepthCounts` | jpmidi/src/midiread.c:577-592 | Under last-in first-out release, the surplus of note-ons over note-offs since an open note counts the later notes still open. |
| `ControlPool.RoomForMessage` | jpmidi/src/jackclient.c:256-267 | Whenever a message is in hand, an array of N slots has an empty one. |
| `ControlPool.AllInArray` | jpmidi/src/jackclient.c:236-250 | When no message is queued or in hand, every slot of the available array is full again. |
| `ControlPool.TakeFirstWaiting` | jpmidi/src/jackclient.c:309-317 | Taking the first queued message leaves the others waiting in the same order. |
| `ControlPool.Pool.constructor` | jpmidi/src/jackclient.c:272-280 | After setup every message is in exactly one available slot and nothing is queued. |
| `ControlPool.Pool.Reserve` | jpmidi/src/jackclient.c:236-250 | The first available message is taken; NULL exactly when none is available. |
| `ControlPool.Pool.Queue` | jpmidi/src/jackclient.c:256-267 | The message goes into the first empty process slot, which always exists. |
| `ControlPool.Pool.Return` | jpmidi/src/jackclient.c:283-294 | The message goes into the first empty available slot, which always exists. |
| `ControlPool.Pool.ProcessInit` | jpmidi/src/jackclient.c:299-302 | Draining starts at slot 0. |
| `ControlPool.Pool.ProcessNext` | jpmidi/src/jackclient.c:305-319 | The next queued message in slot order is handed out and its slot emptied; NULL exactly when no slot is left. |
| `Protocol.StepKeepsPool` | jpmidi/src/jackclient.c:236-319 | Every load or store of either thread keeps every message in exactly one place and every scan truthful. |
| `Protocol.Run` | jpmidi/src/jackclient.c:236-319 | In every interleaving of the two threads, for every pool size above 0, each message is in exactly one place: an available slot, a process slot, or held by one thread. |
| `Protocol.NoScanFails` | jpmidi/src/jackclient.c:256-294 | In every run a thread looking for an empty slot still has one ahead of it, so no held message is dropped. |
| `ExactlyOnce.CmdKeepsIntact` | jpmidi/src/commands.c:228-236 | Fields are written only while a message is not in flight, so a queued message always carries the bytes its command wrote. |
| `ExactlyOnce.RunDelivers` | jpmidi/src/jackclient.c:129-140 | In every run no message is lost, duplicated, altered or delayed by more than one cycle. |
| `ExactlyOnce.ExactlyOnceDelivery` | jpmidi/src/jackclient.c:129-140 | Each queued message has been delivered exactly once with its own bytes in the cycle of queueing or the next, or is on its way in exactly one place, and never both. |
| `ExactlyOnce.DeliveredWhenDue` | jpmidi/src/jackclient.c:305-319 | In every run, from the store of a queued message on: it goes out in the cycle fixed at that moment by the slot and the position of the drain. |
| `ExactlyOnce.SameCycleExactly` | jpmidi/src/jackclient.c:305-319 | A message goes out in the cycle in which it was stored if and only if the drain of that cycle had yet to reach its slot, and in the next cycle otherwise; until it is out that cycle is not over. |
| `ExactlyOnce.SameCycleRun` | jpmidi/src/jackclient.c:129-140 | A run in which a message goes out in the very cycle in which it was queued. |
| `ExactlyOnce.CycleDrainsAll` | jpmidi/src/jackclient.c:305-319 | When a cycle has drained the process array, every message still waiting was queued during that cycle. |
| `SilentChannels.QuietIsBlocked` | jpmidi/src/jackclient.c:194-196 | A channel whose all-sound-off was delivered and whose mute or solo stands has its filter flag set, because flags are set before messages are queued. |
| `SilentChannels.RunQuiet` | jpmidi/src/commands.c:216-264 | In every run the flags back the queued messages, and quiet channels have no voice and no event past the checks. |
| `SilentChannels.SilencedStaysSilent` | jpmidi/src/commands.c:216-264 | In every run, once the all-sound-off of a mute has been delivered and until an unmute, or that of a solo and until solo is turned off or moved to that very channel, the channel is blocked, sounds no note, and no message of it is about to be sent. |
| `SilentChannels.LastChannelNeverMuted` | jpmidi/src/jpmidi.c:185-206 | Channel index 15 can be neither muted nor soloed by any sequence of commands, although the help text offers 1 to 16. |
| `Interleaving.InterleavedWindow` | jpmidi/src/jackclient.c:179-210 | Commands may change the filters at any moment of a cycle: what the cycle sends is a subsequence of the unfiltered window, an event whose filter flags have not changed during the cycle is sent exactly when the filters at its start let it through, and if no flag has changed the cycle sends exactly its window. |
| `Interleaving.RunFaithful` | jpmidi/src/jackclient.c:187-199 | In every interleaving, every event played so far has been decided on by its own flags, read one by one. |
| `Interleaving.WindowIsKept` | jpmidi/src/jackclient.c:179-210 | The window is what the filters keep of the unfiltered window. |
| `Uninterrupted.CommandUninterrupted` | jpmidi/src/commands.c:204-280 | The single steps of a command, run without interruption, change flags, pool and queue exactly as the command does as a method. |
| `Uninterrupted.SendAll` | jpmidi/src/commands.c:223-238 | The steps for a list of channels queue all-sound-offs, lowest first, until the free messages run out. |
| `Uninterrupted.SendOne` | jpmidi/src/commands.c:228-236 | The steps from the search for a message to the store queue one all-sound-off and use up one free message. |
| `Commands.SendSoundOff` | jpmidi/src/commands.c:257-264 | Succeeds exactly when a message can be reserved, and then adds one all-sound-off of the channel to those waiting. |
| `Commands.ComMute` | jpmidi/src/commands.c:242-265 | Arguments 1 to 15 mute; 1 to 16 queue one all-sound-off if a message is free; everything else has no effect. |
| `Commands.ComUnmute` | jpmidi/src/commands.c:267-280 | Arguments 1 to 15 clear their own mute flag; everything else has no effect. |
| `Commands.ComSolo` | jpmidi/src/commands.c:204-240 | 0 to 15 set or clear solo; 1 to 16 queue all-sound-offs for every other channel with data, lowest first, until the free messages run out. |
| `Commands.WaitingInsert` | jpmidi/src/jackclient.c:256-267 | A queued message is added to those waiting and none of them is displaced. |
| `Commands.SilencedWritten` | jpmidi/src/commands.c:223-226 | The channels a solo silences are, ascending and each once, those with data other than the soloed one. |
| `Commands.OffMessagesWritten` | jpmidi/src/commands.c:232-235 | Each all-sound-off is the three bytes 0xB0 + channel, 120, 0. |
| `Commands.ReservableWritten` | jpmidi/src/jackclient.c:236-250 | As many messages can be reserved as there are full slots. |

## Left out

- JACK, GLib, readline and socket calls: the transport is an input, the port buffer an output sequence (reserving never fails), allocation and freeing are not modelled.
- `jpmidi/src/tcpserver.c`, `jpmidi/src/cmdline.c`, `jpmidi/src/main.c`: plumbing between sockets, terminal and commands.
- Command-name matching, printing, dump, status, connect, locate and the sysex switch of `jpmidi/src/commands.c`.
- The sequence order of the tree: GLib is trusted to visit keys in the order of a comparison function that is a total order on the keys used.
- Double rounding in samples_per_tick: frames are exact integer floors, computed from the tempo when needed instead of from a stored quotient.
- final_time and endtime, track counters, and the use of the tick stored in a record: nothing plays by them.
- Payloads of text, SMPTE, time-signature and key-signature events are kept as bytes and not interpreted.
- Memory errors: a negative data length is a format error, where the program copies out of bounds; signed overflow is two's complement.
- Ports other than 0 are read but not loaded, because the device channel indexes a 16-entry array; SMPTE time bases are taken as tick counts.
- Tempo-map entries out of order: entries of several tracks are appended in file order, so the map may be unsorted; reading and pairing cover this, placing by lookup does not.
- Weak memory: the two threads interleave under sequential consistency.
- Listeners of file loading and unloading, which the program leaves unfinished.
- `unsigned long` is 64 bits wide, so no 32-bit time equals the sentinel of the merge.
- ProcessElement: does not keep the link between the two events of a note, which nothing reads, nor the program name of a channel, which is only displayed.
- SetMuted: excludes argument 0, for which the program writes before its array of channels; the commands never pass it.
- HandleMeta: a meta event shorter than the bytes taken from it is an error here, where the program reads past the data.
- RunSession: commands run between cycles here; their interleaving with a cycle is the subject of `Protocol` and `Interleaving`.
