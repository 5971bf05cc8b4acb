/** The whole of it: playing an encoded file from start to end sends what its events say, each message once. */
module Performance {
  import opened Common
  import opened Elements
  import opened TempoMap
  import opened Timeline
  import opened Smf
  import opened Pairing
  import opened NoteLengths
  import opened MidiFile
  import opened Song
  import opened Score
  import opened ControlPool
  import opened Engine
  import R = Runs
  import opened Loader
  import Reader
  import opened EndToEnd

  // ----- what the events of a file say, without records or cycles

  /** Which event ends a note: the note-off that finds it in the reader's pending array, or simply the first later
      note-off of its channel and key. */
  datatype EndRule = PendingArray | FirstNoteOff

  ghost function NoteEnd(events: seq<Timed>, i: nat, rule: EndRule): nat
    requires i < |events| && IsNoteOn(events[i].message)
  {
    if rule == FirstNoteOff then NextOff(0, events, i) else Release(0, events, i)
  }

  /** The time at which a note released by event `off` ends; the end of the track when there is no such event. */
  function EndTime(events: seq<Timed>, off: nat): int {
    if off < |events| then TimeAt(events, off + 1) else TimeAt(events, |events|)
  }

  function EndVelocity(events: seq<Timed>, off: nat): Byte {
    if off < |events| && IsNoteOff(events[off].message) then events[off].message.velocity else 0
  }

  /** The messages that one event of a track makes the player send, with absolute frames. A note-on brings the
      note-off of its note along, except on channel index 9; both use the tempo in force at the note-on. */
  ghost function EventMessages(ts: TempoState, maps: seq<Element>, events: seq<Timed>, i: nat, rule: EndRule): seq<Emit>
    requires ts.timeBase > 0 && IsTempoMap(maps) && i < |events|
  {
    var tick, m := U32(TimeAt(events, i + 1)), events[i].message;
    var frame := TempoFrame(ts, maps, tick);
    if IsNoteOn(m) then
      var off := NoteEnd(events, i, rule);
      var offFrame := FrameAt(TempoAt(ts, maps, tick), U32(EndTime(events, off)));
      [Emit(frame, [0x90 + m.channel, m.key, m.velocity])] +
      (if m.channel == 9 then [] else [Emit(offFrame, [0x80 + m.channel, m.key, EndVelocity(events, off)])])
    else if m.TouchMsg? || m.ControlMsg? || m.ProgramMsg? || m.PressureMsg? then
      [Emit(frame, [StatusOf(m)] + EncodeBody(m))]
    else if m.PitchMsg? then
      [Emit(frame, [StatusOf(m), m.low % 64, if m.low >= 128 && m.high % 2 == 0 then m.high + 1 else m.high])]
    else if m.SysexMsg? then
      [Emit(frame, [0xF0] + m.data)]
    else
      []
  }

  ghost function TrackMessages(ts: TempoState, maps: seq<Element>, events: seq<Timed>, n: nat, rule: EndRule): seq<Emit>
    requires ts.timeBase > 0 && IsTempoMap(maps) && n <= |events|
  {
    if n == 0 then [] else TrackMessages(ts, maps, events, n - 1, rule) + EventMessages(ts, maps, events, n - 1, rule)
  }

  ghost function FileMessages(ts: TempoState, maps: seq<Element>, chunks: seq<Chunk>, rule: EndRule): seq<Emit>
    requires ts.timeBase > 0 && IsTempoMap(maps)
  {
    if chunks == [] then []
    else TrackMessages(ts, maps, chunks[0].events, |chunks[0].events|, rule) + FileMessages(ts, maps, chunks[1..], rule)
  }

  // ----- one event

  /** Pitch-wheel data survives exactly when the low byte is below 64: its upper bits are masked away. */
  lemma PitchBytes(time: Word, ch: ChannelIndex, low: Byte, high: Byte)
    ensures var el := MakeElement(time, Device(0, ch), PitchMsg(ch, low, high)).value;
            OnBytes(el) == [0xE0 + ch, low % 64, if low >= 128 && high % 2 == 0 then high + 1 else high] &&
            (OnBytes(el) == [StatusOf(PitchMsg(ch, low, high))] + EncodeBody(PitchMsg(ch, low, high)) <==> low < 64)
  {
    hide WheelValue;
    WheelBytes(low, high);
    var el, m := MakeElement(time, Device(0, ch), PitchMsg(ch, low, high)).value, PitchMsg(ch, low, high);
    if low >= 64 {
      assert OnBytes(el)[1] != ([StatusOf(m)] + EncodeBody(m))[1];
    }
  }

  lemma WheelBytes(low: Byte, high: Byte)
    ensures WheelValue(low, high) % 64 == low % 64
    ensures WheelValue(low, high) / 128 % 256 == if low >= 128 && high % 2 == 0 then high + 1 else high
  {
    var h: Byte := if low >= 128 && high % 2 == 0 then high + 1 else high;
    assert WheelValue(low, high) == low % 128 + 128 * h;
    DivModUnique(WheelValue(low, high), 128, h, low % 128);
    DivModUnique(WheelValue(low, high), 64, 2 * h + low % 128 / 64, low % 64);
  }

  /** Channel messages other than notes and the pitch wheel, and plain system exclusives, go out as they came in. */
  lemma BytesSurvive(time: Word, m: Smf.Message)
    requires m.TouchMsg? || m.ControlMsg? || m.ProgramMsg? || m.PressureMsg? || m.SysexMsg?
    ensures var el := MakeElement(time, ChannelOf(0, m), m).value;
            OnBytes(el) == if m.SysexMsg? then [0xF0] + m.data else [StatusOf(m)] + EncodeBody(m)
  {
  }

  lemma NoteForm(events: seq<Timed>, i: nat)
    requires i < |events| && Timely(events) && PortZero(events) && IsNoteOn(events[i].message)
    ensures var m, off, start := events[i].message, Release(0, events, i), TimeAt(events, i + 1);
            FinalElement(0, events, i) ==
            Note(U32(start), m.channel, m.key, m.velocity, EndTime(events, off) - start, EndVelocity(events, off)) &&
            0 <= start <= EndTime(events, off) < TWO_31
  {
    hide Releases, FindPending, ReadUpTo, U32, TimeAt;
    var n, off := |events|, Release(0, events, i);
    PortStaysZero(events, i);
    TimesGrow(events, i + 1, n);
    if off < n {
      ReleaseIsNoteOff(0, events, i);
      TimesGrow(events, i + 1, off + 1);
      TimesGrow(events, off + 1, n);
    }
  }

  /** A finished note: it starts at its own time and ends when it is released, or with the track. */
  lemma NoteElement(events: seq<Timed>, i: nat)
    requires i < |events| && Timely(events) && PortZero(events) && IsNoteOn(events[i].message)
    ensures var el, m := FinalElement(0, events, i), events[i].message;
            el.Note? && el.time == U32(TimeAt(events, i + 1)) &&
            OnBytes(el) == [0x90 + m.channel, m.key, m.velocity] &&
            OffBytes(el) == [0x80 + m.channel, m.key, EndVelocity(events, Release(0, events, i))] &&
            OffTick(el) == U32(EndTime(events, Release(0, events, i)))
  {
    hide Release, TimeAt, FinalElement, Timely, PortZero, EndTime, EndVelocity;
    NoteForm(events, i);
  }

  lemma OtherElement(events: seq<Timed>, i: nat)
    requires i < |events| && Timely(events) && PortZero(events) && AddsElement(events[i].message) && !IsNoteOn(events[i].message)
    ensures var el, m := FinalElement(0, events, i), events[i].message;
            el == MakeElement(U32(TimeAt(events, i + 1)), ChannelOf(0, m), m).value &&
            el.time == U32(TimeAt(events, i + 1)) && !el.Note?
  {
    hide WheelValue, U32;
    PortStaysZero(events, i);
  }

  lemma OpenAudible(d: MidiData)
    ensures Audible(AllOpen(), d) <==> d[0] != 0x89
  {
  }

  lemma SentSingly(f: Filters, p: Placed, q: Placed)
    ensures AllSent(f, []) == [] && AllSent(f, [p]) == MessageOf(f, p)
    ensures AllSent(f, [p, q]) == MessageOf(f, p) + MessageOf(f, q)
  {
    assert [p][..0] == [];
    assert [p, q][..1] == [p];
  }

  /** What the element of an event sends is what the event says. */
  lemma NoteHeard(ts: TempoState, maps: seq<Element>, events: seq<Timed>, i: nat)
    requires ts.timeBase > 0 && IsTempoMap(maps) && i < |events| && Timely(events) && PortZero(events)
    requires IsNoteOn(events[i].message)
    ensures var el := FinalElement(0, events, i);
            AllSent(AllOpen(), EventsOf(TempoAt(ts, maps, el.time), el)) == EventMessages(ts, maps, events, i, PendingArray)
  {
    hide FinalElement, TempoAt, FrameAt, OnBytes, OffBytes, OffTick, EndVelocity, EndTime, Release, Audible, AllSent, Timely, IsTempoMap;
    NoteElement(events, i);
    var el := FinalElement(0, events, i);
    var now := TempoAt(ts, maps, el.time);
    var on, off := Placed(FrameAt(now, el.time), Event(OnBytes(el), el)), Placed(FrameAt(now, OffTick(el)), Event(OffBytes(el), el));
    SentSingly(AllOpen(), on, off);
    OpenAudible(OnBytes(el));
    OpenAudible(OffBytes(el));
  }

  lemma OtherHeard(ts: TempoState, maps: seq<Element>, events: seq<Timed>, i: nat)
    requires ts.timeBase > 0 && IsTempoMap(maps) && i < |events| && Timely(events) && PortZero(events)
    requires AddsElement(events[i].message) && !IsNoteOn(events[i].message)
    ensures var el := FinalElement(0, events, i);
            AllSent(AllOpen(), EventsOf(TempoAt(ts, maps, el.time), el)) == EventMessages(ts, maps, events, i, PendingArray)
  {
    hide FinalElement, TempoAt, FrameAt, OnBytes, Audible, AllSent, Timely, IsTempoMap, WheelValue;
    OtherElement(events, i);
    var el, m := FinalElement(0, events, i), events[i].message;
    if el.HasChannel() || el.Sysex? {
      var p := Placed(FrameAt(TempoAt(ts, maps, el.time), el.time), Event(OnBytes(el), el));
      SentSingly(AllOpen(), p, p);
      OpenAudible(OnBytes(el));
      if m.PitchMsg? {
        PitchBytes(el.time, m.channel, m.low, m.high);
      } else {
        BytesSurvive(el.time, m);
      }
    } else {
      NothingSent();
    }
  }

  lemma NothingSent()
    ensures AllSent(AllOpen(), []) == []
  {
  }

  // ----- one track

  ghost function ElementsUpTo(events: seq<Timed>, n: nat): seq<Element>
    requires Timely(events) && n <= |events|
  {
    var o := Origins(events, n);
    seq(|o|, x requires 0 <= x < |o| => FinalElement(0, events, o[x]))
  }

  lemma ElementsGrow(events: seq<Timed>, n: nat)
    requires Timely(events) && n < |events|
    ensures ElementsUpTo(events, n + 1) ==
            ElementsUpTo(events, n) + (if AddsElement(events[n].message) then [FinalElement(0, events, n)] else [])
  {
    hide FinalElement;
  }

  lemma {:induction false} AmountOverConcat(ts: TempoState, maps: seq<Element>, f: Filters, a: seq<Element>, b: seq<Element>, e: Emit)
    requires ts.timeBase > 0 && IsTempoMap(maps)
    ensures AmountOver(ts, maps, f, a + b, e) == AmountOver(ts, maps, f, a, e) + AmountOver(ts, maps, f, b, e)
  {
    hide Amount, IsTempoMap;
    if a == [] {
      assert a + b == b;
    } else {
      AmountOverConcat(ts, maps, f, a[1..], b, e);
      assert (a + b)[1..] == a[1..] + b;
    }
  }

  /** How often the element of one event sends a message, if the event has an element. */
  lemma EventAmount(ts: TempoState, maps: seq<Element>, events: seq<Timed>, i: nat, e: Emit)
    requires ts.timeBase > 0 && IsTempoMap(maps) && i < |events| && Timely(events) && PortZero(events)
    ensures var els := if AddsElement(events[i].message) then [FinalElement(0, events, i)] else [];
            AmountOver(ts, maps, AllOpen(), els, e) == multiset(EventMessages(ts, maps, events, i, PendingArray))[e]
  {
    hide FinalElement, EventsOf, TempoAt, AllSent, Timely, IsTempoMap;
    if !AddsElement(events[i].message) {
      NothingSaid(ts, maps, events, i);
    } else {
      var el := FinalElement(0, events, i);
      assert [el][1..] == [];
      if IsNoteOn(events[i].message) {
        NoteHeard(ts, maps, events, i);
      } else {
        OtherHeard(ts, maps, events, i);
      }
    }
  }

  lemma NothingSaid(ts: TempoState, maps: seq<Element>, events: seq<Timed>, i: nat)
    requires ts.timeBase > 0 && IsTempoMap(maps) && i < |events| && !AddsElement(events[i].message)
    ensures EventMessages(ts, maps, events, i, PendingArray) == []
  {
  }

  lemma NothingHeardYet(ts: TempoState, maps: seq<Element>, events: seq<Timed>, e: Emit)
    requires ts.timeBase > 0 && IsTempoMap(maps) && Timely(events)
    ensures AmountOver(ts, maps, AllOpen(), ElementsUpTo(events, 0), e) == 0
  {
  }

  lemma {:induction false} TrackAmount(ts: TempoState, maps: seq<Element>, events: seq<Timed>, n: nat, e: Emit)
    requires ts.timeBase > 0 && IsTempoMap(maps) && n <= |events| && Timely(events) && PortZero(events)
    ensures AmountOver(ts, maps, AllOpen(), ElementsUpTo(events, n), e) == multiset(TrackMessages(ts, maps, events, n, PendingArray))[e]
  {
    hide EventMessages, Timely, PortZero, IsTempoMap, FinalElement, AmountOver, Origins, TimeAt, ElementsUpTo, AllOpen;
    if n == 0 {
      NothingHeardYet(ts, maps, events, e);
    } else {
      TrackAmount(ts, maps, events, n - 1, e);
      ElementsGrow(events, n - 1);
      var added := if AddsElement(events[n - 1].message) then [FinalElement(0, events, n - 1)] else [];
      AmountOverConcat(ts, maps, AllOpen(), ElementsUpTo(events, n - 1), added, e);
      EventAmount(ts, maps, events, n - 1, e);
    }
  }

  // ----- the whole file

  lemma {:induction false} FileAmount(ts: TempoState, maps: seq<Element>, chunks: seq<Chunk>, e: Emit)
    requires ts.timeBase > 0 && IsTempoMap(maps)
    requires forall i :: 0 <= i < |chunks| ==> GoodTrack(chunks[i])
    ensures AmountOverChunks(ts, maps, AllOpen(), chunks, e) == multiset(FileMessages(ts, maps, chunks, PendingArray))[e]
  {
    hide LegalChunk, Timely, PortZero, TrackMessages, AmountOver, IsTempoMap, FinalElement;
    if chunks != [] {
      var events := chunks[0].events;
      assert GoodTrack(chunks[0]);
      FileAmount(ts, maps, chunks[1..], e);
      TrackAmount(ts, maps, events, |events|, e);
      assert ElementsUpTo(events, |events|) == ExpectedElements(0, events);
    }
  }

  /** The song of an encoded file. */
  ghost function SongOf(format: nat, timeBase: nat, chunks: seq<Chunk>): SongFile {
    var (tracks, maps) := MeaningFrom(format, 0, 0, [], chunks);
    SongFile(timeBase, maps, tracks)
  }

  /** A good file gives a song that can be loaded: sorted tracks on port 0, with a tempo map of its own. */
  lemma SongIsGood(format: nat, timeBase: nat, chunks: seq<Chunk>)
    requires GoodChunks(chunks)
    ensures var song := SongOf(format, timeBase, chunks);
            song.maps == AllMaps(chunks) && MapsApart(song) && SongSorted(song) &&
            forall k :: 0 <= k < |song.tracks| ==> OnPortZero(song.tracks[k])
  {
    hide GoodTrack, MeaningFrom, IsMapEvent, IsTempoMap;
    TracksAreExpected(format, 0, [], chunks);
    AllMapsAreMaps(chunks);
    var song := SongOf(format, timeBase, chunks);
    assert song.maps == [] + AllMaps(chunks);
    assert forall k :: 0 <= k < |song.tracks| ==> GoodElements(song.tracks[k]);
  }

  /** Such a song meets all that loading asks of it, except that the sample rate and the last frame have to be in range. */
  lemma WhenLoadable(format: nat, timeBase: nat, chunks: seq<Chunk>, sampleRate: nat)
    requires GoodChunks(chunks) && timeBase > 0
    ensures var song := SongOf(format, timeBase, chunks);
            MapsApart(song) &&
            (Loadable(song, sampleRate) <==> 0 < sampleRate <= TWO_31 && LastFrame(SongStream(song, sampleRate)) < TWO_31)
  {
    hide GoodChunks, SongOf, MapsApart, SongSorted, OnPortZero, SongStream, LastFrame;
    SongIsGood(format, timeBase, chunks);
    SameBase(format, timeBase, chunks);
  }

  lemma SameBase(format: nat, timeBase: nat, chunks: seq<Chunk>)
    ensures SongOf(format, timeBase, chunks).timeBase == timeBase
  {
  }

  /** For every encoded file whose tempo-map events are in order and with everything on port 0: reading the bytes
      gives the song, and rolling through it, in any division into cycles, sends exactly the messages that the events
      of the file say, each as often as said and at the frame said, and nothing else, in order of time. */
  lemma FilePlaysItsEvents(format: nat, timeBase: nat, chunks: seq<Chunk>, sampleRate: nat, cycles: seq<R.Cycle>, end: nat)
    requires GoodChunks(chunks) && format < 0x8000 && |chunks| < 0x8000 && 0 < timeBase < 0x10000
    requires var song := SongOf(format, timeBase, chunks);
             MapsApart(song) ==> forall i :: 0 <= i < |SongStream(song, sampleRate)| ==> SongStream(song, sampleRate)[i].frame < end
    requires R.Contiguous(cycles, AllOpen(), 0, end)
    ensures var song := SongOf(format, timeBase, chunks);
            GetFile(EncodeFile(format, timeBase, chunks)) == Success(song) && MapsApart(song) && IsTempoMap(AllMaps(chunks)) &&
            var output := R.ScheduledOutput(SongStream(song, sampleRate), cycles);
            multiset(output) == multiset(FileMessages(StartTempo(song, sampleRate), AllMaps(chunks), chunks, PendingArray)) &&
            TimesOrdered(output, 0, end) &&
            output == Window(SongStream(song, sampleRate), AllOpen(), 0, 0, end)
  {
    hide LegalChunk, PortZero, MeaningFrom, R.Contiguous, SongSorted, MapsApart, SongStream, R.ScheduledOutput, AllSent, EncodeFile, GetFile, Window;
    var song := SongOf(format, timeBase, chunks);
    assert forall i :: 0 <= i < |chunks| ==> GoodTrack(chunks[i]) && LegalChunk(chunks[i]);
    FileRoundTrip(format, timeBase, chunks);
    SongIsGood(format, timeBase, chunks);
    var ts, stream := StartTempo(song, sampleRate), SongStream(song, sampleRate);
    R.ChoppingDoesNotMatter(stream, cycles, AllOpen(), 0, end);
    R.WholeSongOnce(stream, cycles, AllOpen(), end);
    MapsInOrder(song);
    forall e: Emit
      ensures multiset(AllSent(AllOpen(), stream))[e] == multiset(FileMessages(ts, song.maps, chunks, PendingArray))[e]
    {
      EveryElementCounts(song, sampleRate, AllOpen(), e);
      TracksAmount(format, chunks, ts, song.maps, e);
      FileAmount(ts, song.maps, chunks, e);
    }
  }

  lemma MapsInOrder(song: SongFile)
    requires MapsApart(song) && SongSorted(song)
    ensures IsTempoMap(song.maps)
  {
    SortedMap(song.maps);
  }

  lemma TracksAmount(format: nat, chunks: seq<Chunk>, ts: TempoState, maps: seq<Element>, e: Emit)
    requires forall i :: 0 <= i < |chunks| ==> GoodTrack(chunks[i])
    requires ts.timeBase > 0 && IsTempoMap(maps) && maps == MeaningFrom(format, 0, 0, [], chunks).1
    ensures AmountOverTracks(ts, maps, AllOpen(), MeaningFrom(format, 0, 0, [], chunks).0, e) == AmountOverChunks(ts, maps, AllOpen(), chunks, e)
  {
    hide GoodTrack, GoodElements, MeaningFrom, AmountOverTracks, AmountOverChunks, IsTempoMap;
    TracksAreExpected(format, 0, [], chunks);
  }

  // ----- where no two notes share their first later note-off, the pending array drops out of the picture

  lemma SameEventMessages(ts: TempoState, maps: seq<Element>, events: seq<Timed>, i: nat)
    requires ts.timeBase > 0 && IsTempoMap(maps) && i < |events| && Timely(events) && Separate(0, events)
    ensures EventMessages(ts, maps, events, i, PendingArray) == EventMessages(ts, maps, events, i, FirstNoteOff)
  {
    hide Timely, Separate, Release, NextOff, TempoAt, TempoFrame, FrameAt, EndTime, EndVelocity, IsTempoMap, EncodeBody;
    if IsNoteOn(events[i].message) {
      ReleaseIsNextOff(0, events, i);
    }
  }

  lemma {:induction false} SameTrackMessages(ts: TempoState, maps: seq<Element>, events: seq<Timed>, n: nat)
    requires ts.timeBase > 0 && IsTempoMap(maps) && n <= |events| && Timely(events) && Separate(0, events)
    ensures TrackMessages(ts, maps, events, n, PendingArray) == TrackMessages(ts, maps, events, n, FirstNoteOff)
  {
    hide Timely, Separate, EventMessages, IsTempoMap;
    if n > 0 {
      SameTrackMessages(ts, maps, events, n - 1);
      SameEventMessages(ts, maps, events, n - 1);
    }
  }

  lemma {:induction false} SameFileMessages(ts: TempoState, maps: seq<Element>, chunks: seq<Chunk>)
    requires ts.timeBase > 0 && IsTempoMap(maps)
    requires forall i :: 0 <= i < |chunks| ==> Timely(chunks[i].events) && Separate(0, chunks[i].events)
    ensures FileMessages(ts, maps, chunks, PendingArray) == FileMessages(ts, maps, chunks, FirstNoteOff)
  {
    hide TrackMessages, Timely, Separate, IsTempoMap;
    if chunks != [] {
      SameTrackMessages(ts, maps, chunks[0].events, |chunks[0].events|);
      SameFileMessages(ts, maps, chunks[1..]);
    }
  }

  /** When, besides, no two notes of a channel and key share their first later note-off, what is sent can be told from
      the events alone: each note ends with its first later note-off, or with the track. */
  lemma FilePlaysAsWritten(format: nat, timeBase: nat, chunks: seq<Chunk>, sampleRate: nat, cycles: seq<R.Cycle>, end: nat)
    requires GoodChunks(chunks) && format < 0x8000 && |chunks| < 0x8000 && 0 < timeBase < 0x10000
    requires forall i :: 0 <= i < |chunks| ==> Separate(0, chunks[i].events)
    requires var song := SongOf(format, timeBase, chunks);
             MapsApart(song) ==> forall i :: 0 <= i < |SongStream(song, sampleRate)| ==> SongStream(song, sampleRate)[i].frame < end
    requires R.Contiguous(cycles, AllOpen(), 0, end)
    ensures var song := SongOf(format, timeBase, chunks);
            GetFile(EncodeFile(format, timeBase, chunks)) == Success(song) && MapsApart(song) && IsTempoMap(AllMaps(chunks)) &&
            multiset(R.ScheduledOutput(SongStream(song, sampleRate), cycles)) ==
            multiset(FileMessages(StartTempo(song, sampleRate), AllMaps(chunks), chunks, FirstNoteOff))
  {
    hide MeaningFrom, R.Contiguous, MapsApart, SongStream, R.ScheduledOutput, EncodeFile, GetFile, FileMessages, IsTempoMap, Separate,
         LegalChunk, Timely, PortZero, Window;
    FilePlaysItsEvents(format, timeBase, chunks, sampleRate, cycles, end);
    assert forall i :: 0 <= i < |chunks| ==> GoodTrack(chunks[i]);
    SameFileMessages(StartTempo(SongOf(format, timeBase, chunks), sampleRate), AllMaps(chunks), chunks);
  }

  // ----- the same with the reader, the loader and the player

  function Total(lengths: seq<nat>): nat {
    if lengths == [] then 0 else Total(lengths[..|lengths| - 1]) + lengths[|lengths| - 1]
  }

  lemma {:induction false} TotalGrows(lengths: seq<nat>, n: nat)
    requires n < |lengths|
    ensures Total(lengths[..n + 1]) == Total(lengths[..n]) + lengths[n] <= Total(lengths)
    decreases |lengths|
  {
    assert lengths[..n + 1][..n] == lengths[..n];
    if n + 1 == |lengths| {
      assert lengths[..n + 1] == lengths;
    } else {
      var front := lengths[..|lengths| - 1];
      TotalGrows(front, n);
      assert front[..n + 1] == lengths[..n + 1] && front[..n] == lengths[..n];
    }
  }

  const POOL_SIZE := 16

  /** Read a file, load it, and roll from frame 0 through cycles of the given lengths. */
  method PlayFile(bytes: Bytes, sampleRate: nat, lengths: seq<nat>) returns (r: Result<seq<Emit>, ReadError>)
    requires GetFile(bytes).Success? ==> Loadable(GetFile(bytes).value, sampleRate)
    requires Total(lengths) < TWO_32
    ensures match GetFile(bytes)
            case Failure(e) => r == Failure(e)
            case Success(song) => r == Success(Window(SongStream(song, sampleRate), AllOpen(), 0, 0, Total(lengths)))
  {
    hide GetFile, Loadable, SongStream, Window, AllOpen, Total, MapsApart;
    var reader := new Reader.MidiReader(bytes);
    var song := reader.MidiRead();
    if song.Failure? {
      return Failure(song.error);
    }
    var output := PlaySong(song.value, sampleRate, lengths);
    return Success(output);
  }

  /** Playing an encoded file to its end returns exactly the messages its events say, in order of time. */
  method PlayEncodedFile(bytes: Bytes, ghost format: nat, ghost timeBase: nat, ghost chunks: seq<Chunk>, sampleRate: nat, lengths: seq<nat>)
    returns (r: Result<seq<Emit>, ReadError>)
    requires GoodChunks(chunks) && format < 0x8000 && |chunks| < 0x8000 && 0 < timeBase < 0x10000
    requires bytes == EncodeFile(format, timeBase, chunks) && 0 < sampleRate <= TWO_31
    requires var song := SongOf(format, timeBase, chunks);
             MapsApart(song) ==> LastFrame(SongStream(song, sampleRate)) < Min(TWO_31, Total(lengths))
    requires Total(lengths) < TWO_32
    ensures var song := SongOf(format, timeBase, chunks);
            IsTempoMap(AllMaps(chunks)) && r.Success? && TimesOrdered(r.value, 0, Total(lengths)) &&
            multiset(r.value) == multiset(FileMessages(StartTempo(song, sampleRate), AllMaps(chunks), chunks, PendingArray))
  {
    hide LegalChunk, Timely, PortZero, MeaningFrom, MapsApart, SongStream, Window, FileMessages, IsTempoMap, Loadable, Total, GetFile, LastFrame,
         TimesOrdered, R.Contiguous, R.ScheduledOutput, AllOpen, EncodeFile;
    ghost var song, end := SongOf(format, timeBase, chunks), Total(lengths);
    WhenLoadable(format, timeBase, chunks, sampleRate);
    BeforeTheEnd(SongStream(song, sampleRate), end);
    ghost var cycles := [R.Cycle(Rolling, 0, end, [], AllOpen())];
    OneCycle(cycles, end);
    FilePlaysItsEvents(format, timeBase, chunks, sampleRate, cycles, end);
    r := PlayFile(bytes, sampleRate, lengths);
  }

  lemma BeforeTheEnd(stream: seq<Placed>, end: nat)
    requires LastFrame(stream) < end
    ensures forall i :: 0 <= i < |stream| ==> stream[i].frame < end
  {
    LastFrameIsMax(stream);
    forall i | 0 <= i < |stream| ensures stream[i].frame < end {
      assert Occupied(stream, stream[i].frame);
    }
  }

  lemma OneCycle(cycles: seq<R.Cycle>, end: nat)
    requires cycles == [R.Cycle(Rolling, 0, end, [], AllOpen())]
    ensures R.Contiguous(cycles, AllOpen(), 0, end)
  {
    assert cycles[..0] == [];
  }

  method PlaySong(song: SongFile, sampleRate: nat, lengths: seq<nat>) returns (output: seq<Emit>)
    requires Loadable(song, sampleRate) && Total(lengths) < TWO_32
    ensures output == Window(SongStream(song, sampleRate), AllOpen(), 0, 0, Total(lengths))
  {
    hide SongStream, Window, MidiRoot.Loaded, MidiRoot.Filters, Pool.Valid, Player.Valid, AllOpen, Total, MapsApart;
    var root := LoadFile(song, sampleRate);
    var pool := new Pool(POOL_SIZE);
    var player := new Player(root, pool);
    output := PlayCycles(player, lengths);
  }

  method PlayCycles(player: Player, lengths: seq<nat>) returns (output: seq<Emit>)
    requires player.Valid() && player.prevState == Stopped && Total(lengths) < TWO_32
    requires forall i :: 0 <= i < player.pool.process.Length ==> player.pool.process[i] == None
    modifies player, player.pool`processIndex, player.pool.available, player.pool.process
    ensures output == Window(player.root.stream, player.root.Filters(), 0, 0, Total(lengths))
  {
    hide MidiRoot.Loaded, MidiRoot.Filters, Window, Player.Valid;
    output := [];
    var pos := 0;
    var n := 0;
    ghost var stream, f := player.root.stream, player.root.Filters();
    NothingYet(stream, f, 0);
    while n < |lengths|
      invariant n <= |lengths| && pos == Total(lengths[..n])
      invariant player.Valid() && (player.prevState == Stopped || player.prevState == Rolling)
      invariant player.root.stream == stream && player.root.Filters() == f
      invariant forall i :: 0 <= i < player.pool.process.Length ==> player.pool.process[i] == None
      invariant output == Window(stream, f, 0, 0, pos)
    {
      TotalGrows(lengths, n);
      var sent := PlayCycle(player, pos, lengths[n]);
      output := output + Shift(sent, pos);
      WindowShift(stream, f, pos, pos, pos + lengths[n]);
      WindowSplit(stream, f, 0, 0, pos, pos + lengths[n]);
      pos := pos + lengths[n];
      n := n + 1;
    }
    assert lengths[..n] == lengths;
  }

  /** One rolling cycle without control messages. */
  method PlayCycle(player: Player, pos: Word, nframes: nat) returns (sent: seq<Emit>)
    requires player.Valid() && pos + nframes < TWO_32
    requires forall i :: 0 <= i < player.pool.process.Length ==> player.pool.process[i] == None
    modifies player, player.pool`processIndex, player.pool.available, player.pool.process
    ensures player.Valid() && player.prevState == Rolling
    ensures forall i :: 0 <= i < player.pool.process.Length ==> player.pool.process[i] == None
    ensures sent == Window(player.root.stream, player.root.Filters(), pos, pos, pos + nframes)
  {
    hide MidiRoot.Loaded, MidiRoot.Filters, Window, OnePlace;
    NothingWaiting(player.pool.process[..], player.pool.supply[..]);
    NothingAtStart();
    sent := player.Process(Rolling, pos, nframes);
    assert [] + sent == sent;
  }
}
