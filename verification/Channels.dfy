/** Which channels a loaded file has data on, and what soloing one of them silences. */
module Channels {
  import opened Common
  import opened Elements
  import opened Merge
  import opened Smf
  import opened Pairing
  import opened NoteLengths
  import opened MidiFile
  import opened Song
  import opened Score
  import opened ControlPool
  import opened Commands
  import opened Loader
  import opened Session
  import opened EndToEnd
  import opened Performance

  /** A message that puts data on a channel: a note-on that is heard, or any other channel message but a note-off. */
  predicate Speaks(m: Message, c: nat) {
    ((m.NoteOnMsg? && m.velocity > 0) || m.TouchMsg? || m.ControlMsg? || m.ProgramMsg? || m.PressureMsg? || m.PitchMsg?) && m.channel == c
  }

  ghost predicate TrackSpeaks(events: seq<Timed>, c: nat) {
    exists i :: 0 <= i < |events| && Speaks(events[i].message, c)
  }

  ghost predicate SomeTrack(tracks: seq<seq<Element>>, c: nat) {
    exists k :: 0 <= k < |tracks| && OnChannel(tracks[k], c)
  }

  ghost predicate FileSpeaks(chunks: seq<Chunk>, c: nat) {
    exists k :: 0 <= k < |chunks| && TrackSpeaks(chunks[k].events, c)
  }

  // ----- from events to elements

  lemma ElementSpeaks(events: seq<Timed>, i: nat, c: nat)
    requires i < |events| && Timely(events) && PortZero(events)
    ensures Speaks(events[i].message, c) ==> AddsElement(events[i].message)
    ensures AddsElement(events[i].message) ==>
              (FinalElement(0, events, i).HasChannel() && FinalElement(0, events, i).channel == c <==> Speaks(events[i].message, c))
  {
    hide Release, Releases, U32, WheelValue, TimeAt, Timely;
    PortStaysZero(events, i);
  }

  lemma ElementsSpeak(events: seq<Timed>, c: nat)
    requires Timely(events) && PortZero(events)
    ensures OnChannel(ExpectedElements(0, events), c) <==> TrackSpeaks(events, c)
  {
    hide FinalElement, Timely, PortZero, Speaks, AddsElement;
    var els, o := ExpectedElements(0, events), Origins(events, |events|);
    if OnChannel(els, c) {
      var x :| 0 <= x < |els| && els[x].HasChannel() && els[x].channel == c;
      ElementSpeaks(events, o[x], c);
      assert Speaks(events[o[x]].message, c);
    }
    if TrackSpeaks(events, c) {
      var i :| 0 <= i < |events| && Speaks(events[i].message, c);
      ElementSpeaks(events, i, c);
      OriginAt(events, |events|, i);
      assert els[|Origins(events, i)|].HasChannel();
    }
  }

  lemma NobodySpeaks(c: nat)
    ensures !OnChannel([], c) && !SomeTrack([], c) && !FileSpeaks([], c)
  {
  }

  lemma SomeTrackFirst(first: seq<Element>, rest: seq<seq<Element>>, c: nat)
    ensures SomeTrack([first] + rest, c) <==> OnChannel(first, c) || SomeTrack(rest, c)
  {
    hide OnChannel;
    var all := [first] + rest;
    assert all[0] == first && forall k :: 0 <= k < |rest| ==> all[k + 1] == rest[k];
    if SomeTrack(all, c) {
      var k :| 0 <= k < |all| && OnChannel(all[k], c);
      assert k > 0 ==> OnChannel(rest[k - 1], c);
    }
    if SomeTrack(rest, c) {
      var k :| 0 <= k < |rest| && OnChannel(rest[k], c);
      assert OnChannel(all[k + 1], c);
    }
  }

  lemma FileSpeaksFirst(chunks: seq<Chunk>, c: nat)
    requires chunks != []
    ensures FileSpeaks(chunks, c) <==> TrackSpeaks(chunks[0].events, c) || FileSpeaks(chunks[1..], c)
  {
    hide TrackSpeaks;
    if FileSpeaks(chunks[1..], c) {
      var k :| 0 <= k < |chunks[1..]| && TrackSpeaks(chunks[1..][k].events, c);
      assert chunks[1..][k] == chunks[k + 1];
    }
    if FileSpeaks(chunks, c) && !TrackSpeaks(chunks[0].events, c) {
      var k :| 0 <= k < |chunks| && TrackSpeaks(chunks[k].events, c);
      assert chunks[1..][k - 1] == chunks[k];
    }
  }

  lemma {:induction false} TracksSpeak(format: int, i: nat, before: seq<Element>, chunks: seq<Chunk>, c: nat)
    requires forall k :: 0 <= k < |chunks| ==> GoodTrack(chunks[k])
    ensures SomeTrack(MeaningFrom(format, i, 0, before, chunks).0, c) <==> FileSpeaks(chunks, c)
    decreases |chunks|
  {
    hide LegalChunk, Timely, PortZero, TrackResult, ExpectedElements, OnChannel, TrackSpeaks, SomeTrack, FileSpeaks;
    NobodySpeaks(c);
    if chunks != [] {
      var first := chunks[0];
      assert GoodTrack(first);
      GoodTrackResult(before, first);
      ElementsSpeak(first.events, c);
      var t := TrackResult(0, before, first.events);
      TracksSpeak(format, i + 1, t.maps, chunks[1..], c);
      FileSpeaksFirst(chunks, c);
      SomeTrackFirst(t.elements, MeaningFrom(format, i + 1, 0, t.maps, chunks[1..]).0, c);
    }
  }

  /** The merge hands out the elements of all tracks, and the map belongs to no channel. */
  lemma ProcessedOnChannel(song: SongFile, c: nat)
    requires MapsApart(song)
    ensures OnChannel(Processed(song), c) <==> SomeTrack(song.tracks, c)
  {
    hide Merged, MapsApart, OnChannel;
    var tracks, els := [song.maps] + song.tracks, Processed(song);
    if OnChannel(els, c) {
      var i := ElementOn(els, c);
      var t := FromSomeTrack(tracks, i - 1);
      if t.track == 0 {
        MapsHaveNoChannel(song, t.index);
        assert false;
      }
      ChannelOfElement(song.tracks[t.track - 1], t.index);
    }
    if SomeTrack(song.tracks, c) {
      var k :| 0 <= k < |song.tracks| && OnChannel(song.tracks[k], c);
      var x := ElementOn(song.tracks[k], c);
      var j := IntoMerge(tracks, Tag(k + 1, x));
      assert els[j + 1] == song.tracks[k][x];
      ChannelOfElement(els, j + 1);
    }
  }

  lemma ElementOn(els: seq<Element>, c: nat) returns (i: nat)
    requires OnChannel(els, c)
    ensures i < |els| && els[i].HasChannel() && els[i].channel == c
  {
    i :| 0 <= i < |els| && els[i].HasChannel() && els[i].channel == c;
  }

  lemma ChannelOfElement(els: seq<Element>, i: nat)
    requires i < |els| && els[i].HasChannel()
    ensures OnChannel(els, els[i].channel)
  {
  }

  lemma IntoMerge(tracks: Merge.Tracks, t: Tag) returns (j: nat)
    requires HasTag(tracks, t)
    ensures j < |Merged(tracks)| && Merged(tracks)[j] == At(tracks, t)
  {
    hide Order;
    OrderComplete(tracks, Zeros(tracks));
    assert IsAhead(tracks, Zeros(tracks), t);
    var order := Order(tracks, Zeros(tracks));
    j :| 0 <= j < |order| && order[j] == t;
  }

  /** A loaded file has data on a channel exactly when some heard note-on or other channel message of the file is on it. */
  lemma DataOfFile(format: nat, timeBase: nat, chunks: seq<Chunk>, c: nat)
    requires GoodChunks(chunks)
    ensures OnChannel(Processed(SongOf(format, timeBase, chunks)), c) <==> FileSpeaks(chunks, c)
  {
    hide MeaningFrom, MapsApart, Processed, OnChannel, SomeTrack, FileSpeaks, GoodTrack;
    var song := SongOf(format, timeBase, chunks);
    SongIsGood(format, timeBase, chunks);
    ProcessedOnChannel(song, c);
    TracksSpeak(format, 0, [], chunks, c);
  }

  // ----- soloing a channel of a loaded song

  /** Load a song and solo channel index k: of the other channels exactly those with data get an all-sound-off, one each. */
  method SoloLoaded(song: SongFile, sampleRate: nat, k: nat) returns (root: MidiRoot, pool: Pool)
    requires Loadable(song, sampleRate) && k < 15
    ensures root.soloChannel == k && pool.Valid(None, None)
    ensures forall c: ChannelIndex ::
              Count(Waiting(pool.process[..], pool.supply[..]), [0xB0 + c, 120, 0]) == if c != k && OnChannel(Processed(song), c) then 1 else 0
  {
    hide OnePlace, Waiting, Reservable, Count, Silenced, OffMessages, OnChannel, Processed, Loadable, SongStream, MidiRoot.RecordsValid,
         MidiRoot.HasEntryPoints, MidiRoot.Threaded, MapsApart;
    root := LoadFile(song, sampleRate);
    pool := new Pool(POOL_SIZE);
    PoolIsFree(pool);
    ghost var data := root.hasData[..];
    ComSolo(root, pool, k + 1);
    FewSilenced(data, k);
    CountOne([], []);
    forall c: ChannelIndex
      ensures Count(Waiting(pool.process[..], pool.supply[..]), [0xB0 + c, 120, 0]) == if c != k && OnChannel(Processed(song), c) then 1 else 0
    {
      SilencedCount(data, k, CHANNELS, c);
      CountOne([], [0xB0 + c, 120, 0]);
    }
  }

  lemma PoolIsFree(pool: Pool)
    requires pool.Valid(None, None) && forall i :: 0 <= i < pool.process.Length ==> pool.process[i] == None
    ensures Reservable(pool.available[..]) == pool.supply.Length && Waiting(pool.process[..], pool.supply[..]) == []
  {
    hide OnePlace, Reservable, Waiting;
    AllAvailable(pool.available[..], pool.process[..]);
    NothingWaiting(pool.process[..], pool.supply[..]);
  }

  lemma FewSilenced(hasData: seq<bool>, k: nat)
    requires |hasData| == CHANNELS
    ensures var silenced := Silenced(hasData, k, CHANNELS); |silenced| <= 16 && silenced[..Min(|silenced|, 16)] == silenced
  {
    hide Silenced;
    SilencedWritten(hasData, k, CHANNELS);
  }
}
