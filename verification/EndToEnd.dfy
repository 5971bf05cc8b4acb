/** From the bytes of a file to the messages of a whole performance. */
module EndToEnd {
  import opened Common
  import opened Elements
  import opened TempoMap
  import opened Timeline
  import opened Merge
  import opened Smf
  import opened Pairing
  import opened NoteLengths
  import opened MidiFile
  import opened Song
  import opened Loader

  // ----- what an encoded file means, track by track

  /** No port other than 0 is selected. */
  ghost predicate PortZero(events: seq<Timed>) {
    forall i :: 0 <= i < |events| ==> NextPort(0, events[i].message) == 0
  }

  /** The tempo-map entries of a track, with their times. */
  ghost function MapEntries(events: seq<Timed>, n: nat): seq<Element>
    requires n <= |events|
  {
    if n == 0 then [] else
    var entry := MakeMap(U32(TimeAt(events, n)), events[n - 1].message);
    MapEntries(events, n - 1) + (if entry.Some? then [entry.value] else [])
  }

  /** A track whose times fit and which stays on port 0. */
  ghost predicate GoodTrack(c: Chunk) {
    LegalChunk(c) && Timely(c.events) && PortZero(c.events)
  }

  /** Good tracks whose tempo-map entries, taken track after track, are in order of time. */
  ghost predicate GoodChunks(chunks: seq<Chunk>) {
    (forall i :: 0 <= i < |chunks| ==> GoodTrack(chunks[i])) && Sorted(AllMaps(chunks))
  }

  ghost function AllMaps(chunks: seq<Chunk>): seq<Element> {
    if chunks == [] then [] else MapEntries(chunks[0].events, |chunks[0].events|) + AllMaps(chunks[1..])
  }

  lemma {:induction false} PortStaysZero(events: seq<Timed>, n: nat)
    requires n <= |events| && PortZero(events)
    ensures PortAt(0, events, n) == 0
  {
    if n > 0 {
      PortStaysZero(events, n - 1);
    }
  }

  lemma ApplyMaps(s: TrackState, e: Timed)
    requires Sane(s.elements, s.pending)
    ensures var entry := MakeMap(U32(Int32(s.time + e.delta)), e.message);
            Apply(s, e).maps == s.maps + (if entry.Some? then [entry.value] else [])
  {
    hide Int32, Finish, MakeElement;
    assert s.maps + [] == s.maps;
  }

  lemma InterpretPrefix(s: TrackState, events: seq<Timed>, n: nat)
    requires 0 < n <= |events| && Sane(s.elements, s.pending)
    ensures Interpret(s, events[..n]) == Apply(Interpret(s, events[..n - 1]), events[n - 1])
  {
    hide Apply;
    assert events[..n][..n - 1] == events[..n - 1];
  }

  lemma TimeOfNext(maps: seq<Element>, events: seq<Timed>, n: nat)
    requires n < |events| && Timely(events)
    ensures var s := Interpret(StartOfTrack(0, maps), events[..n]);
            U32(Int32(s.time + events[n].delta)) == U32(TimeAt(events, n + 1))
  {
    hide Interpret, Int32, U32;
    StateAt(0, maps, events, n);
    TimesGrow(events, n + 1, |events|);
    SmallInt(TimeAt(events, n + 1));
    assert TimeAt(events, n) + events[n].delta == TimeAt(events, n + 1);
  }

  lemma {:induction false} InterpretMaps(maps: seq<Element>, events: seq<Timed>, n: nat)
    requires n <= |events| && Timely(events)
    ensures Interpret(StartOfTrack(0, maps), events[..n]).maps == maps + MapEntries(events, n)
  {
    hide Int32, U32, Apply, MakeMap, Interpret, Timely, TimeAt;
    if n == 0 {
      NoEventsYet(StartOfTrack(0, maps), events);
    } else {
      InterpretMaps(maps, events, n - 1);
      var s := Interpret(StartOfTrack(0, maps), events[..n - 1]);
      InterpretPrefix(StartOfTrack(0, maps), events, n);
      ApplyMaps(s, events[n - 1]);
      TimeOfNext(maps, events, n - 1);
    }
  }

  lemma NoEventsYet(s: TrackState, events: seq<Timed>)
    requires Sane(s.elements, s.pending)
    ensures Interpret(s, events[..0]) == s
  {
  }

  /** One good track: its elements are the expected ones, and its map entries are appended to the tempo map. */
  lemma GoodTrackResult(maps: seq<Element>, c: Chunk)
    requires GoodTrack(c)
    ensures var t := TrackResult(0, maps, c.events);
            t.elements == ExpectedElements(0, c.events) && t.port == 0 && t.maps == maps + MapEntries(c.events, |c.events|)
  {
    hide Interpret, Timely, LegalChunk, ExpectedElements, MapEntries;
    var events := c.events;
    assert events[..|events|] == events;
    TrackElements(0, maps, events);
    InterpretMaps(maps, events, |events|);
    StateAt(0, maps, events, |events|);
    PortStaysZero(events, |events|);
    InterpretKeepsPending(StartOfTrack(0, maps), events);
    FinishAllEffect(Interpret(StartOfTrack(0, maps), events));
  }

  // ----- good tracks are sorted, on port 0, and apart from the tempo map

  lemma {:induction false} MapEntriesSorted(events: seq<Timed>, n: nat)
    requires n <= |events| && Timely(events)
    ensures Sorted(MapEntries(events, n))
    ensures forall i :: 0 <= i < |MapEntries(events, n)| ==>
              IsMapEvent(MapEntries(events, n)[i]) && MapEntries(events, n)[i].time <= TimeAt(events, n)
  {
    if n > 0 {
      MapEntriesSorted(events, n - 1);
      TimesGrow(events, n - 1, n);
      TimesGrow(events, n, |events|);
      SmallInt(TimeAt(events, n));
    }
  }

  lemma ElementFacts(events: seq<Timed>, i: nat)
    requires i < |events| && Timely(events) && PortZero(events) && AddsElement(events[i].message)
    ensures var e := FinalElement(0, events, i);
            e.time == TimeAt(events, i + 1) && !e.Root? && !e.Tempo? && (e.HasChannel() ==> e.channel < CHANNELS)
  {
    hide Release, Releases, Int32, U32, WheelValue;
    PortStaysZero(events, i);
    TimesGrow(events, i + 1, |events|);
    SmallInt(TimeAt(events, i + 1));
  }

  /** What a good track brings to the song. */
  ghost predicate GoodElements(els: seq<Element>) {
    Sorted(els) && OnPortZero(els) && forall i :: 0 <= i < |els| ==> !els[i].Root? && !els[i].Tempo?
  }

  lemma ExpectedGood(c: Chunk)
    requires GoodTrack(c)
    ensures GoodElements(ExpectedElements(0, c.events))
  {
    hide FinalElement, LegalChunk, PortZero;
    var events := c.events;
    var o, els := Origins(events, |events|), ExpectedElements(0, events);
    forall x | 0 <= x < |els| {
      ElementFacts(events, o[x]);
    }
    forall x, y | 0 <= x < y < |els| ensures els[x].time <= els[y].time {
      ElementFacts(events, o[x]);
      ElementFacts(events, o[y]);
      TimesGrow(events, o[x] + 1, o[y] + 1);
    }
  }

  /** What each track by itself sends, summed over the file. */
  ghost function AmountOverChunks(ts: TempoState, maps: seq<Element>, f: Filters, chunks: seq<Chunk>, e: Emit): nat
    requires ts.timeBase > 0 && IsTempoMap(maps)
    requires forall i :: 0 <= i < |chunks| ==> GoodTrack(chunks[i])
  {
    if chunks == [] then 0 else
    assert GoodTrack(chunks[0]);
    AmountOver(ts, maps, f, ExpectedElements(0, chunks[0].events), e) + AmountOverChunks(ts, maps, f, chunks[1..], e)
  }

  /** The tracks of a good file. */
  lemma {:induction false} TracksAreExpected(format: int, i: nat, before: seq<Element>, chunks: seq<Chunk>)
    requires forall k :: 0 <= k < |chunks| ==> GoodTrack(chunks[k])
    ensures var (tracks, maps) := MeaningFrom(format, i, 0, before, chunks);
            maps == before + AllMaps(chunks) &&
            (forall k :: 0 <= k < |tracks| ==> GoodElements(tracks[k])) &&
            forall ts: TempoState, f, e :: ts.timeBase > 0 && IsTempoMap(maps) ==>
              AmountOverTracks(ts, maps, f, tracks, e) == AmountOverChunks(ts, maps, f, chunks, e)
    decreases |chunks|
  {
    hide GoodTrack, GoodElements, AmountOver, MapEntries, TrackResult, ExpectedElements, IsTempoMap;
    if chunks == [] {
      assert before + [] == before;
    } else {
      var c := chunks[0];
      GoodTrackResult(before, c);
      ExpectedGood(c);
      var t := TrackResult(0, before, c.events);
      TracksAreExpected(format, i + 1, t.maps, chunks[1..]);
      var (later, maps) := MeaningFrom(format, i + 1, 0, t.maps, chunks[1..]);
      assert maps == before + AllMaps(chunks);
      forall ts: TempoState, f, e | ts.timeBase > 0 && IsTempoMap(maps)
        ensures AmountOverTracks(ts, maps, f, MeaningFrom(format, i, 0, before, chunks).0, e) == AmountOverChunks(ts, maps, f, chunks, e)
      {
        assert ([t.elements] + later)[1..] == later;
        NothingInEmptyTrack(ts, maps, f, e);
      }
    }
  }

  lemma NothingInEmptyTrack(ts: TempoState, maps: seq<Element>, f: Filters, e: Emit)
    requires ts.timeBase > 0 && IsTempoMap(maps)
    ensures AmountOver(ts, maps, f, [], e) == 0
  {
  }

  // ----- the tempo map of a good file

  lemma {:induction false} NoMapsLeft(chunks: seq<Chunk>)
    requires forall i :: 0 <= i < |chunks| ==> MapEntries(chunks[i].events, |chunks[i].events|) == []
    ensures AllMaps(chunks) == []
  {
    if chunks != [] {
      NoMapsLeft(chunks[1..]);
    }
  }

  /** The tempo map holds map events only. */
  lemma {:induction false} AllMapsAreMaps(chunks: seq<Chunk>)
    requires forall i :: 0 <= i < |chunks| ==> GoodTrack(chunks[i])
    ensures forall i :: 0 <= i < |AllMaps(chunks)| ==> IsMapEvent(AllMaps(chunks)[i])
  {
    hide MapEntries, IsMapEvent, LegalChunk, Timely, PortZero, Sorted;
    if chunks != [] {
      assert GoodTrack(chunks[0]);
      MapEntriesSorted(chunks[0].events, |chunks[0].events|);
      AllMapsAreMaps(chunks[1..]);
    }
  }

  /** When map events come from one track only, the tempo map is in order. */
  lemma {:induction false} AllMapsSorted(chunks: seq<Chunk>)
    requires forall i :: 0 <= i < |chunks| ==> GoodTrack(chunks[i])
    requires forall i, j :: 0 <= i < j < |chunks| ==>
               MapEntries(chunks[i].events, |chunks[i].events|) == [] || MapEntries(chunks[j].events, |chunks[j].events|) == []
    ensures GoodChunks(chunks)
  {
    hide MapEntries, IsMapEvent, LegalChunk, Timely, PortZero;
    if chunks != [] {
      var events, rest := chunks[0].events, chunks[1..];
      assert GoodTrack(chunks[0]);
      var first := MapEntries(events, |events|);
      MapEntriesSorted(events, |events|);
      if first == [] {
        AllMapsSorted(rest);
        assert first + AllMaps(rest) == AllMaps(rest);
      } else {
        NoMapsLeft(rest);
        assert first + [] == first;
      }
    }
  }
}
