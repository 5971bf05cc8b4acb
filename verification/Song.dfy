/** What loading a song places where: the merge and the running tempo state together amount to a stateless
    lookup in the tempo map, and every element of every track contributes exactly its own events. */
module Song {
  import opened Common
  import opened Elements
  import opened TempoMap
  import opened Timeline
  import opened Merge
  import opened MidiFile

  /** The elements in the order in which jpmidi_loadfile processes them: the root, then the merged tracks. */
  ghost function Processed(song: SongFile): seq<Element> {
    [Root(0, song.timeBase)] + Merged([song.maps] + song.tracks)
  }

  predicate IsMapEvent(e: Element) {
    e.Tempo? || e.TimeSignature? || e.KeySignature?
  }

  /** The tempo map holds map events only, the tracks hold no tempo changes, and neither holds a root. */
  ghost predicate MapsApart(song: SongFile) {
    (forall i :: 0 <= i < |song.maps| ==> IsMapEvent(song.maps[i])) &&
    forall k, i :: 0 <= k < |song.tracks| && 0 <= i < |song.tracks[k]| ==> !song.tracks[k][i].Root? && !song.tracks[k][i].Tempo?
  }

  /** The tempo state once the root has been processed. */
  ghost function StartTempo(song: SongFile, sampleRate: nat): TempoState {
    TempoState(sampleRate, song.timeBase, DEFAULT_MPQ, 0, 0)
  }

  /** Every event of the song under its frame, in placing order. */
  ghost function SongStream(song: SongFile, sampleRate: nat): seq<Placed>
    requires song.timeBase > 0 && MapsApart(song)
  {
    RootsOnlyFirst(song);
    Placements(InitialTempo(sampleRate), Processed(song))
  }

  lemma NoRoots(tracks: Tracks, counts: seq<nat>)
    requires Cursors(tracks, counts)
    requires forall k, i :: 0 <= k < |tracks| && 0 <= i < |tracks[k]| ==> !tracks[k][i].Root?
    ensures forall i :: 0 <= i < |ToCome(tracks, counts)| ==> !ToCome(tracks, counts)[i].Root?
  {
    OrderComplete(tracks, counts);
    var order := Order(tracks, counts);
    assert forall i :: 0 <= i < |order| ==> order[i] in order;
  }

  lemma RootsOnlyFirst(song: SongFile)
    requires song.timeBase > 0 && MapsApart(song)
    ensures Processable(InitialTempo(0), Processed(song))
    ensures forall sampleRate: nat :: Processable(InitialTempo(sampleRate), Processed(song))
  {
    var tracks := [song.maps] + song.tracks;
    assert forall k :: 0 < k < |tracks| ==> tracks[k] == song.tracks[k - 1];
    NoRoots(tracks, Zeros(tracks));
  }

  // ----- splitting off the first element

  lemma {:induction false} TempoAfterFirst(ts: TempoState, x: Element, rest: seq<Element>)
    requires ts.timeBase > 0 || x.Root?
    requires x.Root? ==> x.timeBase > 0
    requires forall i :: 0 <= i < |rest| ==> !rest[i].Root?
    ensures Processable(ts, [x] + rest)
    ensures TempoAfter(ts, [x] + rest) == TempoAfter(Advance(ts, x), rest)
    decreases |rest|
  {
    if rest == [] {
      assert [x] + rest == [x];
      assert [x][..0] == [];
    } else {
      var front := rest[..|rest| - 1];
      TempoAfterFirst(ts, x, front);
      assert ([x] + rest)[..|rest|] == [x] + front;
    }
  }

  lemma {:induction false} PlacementsFirst(ts: TempoState, x: Element, rest: seq<Element>)
    requires ts.timeBase > 0 || x.Root?
    requires x.Root? ==> x.timeBase > 0
    requires forall i :: 0 <= i < |rest| ==> !rest[i].Root?
    ensures Processable(ts, [x] + rest)
    ensures Placements(ts, [x] + rest) == EventsOf(ts, x) + Placements(Advance(ts, x), rest)
    decreases |rest|
  {
    hide EventsOf, Advance;
    AdvanceKeepsBase(ts, x);
    if rest == [] {
      assert [x] + rest == [x];
      assert [x][..0] == [];
      assert EventsOf(ts, x) + [] == EventsOf(ts, x);
    } else {
      var front := rest[..|rest| - 1];
      PlacementsFirst(ts, x, front);
      TempoAfterFirst(ts, x, front);
      assert ([x] + rest)[..|rest|] == [x] + front;
    }
  }

  lemma AdvanceKeepsBase(ts: TempoState, x: Element)
    requires ts.timeBase > 0 || x.Root?
    requires x.Root? ==> x.timeBase > 0
    ensures Advance(ts, x).timeBase > 0
  {
  }

  // ----- the running tempo state is the tempo map's

  /** What has been taken from the tracks is not later than what is still to come. */
  ghost predicate Level(tracks: Tracks, counts: seq<nat>)
    requires Cursors(tracks, counts)
  {
    forall k, i, l, j :: 0 <= k < |tracks| && 0 <= i < counts[k] && 0 <= l < |tracks| && counts[l] <= j < |tracks[l]| ==>
      tracks[k][i].time <= tracks[l][j].time
  }

  lemma LevelAfterTaking(tracks: Tracks, counts: seq<nat>, k: nat)
    requires Cursors(tracks, counts) && TracksSorted(tracks) && Level(tracks, counts) && IsNext(tracks, counts, k)
    ensures var later := counts[k := counts[k] + 1]; Cursors(tracks, later) && Level(tracks, later)
  {
    var later := counts[k := counts[k] + 1];
    forall a, i, l, j | 0 <= a < |tracks| && 0 <= i < later[a] && 0 <= l < |tracks| && later[l] <= j < |tracks[l]|
      ensures tracks[a][i].time <= tracks[l][j].time
    {
      if i == counts[k] && a == k {
        assert Sorted(tracks[l]);
      } else {
        assert counts[l] <= j;
      }
    }
  }

  /** Events placed by looking the tempo up in the map, element by element. */
  ghost function Looked(ts: TempoState, maps: seq<Element>, els: seq<Element>): seq<Placed>
    requires ts.timeBase > 0 && IsTempoMap(maps)
  {
    if els == [] then [] else EventsOf(TempoAt(ts, maps, els[0].time), els[0]) + Looked(ts, maps, els[1..])
  }

  /** When an element of a track other than the map goes out, exactly the map entries up to its tick have gone out. */
  lemma PrefixIsCount(tracks: Tracks, counts: seq<nat>, k: nat)
    requires Cursors(tracks, counts) && TracksSorted(tracks) && Level(tracks, counts) && 0 < k && IsNext(tracks, counts, k)
    ensures MapPrefix(tracks[0], tracks[k][counts[k]].time) == counts[0]
  {
    var t := tracks[k][counts[k]].time;
    var n := MapPrefix(tracks[0], t);
    assert forall i :: 0 <= i < counts[0] ==> tracks[0][i].time <= t;
    assert counts[0] < |tracks[0]| ==> t < tracks[0][counts[0]].time;
    assert n < |tracks[0]| ==> t < tracks[0][n].time;
  }

  /** The head of the walk sees the tempo of its own tick and leaves the tempo state in step with the map. */
  lemma HeadSeesItsTempo(ts: TempoState, tracks: Tracks, counts: seq<nat>, k: nat)
    requires ts.timeBase > 0 && |tracks| > 0 && IsTempoMap(tracks[0])
    requires Cursors(tracks, counts) && TracksSorted(tracks) && Level(tracks, counts)
    requires k < |tracks| && counts[k] < |tracks[k]| && IsNext(tracks, counts, k)
    requires forall i :: 0 <= i < |tracks[0]| ==> IsMapEvent(tracks[0][i])
    requires k > 0 ==> !tracks[k][counts[k]].Root? && !tracks[k][counts[k]].Tempo?
    ensures var x, now := tracks[k][counts[k]], TempoAfter(ts, tracks[0][..counts[0]]);
            EventsOf(now, x) == EventsOf(TempoAt(ts, tracks[0], x.time), x) &&
            Advance(now, x) == TempoAfter(ts, tracks[0][..counts[k := counts[k] + 1][0]])
  {
    hide EventsOf, Level, TracksSorted, TempoAfter, MapPrefix, Advance, IsNext, IsMapEvent;
    var x, now := tracks[k][counts[k]], TempoAfter(ts, tracks[0][..counts[0]]);
    if k == 0 {
      MapHead(ts, tracks[0], counts[0]);
    } else {
      PrefixIsCount(tracks, counts, k);
      NoTempoChange(now, x);
    }
  }

  /** A map entry at the head sends nothing and moves the tempo state on by itself. */
  lemma MapHead(ts: TempoState, maps: seq<Element>, n: nat)
    requires ts.timeBase > 0 && IsTempoMap(maps) && n < |maps| && IsMapEvent(maps[n])
    ensures EventsOf(TempoAfter(ts, maps[..n]), maps[n]) == [] && EventsOf(TempoAt(ts, maps, maps[n].time), maps[n]) == []
    ensures Advance(TempoAfter(ts, maps[..n]), maps[n]) == TempoAfter(ts, maps[..n + 1])
  {
    hide Advance, TempoAt;
    assert maps[..n + 1][..n] == maps[..n];
  }

  /** Processing what is still to come under the running tempo equals looking each tempo up. */
  lemma {:induction false} RunningTempoIsLookup(ts: TempoState, tracks: Tracks, counts: seq<nat>)
    requires ts.timeBase > 0 && |tracks| > 0 && IsTempoMap(tracks[0])
    requires Cursors(tracks, counts) && TracksSorted(tracks) && Level(tracks, counts)
    requires forall i :: 0 <= i < |tracks[0]| ==> IsMapEvent(tracks[0][i])
    requires forall k, i :: 0 < k < |tracks| && 0 <= i < |tracks[k]| ==> !tracks[k][i].Root? && !tracks[k][i].Tempo?
    ensures forall i :: 0 <= i < |ToCome(tracks, counts)| ==> !ToCome(tracks, counts)[i].Root?
    ensures Placements(TempoAfter(ts, tracks[0][..counts[0]]), ToCome(tracks, counts)) == Looked(ts, tracks[0], ToCome(tracks, counts))
    decreases Remaining(tracks, counts)
  {
    hide EventsOf, Level, IsNext, Remaining, Advance, TempoAt, TempoAfter, ToCome, TracksSorted, NextTrack;
    NoRoots(tracks, counts);
    match NextTrack(tracks, counts)
    case None =>
      NothingToCome(tracks, counts);
    case Some(k) =>
      var x, later := tracks[k][counts[k]], counts[k := counts[k] + 1];
      var now := TempoAfter(ts, tracks[0][..counts[0]]);
      TakingOne(tracks, counts, k);
      TakeHead(tracks, counts, k);
      LevelAfterTaking(tracks, counts, k);
      HeadSeesItsTempo(ts, tracks, counts, k);
      RunningTempoIsLookup(ts, tracks, later);
      PlacementsFirst(now, x, ToCome(tracks, later));
      LookedFirst(ts, tracks[0], x, ToCome(tracks, later));
  }

  lemma LookedFirst(ts: TempoState, maps: seq<Element>, x: Element, rest: seq<Element>)
    requires ts.timeBase > 0 && IsTempoMap(maps)
    ensures Looked(ts, maps, [x] + rest) == EventsOf(TempoAt(ts, maps, x.time), x) + Looked(ts, maps, rest)
  {
    assert ([x] + rest)[1..] == rest;
  }

  lemma NoTempoChange(ts: TempoState, x: Element)
    requires ts.timeBase > 0 && !x.Root? && !x.Tempo?
    ensures Advance(ts, x) == ts
  {
  }

  lemma NoMapEvents(ts: TempoState, x: Element)
    requires ts.timeBase > 0
    ensures !x.HasChannel() && !x.Sysex? ==> EventsOf(ts, x) == []
  {
  }

  // ----- counting messages

  /** How often an element by itself sends message `e`, when its tempo is looked up in the map. */
  ghost function Amount(ts: TempoState, maps: seq<Element>, f: Filters, el: Element, e: Emit): nat
    requires ts.timeBase > 0 && IsTempoMap(maps)
  {
    multiset(AllSent(f, EventsOf(TempoAt(ts, maps, el.time), el)))[e]
  }

  /** The same, summed over a list of elements. */
  ghost function AmountOver(ts: TempoState, maps: seq<Element>, f: Filters, els: seq<Element>, e: Emit): nat
    requires ts.timeBase > 0 && IsTempoMap(maps)
  {
    if els == [] then 0 else Amount(ts, maps, f, els[0], e) + AmountOver(ts, maps, f, els[1..], e)
  }

  /** The same, summed over what is left of each track. */
  ghost function AmountLeft(ts: TempoState, maps: seq<Element>, f: Filters, tracks: Merge.Tracks, counts: seq<nat>, e: Emit): nat
    requires ts.timeBase > 0 && IsTempoMap(maps) && Cursors(tracks, counts)
    decreases |tracks|
  {
    if tracks == [] then 0
    else AmountOver(ts, maps, f, tracks[0][counts[0]..], e) + AmountLeft(ts, maps, f, tracks[1..], counts[1..], e)
  }

  /** The same, summed over whole tracks. */
  ghost function AmountOverTracks(ts: TempoState, maps: seq<Element>, f: Filters, tracks: seq<seq<Element>>, e: Emit): nat
    requires ts.timeBase > 0 && IsTempoMap(maps)
  {
    if tracks == [] then 0 else AmountOver(ts, maps, f, tracks[0], e) + AmountOverTracks(ts, maps, f, tracks[1..], e)
  }

  lemma {:induction false} AllSentConcat(f: Filters, a: seq<Placed>, b: seq<Placed>)
    ensures AllSent(f, a + b) == AllSent(f, a) + AllSent(f, b)
  {
    hide MessageOf;
    if b == [] {
      assert a + b == a;
    } else {
      AllSentConcat(f, a, b[..|b| - 1]);
      assert (a + b)[..|a + b| - 1] == a + b[..|b| - 1];
    }
  }

  lemma {:induction false} LookedAmount(ts: TempoState, maps: seq<Element>, f: Filters, els: seq<Element>, e: Emit)
    requires ts.timeBase > 0 && IsTempoMap(maps)
    ensures multiset(AllSent(f, Looked(ts, maps, els)))[e] == AmountOver(ts, maps, f, els, e)
  {
    hide EventsOf, TempoAt;
    if els != [] {
      LookedAmount(ts, maps, f, els[1..], e);
      AllSentConcat(f, EventsOf(TempoAt(ts, maps, els[0].time), els[0]), Looked(ts, maps, els[1..]));
    }
  }

  lemma {:induction false} TakingAmount(ts: TempoState, maps: seq<Element>, f: Filters, tracks: Merge.Tracks, counts: seq<nat>, k: nat, e: Emit)
    requires ts.timeBase > 0 && IsTempoMap(maps)
    requires Cursors(tracks, counts) && k < |tracks| && counts[k] < |tracks[k]|
    ensures Cursors(tracks, counts[k := counts[k] + 1])
    ensures AmountLeft(ts, maps, f, tracks, counts, e) ==
            Amount(ts, maps, f, tracks[k][counts[k]], e) + AmountLeft(ts, maps, f, tracks, counts[k := counts[k] + 1], e)
    decreases |tracks|
  {
    hide Amount, IsTempoMap;
    var later := counts[k := counts[k] + 1];
    if k == 0 {
      assert later[1..] == counts[1..];
      assert tracks[0][counts[0]..][1..] == tracks[0][later[0]..];
    } else {
      TakingAmount(ts, maps, f, tracks[1..], counts[1..], k - 1, e);
      assert later[1..] == counts[1..][k - 1 := counts[k] + 1];
    }
  }

  lemma {:induction false} NothingLeft(ts: TempoState, maps: seq<Element>, f: Filters, tracks: Merge.Tracks, counts: seq<nat>, e: Emit)
    requires ts.timeBase > 0 && IsTempoMap(maps)
    requires Cursors(tracks, counts) && forall j :: 0 <= j < |tracks| ==> counts[j] == |tracks[j]|
    ensures AmountLeft(ts, maps, f, tracks, counts, e) == 0
    decreases |tracks|
  {
    if tracks != [] {
      NothingLeft(ts, maps, f, tracks[1..], counts[1..], e);
    }
  }

  /** The merge changes the order of the messages but not their number. */
  lemma {:induction false} MergeKeepsAmounts(ts: TempoState, maps: seq<Element>, f: Filters, tracks: Merge.Tracks, counts: seq<nat>, e: Emit)
    requires ts.timeBase > 0 && IsTempoMap(maps) && Cursors(tracks, counts)
    ensures AmountOver(ts, maps, f, ToCome(tracks, counts), e) == AmountLeft(ts, maps, f, tracks, counts, e)
    decreases Remaining(tracks, counts)
  {
    hide Amount, AmountLeft, IsNext, ToCome, Remaining, NextTrack;
    match NextTrack(tracks, counts)
    case None =>
      NothingToCome(tracks, counts);
      NothingLeft(ts, maps, f, tracks, counts, e);
    case Some(k) =>
      var x, later := tracks[k][counts[k]], counts[k := counts[k] + 1];
      TakingOne(tracks, counts, k);
      TakeHead(tracks, counts, k);
      TakingAmount(ts, maps, f, tracks, counts, k, e);
      MergeKeepsAmounts(ts, maps, f, tracks, later, e);
      assert ([x] + ToCome(tracks, later))[1..] == ToCome(tracks, later);
  }

  lemma {:induction false} AllLeft(ts: TempoState, maps: seq<Element>, f: Filters, tracks: Merge.Tracks, counts: seq<nat>, e: Emit)
    requires ts.timeBase > 0 && IsTempoMap(maps) && Cursors(tracks, counts)
    requires forall i :: 0 <= i < |counts| ==> counts[i] == 0
    ensures AmountLeft(ts, maps, f, tracks, counts, e) == AmountOverTracks(ts, maps, f, tracks, e)
    decreases |tracks|
  {
    hide AmountOver;
    if tracks != [] {
      AllLeft(ts, maps, f, tracks[1..], counts[1..], e);
    }
  }

  lemma {:induction false} MapsSilent(ts: TempoState, maps: seq<Element>, f: Filters, els: seq<Element>, e: Emit)
    requires ts.timeBase > 0 && IsTempoMap(maps)
    requires forall i :: 0 <= i < |els| ==> IsMapEvent(els[i])
    ensures AmountOver(ts, maps, f, els, e) == 0
  {
    hide TempoAt;
    if els != [] {
      NoMapEvents(TempoAt(ts, maps, els[0].time), els[0]);
      MapsSilent(ts, maps, f, els[1..], e);
    }
  }

  // ----- the song as a whole

  ghost predicate SongSorted(song: SongFile) {
    Sorted(song.maps) && forall k :: 0 <= k < |song.tracks| ==> Sorted(song.tracks[k])
  }

  /** Loading places events exactly where the tempo map says, in merge order. */
  lemma {:induction false} PlacedByTempoMap(song: SongFile, sampleRate: nat)
    requires song.timeBase > 0 && MapsApart(song) && SongSorted(song)
    ensures IsTempoMap(song.maps)
    ensures SongStream(song, sampleRate) == Looked(StartTempo(song, sampleRate), song.maps, Merged([song.maps] + song.tracks))
  {
    hide Level, EventsOf, Looked, ToCome, TempoAfter, Placements, Sorted;
    var tracks := [song.maps] + song.tracks;
    assert forall k :: 0 < k < |tracks| ==> tracks[k] == song.tracks[k - 1];
    SortedMap(song.maps);
    NothingTaken(tracks);
    var ts, root := StartTempo(song, sampleRate), Root(0, song.timeBase);
    RootsOnlyFirst(song);
    RunningTempoIsLookup(ts, tracks, Zeros(tracks));
    PlacementsFirst(InitialTempo(sampleRate), root, Merged(tracks));
    RootOnlySetsBase(InitialTempo(sampleRate), root);
    NoChangesYet(ts);
    assert tracks[0][..0] == [];
  }

  lemma SortedMap(maps: seq<Element>)
    requires Sorted(maps) && forall i :: 0 <= i < |maps| ==> IsMapEvent(maps[i])
    ensures IsTempoMap(maps)
  {
  }

  lemma NothingTaken(tracks: Merge.Tracks)
    ensures Level(tracks, Zeros(tracks))
  {
  }

  lemma RootOnlySetsBase(ts: TempoState, root: Element)
    requires root.Root?
    ensures EventsOf(ts, root) == [] && Advance(ts, root) == ts.(timeBase := root.timeBase)
  {
  }

  lemma NoChangesYet(ts: TempoState)
    requires ts.timeBase > 0
    ensures TempoAfter(ts, []) == ts
  {
  }

  lemma {:induction false} NoTempoMicroTicks(mpq: nat, from: nat, maps: seq<Element>, tick: nat)
    requires forall i :: 0 <= i < |maps| ==> !maps[i].Tempo?
    ensures MicroTicks(mpq, from, maps, tick) == mpq * (tick - from)
    decreases |maps|
  {
    if maps != [] {
      NoTempoMicroTicks(mpq, from, maps[1..], tick);
    }
  }

  /** The frames of a song, written out: it starts at frame 0 and tick 0 with 500000 microseconds per quarter, keeps to
      the tempo entries at or before a tick, and without any of them plays at that tempo throughout. */
  lemma SongFrames(song: SongFile, sampleRate: nat, tick: Word)
    requires song.timeBase > 0 && IsTempoMap(song.maps)
    ensures var past := song.maps[..MapPrefix(song.maps, tick)];
            var frame, d := TempoFrame(StartTempo(song, sampleRate), song.maps, tick), 1000000 * song.timeBase;
            var exact := sampleRate * MicroTicks(500000, 0, past, tick);
            (exact < 0x1_0000_0000 * d ==> frame * d <= exact < (frame + TempoChanges(past) + 1) * d) &&
            ((forall i :: 0 <= i < |past| ==> !past[i].Tempo?) ==> MicroTicks(500000, 0, past, tick) == 500000 * tick)
  {
    hide TempoFrame, MicroTicks, TempoChanges, IsTempoMap;
    var past := song.maps[..MapPrefix(song.maps, tick)];
    TempoErrorBound(StartTempo(song, sampleRate), song.maps, tick);
    if forall i :: 0 <= i < |past| ==> !past[i].Tempo? {
      NoTempoMicroTicks(500000, 0, past, tick);
    }
  }

  /** Every element of every track is heard exactly as often as it sends messages by itself, at the frames the
      tempo map gives: for each message, its number of occurrences in the whole song is the sum over all elements. */
  lemma {:induction false} EveryElementCounts(song: SongFile, sampleRate: nat, f: Filters, e: Emit)
    requires song.timeBase > 0 && MapsApart(song) && SongSorted(song)
    ensures IsTempoMap(song.maps)
    ensures multiset(AllSent(f, SongStream(song, sampleRate)))[e] ==
            AmountOverTracks(StartTempo(song, sampleRate), song.maps, f, song.tracks, e)
  {
    hide SongStream, Looked, AllSent, AmountOver, Order;
    var tracks, ts := [song.maps] + song.tracks, StartTempo(song, sampleRate);
    PlacedByTempoMap(song, sampleRate);
    LookedAmount(ts, song.maps, f, Merged(tracks), e);
    MergeKeepsAmounts(ts, song.maps, f, tracks, Zeros(tracks), e);
    AllLeft(ts, song.maps, f, tracks, Zeros(tracks), e);
    MapsSilent(ts, song.maps, f, song.maps, e);
    assert tracks[0] == song.maps && tracks[1..] == song.tracks;
  }
}
