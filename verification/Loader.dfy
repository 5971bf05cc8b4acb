/** jpmidi_loadfile: process the merged elements, add entry points, link the records. */
module Loader {
  import opened Common
  import opened Elements
  import opened TempoMap
  import opened Timeline
  import opened Merge
  import opened MidiFile
  import opened Score
  import opened Song

  /** Device channels index a 16-entry array, so every channel element has to be on port 0. */
  ghost predicate OnPortZero(els: seq<Element>) {
    forall i :: 0 <= i < |els| && els[i].HasChannel() ==> els[i].channel < CHANNELS
  }

  /** What jpmidi_loadfile needs of a parsed file and a sample rate. */
  ghost predicate Loadable(song: SongFile, sampleRate: nat) {
    song.timeBase > 0 && MapsApart(song) && 0 < sampleRate <= TWO_31 &&
    (forall k :: 0 <= k < |song.tracks| ==> OnPortZero(song.tracks[k])) &&
    LastFrame(SongStream(song, sampleRate)) < TWO_31
  }

  lemma FromSomeTrack(tracks: Merge.Tracks, i: nat) returns (t: Tag)
    requires i < |Merged(tracks)|
    ensures HasTag(tracks, t) && Merged(tracks)[i] == At(tracks, t)
  {
    OrderComplete(tracks, Zeros(tracks));
    t := Order(tracks, Zeros(tracks))[i];
    assert t in Order(tracks, Zeros(tracks));
  }

  lemma ProcessedChannels(song: SongFile)
    requires MapsApart(song) && forall k :: 0 <= k < |song.tracks| ==> OnPortZero(song.tracks[k])
    ensures OnPortZero(Processed(song))
  {
    hide Merged, MapsApart;
    var tracks := [song.maps] + song.tracks;
    var merged := Merged(tracks);
    forall i | 0 <= i < |merged| && merged[i].HasChannel() ensures merged[i].channel < CHANNELS {
      var t := FromSomeTrack(tracks, i);
      if t.track == 0 {
        MapsHaveNoChannel(song, t.index);
      } else {
        assert tracks[t.track] == song.tracks[t.track - 1];
        assert OnPortZero(song.tracks[t.track - 1]);
      }
    }
  }

  lemma MapsHaveNoChannel(song: SongFile, i: nat)
    requires MapsApart(song) && i < |song.maps|
    ensures !song.maps[i].HasChannel()
  {
  }

  /** Processing one more element extends the stream and the tempo state. */
  lemma ProcessNext(ts: TempoState, done: seq<Element>, el: Element)
    requires Processable(ts, done + [el])
    ensures Processable(ts, done)
    ensures el.Root? || TempoAfter(ts, done).timeBase > 0
    ensures TempoAfter(ts, done + [el]) == Advance(TempoAfter(ts, done), el)
    ensures Placements(ts, done + [el]) == Placements(ts, done) + EventsOf(TempoAfter(ts, done), el)
  {
    hide Advance, EventsOf;
    var all := done + [el];
    assert all[..|done|] == done;
    assert forall i :: 0 <= i < |done| ==> done[i] == all[i];
    assert all[|done|] == el;
  }

  lemma SlicesAtStart<T>(all: seq<T>)
    ensures all[..0] == [] && all[0..] == all && all[..|all|] == all
  {
  }

  lemma NextSlices(ts: TempoState, all: seq<Element>, n: nat)
    requires Processable(ts, all) && n < |all|
    ensures all[..n] + [all[n]] == all[..n + 1] && Processable(ts, all[..n + 1])
    ensures all[n + 1..] == if n + 1 == |all| then [] else [all[n + 1]] + all[n + 2..]
    ensures n + 1 < |all| ==> all[n + 1..][0] == all[n + 1] && all[n + 1..][1..] == all[n + 2..]
    ensures all[n].Root? ==> all[n].timeBase > 0
  {
  }

  /** Some element belongs to a channel. */
  ghost predicate OnChannel(els: seq<Element>, c: nat) {
    exists i :: 0 <= i < |els| && els[i].HasChannel() && els[i].channel == c
  }

  lemma OnChannelNext(done: seq<Element>, el: Element)
    ensures forall c: nat :: OnChannel(done + [el], c) <==> OnChannel(done, c) || (el.HasChannel() && el.channel == c)
  {
    var all := done + [el];
    forall c: nat ensures OnChannel(all, c) <==> OnChannel(done, c) || (el.HasChannel() && el.channel == c) {
      if OnChannel(done, c) {
        var i :| 0 <= i < |done| && done[i].HasChannel() && done[i].channel == c;
        assert all[i] == done[i];
      }
      assert all[|done|] == el;
    }
  }

  /** The channels with data are those of the elements processed so far. */
  ghost predicate DataFlags(root: MidiRoot, done: seq<Element>)
    reads root, root.hasData
  {
    root.hasData.Length == CHANNELS && forall c: nat :: c < CHANNELS ==> (root.hasData[c] <==> OnChannel(done, c))
  }

  /** The root holds the events and the tempo state of the elements processed so far. */
  ghost predicate UpTo(root: MidiRoot, ts: TempoState, done: seq<Element>)
    reads root, root.records, root.muted, root.hasData
  {
    DataFlags(root, done) &&
    root.Sizes() && root.RecordsValid() && root.NoEmptyRecords() && Processable(ts, done) &&
    root.stream == Placements(ts, done) && root.TempoNow() == TempoAfter(ts, done) &&
    root.Filters() == AllOpen()
  }

  /** One round of the loop in jpmidi_loadfile. */
  method ProcessOne(root: MidiRoot, el: Element, ghost ts: TempoState, ghost done: seq<Element>)
    requires UpTo(root, ts, done) && Processable(ts, done + [el])
    requires el.Root? ==> el.timeBase > 0
    requires el.HasChannel() ==> el.channel < CHANNELS
    modifies root`timeBase, root`tempoMpq, root`xtempoFrame, root`xtempoTick
    modifies root`data, root`lastFrame, root`records, root`stream, root.records, root.hasData
    ensures UpTo(root, ts, done + [el]) && fresh(root.records - old(root.records))
  {
    hide MidiRoot.RecordsValid, MidiRoot.NoEmptyRecords, LastFrame, TempoAfter, Placements, Advance, EventsOf, FrameAt, Processable, OnChannel;
    ProcessNext(ts, done, el);
    OnChannelNext(done, el);
    root.ProcessElement(el);
  }

  /** The loop in jpmidi_loadfile: process what the sequence hands out until it is empty. */
  method ProcessAll(root: MidiRoot, state: SequenceState, ghost ts: TempoState, ghost all: seq<Element>)
    requires UpTo(root, ts, []) && state.Valid() && state.Rest() == all && Processable(ts, all) && OnPortZero(all)
    modifies root`timeBase, root`tempoMpq, root`xtempoFrame, root`xtempoTick
    modifies root`data, root`lastFrame, root`records, root`stream, root.records, root.hasData
    modifies state`root, state.count
    ensures UpTo(root, ts, all) && fresh(root.records - old(root.records))
  {
    hide UpTo, Processable, SequenceState.Valid, SequenceState.Rest;
    ghost var n: nat := 0;
    SlicesAtStart(all);
    var el := state.Next();
    while el != None
      invariant state.Valid() && n <= |all| && UpTo(root, ts, all[..n]) && fresh(root.records - old(root.records))
      invariant if el == None then n == |all| else n < |all| && el.value == all[n] && state.Rest() == all[n + 1..]
      decreases |all| - n
    {
      NextSlices(ts, all, n);
      ProcessOne(root, el.value, ts, all[..n]);
      n := n + 1;
      el := state.Next();
    }
  }

  /** Load a parsed file: the root is ready for playing and holds exactly the events of the song's stream. */
  method LoadFile(song: SongFile, sampleRate: nat) returns (root: MidiRoot)
    requires Loadable(song, sampleRate)
    ensures fresh(root) && fresh(root.muted) && fresh(root.hasData) && fresh(root.records)
    ensures root.Loaded() && root.stream == SongStream(song, sampleRate) && root.Filters() == AllOpen()
    ensures forall c: nat :: c < 16 ==> (root.hasData[c] <==> OnChannel(Processed(song), c))
  {
    hide MidiRoot.RecordsValid, MidiRoot.NoEmptyRecords, MidiRoot.HasEntryPoints, MidiRoot.Threaded, LastFrame, Processed,
         TempoAfter, Placements, MapsApart, Merged, SequenceState.Valid, SequenceState.Rest, Processable, OnChannel;
    root := new MidiRoot(sampleRate);
    RootsOnlyFirst(song);
    ProcessedChannels(song);
    NothingProcessed(InitialTempo(sampleRate));
    StartsWithRoot(song);
    var state := new SequenceState(Root(0, song.timeBase), [song.maps] + song.tracks);
    ProcessAll(root, state, InitialTempo(sampleRate), Processed(song));
    StreamOf(song, sampleRate);
    SizedStream(root);
    root.AddEntryPoints();
    root.LinkRecords();
  }

  lemma SizedStream(root: MidiRoot)
    requires root.Sizes() && root.RecordsValid()
    ensures root.lastFrame == LastFrame(root.stream)
  {
  }

  lemma NothingProcessed(ts: TempoState)
    ensures Processable(ts, []) && TempoAfter(ts, []) == ts && Placements(ts, []) == [] && forall c: nat :: !OnChannel([], c)
  {
  }

  lemma StartsWithRoot(song: SongFile)
    ensures Processed(song) == [Root(0, song.timeBase)] + Merged([song.maps] + song.tracks)
  {
  }

  lemma StreamOf(song: SongFile, sampleRate: nat)
    requires song.timeBase > 0 && MapsApart(song)
    ensures Processable(InitialTempo(sampleRate), Processed(song))
    ensures SongStream(song, sampleRate) == Placements(InitialTempo(sampleRate), Processed(song))
  {
    RootsOnlyFirst(song);
  }
}
