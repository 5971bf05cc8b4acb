/** What the note pairing achieves: the elements of a track described without any pending array. */
module NoteLengths {
  import opened Common
  import opened Elements
  import opened Smf
  import opened Pairing

  /** The time after the first n events: the sum of their deltas. */
  function TimeAt(events: seq<Timed>, n: nat): int
    requires n <= |events|
  {
    if n == 0 then 0 else TimeAt(events, n - 1) + events[n - 1].delta
  }

  /** Deltas are not negative and their sum stays below 2^31. */
  ghost predicate Timely(events: seq<Timed>) {
    (forall i :: 0 <= i < |events| ==> 0 <= events[i].delta) && TimeAt(events, |events|) < TWO_31
  }

  /** The port in force after the first n events. */
  function PortAt(port: Byte, events: seq<Timed>, n: nat): Byte
    requires n <= |events|
  {
    if n == 0 then port else NextPort(PortAt(port, events, n - 1), events[n - 1].message)
  }

  /** The device channel and key of a note message. */
  function VoiceAt(port: Byte, events: seq<Timed>, i: nat): (nat, Byte)
    requires i < |events| && (IsNoteOn(events[i].message) || IsNoteOff(events[i].message))
  {
    (Device(PortAt(port, events, i), events[i].message.channel), events[i].message.key)
  }

  predicate AddsElement(m: Message) {
    MakeElement(0, 0, m).Some?
  }

  /** The events among the first n that add an element, in order. */
  ghost function Origins(events: seq<Timed>, n: nat): (r: seq<nat>)
    requires n <= |events|
    ensures forall x :: 0 <= x < |r| ==> r[x] < n && AddsElement(events[r[x]].message)
    ensures forall x, y :: 0 <= x < y < |r| ==> r[x] < r[y]
  {
    if n == 0 then [] else Origins(events, n - 1) + (if AddsElement(events[n - 1].message) then [n - 1] else [])
  }

  /** The track as read up to event n. */
  ghost function ReadUpTo(port: Byte, events: seq<Timed>, n: nat): (s: TrackState)
    requires n <= |events|
    ensures Sane(s.elements, s.pending)
  {
    Interpret(StartOfTrack(port, []), events[..n])
  }

  /** Event k is a note-off, and the note it finds among those pending is the one that event i started. */
  ghost predicate Releases(port: Byte, events: seq<Timed>, i: nat, k: nat)
    requires i < |events| && k < |events|
  {
    IsNoteOff(events[k].message) &&
    var s := ReadUpTo(port, events, k);
    var (channel, key) := VoiceAt(port, events, k);
    var found := FindPending(s.elements, s.pending, channel, key);
    found.Some? && s.pending[found.value] == |Origins(events, i)|
  }

  ghost function ReleaseFrom(port: Byte, events: seq<Timed>, i: nat, k: nat): (r: nat)
    requires i < |events| && k <= |events|
    ensures k <= r <= |events|
    ensures r < |events| ==> Releases(port, events, i, r)
    ensures forall j :: k <= j < r ==> !Releases(port, events, i, j)
    decreases |events| - k
  {
    if k == |events| || Releases(port, events, i, k) then k else ReleaseFrom(port, events, i, k + 1)
  }

  /** The event that releases the note started by event i, or the end of the track. */
  ghost function Release(port: Byte, events: seq<Timed>, i: nat): (r: nat)
    requires i < |events|
    ensures i < r <= |events|
    ensures r < |events| ==> Releases(port, events, i, r)
    ensures forall j :: i < j < r ==> !Releases(port, events, i, j)
  {
    ReleaseFrom(port, events, i, i + 1)
  }

  /** The element of event i when the track has been read up to event n: a note stays open until it is released. */
  ghost function ElementOf(port: Byte, events: seq<Timed>, i: nat, n: nat): Element
    requires i < n <= |events| && Timely(events) && AddsElement(events[i].message)
  {
    var m := events[i].message;
    var start := U32(TimeAt(events, i + 1));
    if IsNoteOn(m) then
      var (channel, key) := VoiceAt(port, events, i);
      var off := Release(port, events, i);
      if off >= n then Note(start, channel, key, m.velocity, -1, 0)
      else Note(start, channel, key, m.velocity, TimeAt(events, off + 1) - TimeAt(events, i + 1), events[off].message.velocity)
    else MakeElement(start, ChannelOf(PortAt(port, events, i), m), m).value
  }

  /** The element of event i at the end of the track: a note lasts until its release, or to the end. */
  ghost function FinalElement(port: Byte, events: seq<Timed>, i: nat): Element
    requires i < |events| && Timely(events) && AddsElement(events[i].message)
  {
    var e := ElementOf(port, events, i, |events|);
    if e.Note? && e.length == -1 then e.(length := TimeAt(events, |events|) - TimeAt(events, i + 1)) else e
  }

  ghost function ExpectedElements(port: Byte, events: seq<Timed>): seq<Element>
    requires Timely(events)
  {
    var o := Origins(events, |events|);
    seq(|o|, x requires 0 <= x < |o| => FinalElement(port, events, o[x]))
  }

  // ----- reading a track

  lemma {:induction false} TimesGrow(events: seq<Timed>, i: nat, j: nat)
    requires i <= j <= |events| && forall k :: 0 <= k < |events| ==> 0 <= events[k].delta
    ensures 0 <= TimeAt(events, i) <= TimeAt(events, j)
    decreases j
  {
    if i < j {
      TimesGrow(events, i, j - 1);
    } else if i > 0 {
      TimesGrow(events, i - 1, i - 1);
    }
  }

  lemma SmallInt(x: int)
    requires 0 <= x < TWO_31
    ensures Int32(x) == x && U32(x) == x
  {
  }

  lemma TimeAndPort(s: TrackState, e: Timed)
    requires Sane(s.elements, s.pending)
    ensures Apply(s, e).time == Int32(s.time + e.delta) && Apply(s, e).port == NextPort(s.port, e.message)
  {
    hide Int32, Finish, MakeElement, MakeMap;
  }

  lemma {:induction false} StateAt(port: Byte, maps: seq<Element>, events: seq<Timed>, n: nat)
    requires n <= |events| && Timely(events)
    ensures var s := Interpret(StartOfTrack(port, maps), events[..n]);
            s.time == TimeAt(events, n) && s.port == PortAt(port, events, n)
  {
    hide Int32, Apply, NextPort;
    if n > 0 {
      StateAt(port, maps, events, n - 1);
      TimeAndPort(Interpret(StartOfTrack(port, maps), events[..n - 1]), events[n - 1]);
      assert events[..n][..n - 1] == events[..n - 1];
      TimesGrow(events, n, |events|);
      SmallInt(TimeAt(events, n));
    }
  }

  lemma ReadNext(port: Byte, events: seq<Timed>, n: nat)
    requires n < |events|
    ensures ReadUpTo(port, events, n + 1) == Apply(ReadUpTo(port, events, n), events[n])
  {
    hide Apply;
    assert events[..n + 1][..n] == events[..n];
  }

  lemma {:induction false} PendingUpTo(port: Byte, events: seq<Timed>, n: nat)
    requires n <= |events|
    ensures var s := ReadUpTo(port, events, n); PendingExact(s.elements, s.pending)
  {
    hide Interpret, Distinct;
    NothingPendingYet();
    InterpretKeepsPending(StartOfTrack(port, []), events[..n]);
  }

  lemma NothingPendingYet()
    ensures PendingExact([], [])
  {
  }

  /** The elements read so far are those of the events so far. */
  ghost predicate ReadSoFar(port: Byte, events: seq<Timed>, n: nat)
    requires n <= |events| && Timely(events)
  {
    var s, o := ReadUpTo(port, events, n), Origins(events, n);
    |s.elements| == |o| && forall x :: 0 <= x < |o| ==> s.elements[x] == ElementOf(port, events, o[x], n)
  }

  /** The elements of a prefix are a prefix of the elements. */
  lemma {:induction false} OriginIndex(events: seq<Timed>, n: nat, x: nat)
    requires n <= |events| && x < |Origins(events, n)|
    ensures |Origins(events, Origins(events, n)[x])| == x
  {
    if x < |Origins(events, n - 1)| {
      OriginIndex(events, n - 1, x);
    }
  }

  /** An event that does not release a note leaves that note's element as it was. */
  lemma ElementStays(port: Byte, events: seq<Timed>, i: nat, n: nat)
    requires i < n < |events| && Timely(events) && AddsElement(events[i].message)
    requires IsNoteOn(events[i].message) ==> Release(port, events, i) != n
    ensures ElementOf(port, events, i, n + 1) == ElementOf(port, events, i, n)
  {
    hide Release, Releases, VoiceAt;
  }

  lemma NotItsRelease(port: Byte, events: seq<Timed>, i: nat, n: nat)
    requires i < n < |events| && !Releases(port, events, i, n)
    ensures Release(port, events, i) != n
  {
  }

  /** What reading an event that is not a note-off appends. */
  lemma ElementAdded(port: Byte, events: seq<Timed>, n: nat)
    requires n < |events| && Timely(events) && !IsNoteOff(events[n].message)
    ensures var s := ReadUpTo(port, events, n);
            Apply(s, events[n]).elements ==
            if AddsElement(events[n].message) then s.elements + [ElementOf(port, events, n, n + 1)] else s.elements
  {
    hide Int32, U32, Interpret, Release, Releases, WheelValue;
    var s := ReadUpTo(port, events, n);
    StateAt(port, [], events, n);
    TimesGrow(events, n + 1, |events|);
    SmallInt(TimeAt(events, n + 1));
    assert s.time + events[n].delta == TimeAt(events, n + 1);
  }

  /** An event that is not a note-off adds its own element and changes no other. */
  lemma ReadOther(port: Byte, events: seq<Timed>, n: nat)
    requires n < |events| && Timely(events) && ReadSoFar(port, events, n) && !IsNoteOff(events[n].message)
    ensures ReadSoFar(port, events, n + 1)
  {
    hide Apply, ElementOf, Release, ReadUpTo, Timely;
    ReadNext(port, events, n);
    ElementAdded(port, events, n);
    var o := Origins(events, n);
    forall x | 0 <= x < |o| ensures ElementOf(port, events, o[x], n + 1) == ElementOf(port, events, o[x], n) {
      NotItsRelease(port, events, o[x], n);
      ElementStays(port, events, o[x], n);
    }
  }

  lemma LengthFact(now: int, start: int)
    requires 0 <= start <= now < TWO_31
    ensures LengthOf(now, U32(start)) == now - start
  {
  }

  /** The pending notes are those that have not been released yet. */
  lemma OpenNotes(port: Byte, events: seq<Timed>, n: nat, x: nat)
    requires n <= |events| && Timely(events) && ReadSoFar(port, events, n) && x < |Origins(events, n)|
    ensures var s, i := ReadUpTo(port, events, n), Origins(events, n)[x];
            x in s.pending <==> IsNoteOn(events[i].message) && Release(port, events, i) >= n
  {
    hide Releases, ReadUpTo, Release, VoiceAt;
    var s, i := ReadUpTo(port, events, n), Origins(events, n)[x];
    PendingUpTo(port, events, n);
    assert s.elements[x] == ElementOf(port, events, i, n);
    if IsNoteOn(events[i].message) && Release(port, events, i) < n {
      TimesGrow(events, i + 1, Release(port, events, i) + 1);
    }
    if x in s.pending {
      assert s.elements[x].Note?;
    }
  }

  /** What a note-off does to each element read so far. */
  lemma ReleasedOrNot(port: Byte, events: seq<Timed>, n: nat, x: nat)
    requires n < |events| && Timely(events) && ReadSoFar(port, events, n)
    requires IsNoteOff(events[n].message) && x < |Origins(events, n)|
    ensures var t := ReadUpTo(port, events, n).(time := TimeAt(events, n + 1)); var (channel, key) := VoiceAt(port, events, n);
            Finish(t, channel, key, events[n].message.velocity).elements[x] == ElementOf(port, events, Origins(events, n)[x], n + 1)
  {
    hide ReadUpTo, LengthOf, Int32, ReleaseFrom, FindPending, RemoveFast, VoiceAt;
    var t := ReadUpTo(port, events, n).(time := TimeAt(events, n + 1));
    var i := Origins(events, n)[x];
    OriginIndex(events, n, x);
    OpenNotes(port, events, n, x);
    assert t.elements[x] == ElementOf(port, events, i, n);
    if Releases(port, events, i, n) {
      TimesGrow(events, i + 1, n + 1);
      TimesGrow(events, n + 1, |events|);
      LengthFact(TimeAt(events, n + 1), TimeAt(events, i + 1));
    } else {
      NotItsRelease(port, events, i, n);
      ElementStays(port, events, i, n);
    }
  }

  lemma NoteOffStep(port: Byte, events: seq<Timed>, n: nat)
    requires n < |events| && Timely(events) && IsNoteOff(events[n].message)
    ensures var s := ReadUpTo(port, events, n); var (channel, key) := VoiceAt(port, events, n);
            Apply(s, events[n]) == Finish(s.(time := TimeAt(events, n + 1)), channel, key, events[n].message.velocity)
    ensures Origins(events, n + 1) == Origins(events, n)
  {
    hide Int32, U32, Finish, Interpret;
    var s := ReadUpTo(port, events, n);
    StateAt(port, [], events, n);
    TimesGrow(events, n + 1, |events|);
    SmallInt(TimeAt(events, n + 1));
    assert s.time + events[n].delta == TimeAt(events, n + 1);
  }

  /** A note-off closes the element of the note it releases and changes no other. */
  lemma ReadOff(port: Byte, events: seq<Timed>, n: nat)
    requires n < |events| && Timely(events) && ReadSoFar(port, events, n) && IsNoteOff(events[n].message)
    ensures ReadSoFar(port, events, n + 1)
  {
    hide Apply, Finish, ElementOf, ReadUpTo, Timely, VoiceAt;
    ReadNext(port, events, n);
    NoteOffStep(port, events, n);
    forall x | 0 <= x < |Origins(events, n)| {
      ReleasedOrNot(port, events, n, x);
    }
  }

  lemma NothingRead(port: Byte, events: seq<Timed>)
    requires Timely(events)
    ensures ReadSoFar(port, events, 0)
  {
    assert events[..0] == [];
  }

  lemma {:induction false} ReadPrefix(port: Byte, events: seq<Timed>, n: nat)
    requires n <= |events| && Timely(events)
    ensures ReadSoFar(port, events, n)
  {
    hide ReadSoFar, Timely;
    if n == 0 {
      NothingRead(port, events);
    } else {
      ReadPrefix(port, events, n - 1);
      if IsNoteOff(events[n - 1].message) {
        ReadOff(port, events, n - 1);
      } else {
        ReadOther(port, events, n - 1);
      }
    }
  }

  // ----- the whole track

  /** Finishing what is left at the end of the track turns each element into its final form. */
  lemma ElementClosed(port: Byte, events: seq<Timed>, x: nat)
    requires Timely(events) && ReadSoFar(port, events, |events|) && x < |Origins(events, |events|)|
    ensures var s := ReadUpTo(port, events, |events|);
            x < |FinishAll(s).elements| && FinishAll(s).elements[x] == FinalElement(port, events, Origins(events, |events|)[x])
  {
    hide Interpret, LengthOf, Int32, U32, Release, Releases, FinishAll, VoiceAt;
    var n := |events|;
    var s, i := ReadUpTo(port, events, n), Origins(events, n)[x];
    StateAt(port, [], events, n);
    PendingUpTo(port, events, n);
    FinishAllEffect(s);
    OpenNotes(port, events, n, x);
    assert s.elements[x] == ElementOf(port, events, i, n);
    if IsNoteOn(events[i].message) && Release(port, events, i) < n {
      TimesGrow(events, i + 1, Release(port, events, i) + 1);
    }
    TimesGrow(events, i + 1, n);
    LengthFact(TimeAt(events, n), TimeAt(events, i + 1));
  }

  /** The tempo map read so far has no influence on the notes. */
  ghost predicate SameButMaps(s: TrackState, t: TrackState) {
    s.(maps := []) == t.(maps := [])
  }

  lemma {:induction false} MapsDoNotMatter(port: Byte, maps: seq<Element>, events: seq<Timed>)
    ensures SameButMaps(Interpret(StartOfTrack(port, maps), events), Interpret(StartOfTrack(port, []), events))
    decreases |events|
  {
    hide Apply;
    if events != [] {
      var front, last := events[..|events| - 1], events[|events| - 1];
      MapsDoNotMatter(port, maps, front);
      SameAfter(Interpret(StartOfTrack(port, maps), front), Interpret(StartOfTrack(port, []), front), last);
    }
  }

  lemma SameAfter(s: TrackState, t: TrackState, e: Timed)
    requires Sane(s.elements, s.pending) && Sane(t.elements, t.pending) && SameButMaps(s, t)
    ensures SameButMaps(Apply(s, e), Apply(t, e))
  {
    hide Int32, LengthOf, FindPending, RemoveFast;
  }

  /** For every track: reading it yields one element per element-making event, in order, stamped with the sum of the
      deltas, and each note lasts until the event that releases it or until the end of the track. */
  lemma {:induction false} TrackElements(port: Byte, maps: seq<Element>, events: seq<Timed>)
    requires Timely(events)
    ensures TrackResult(port, maps, events).elements == ExpectedElements(port, events)
  {
    hide Interpret, FinishAll, FinalElement, Timely, Distinct;
    var n := |events|;
    var s, t, o := Interpret(StartOfTrack(port, maps), events), ReadUpTo(port, events, n), Origins(events, n);
    assert events[..n] == events;
    MapsDoNotMatter(port, maps, events);
    ReadPrefix(port, events, n);
    PendingUpTo(port, events, n);
    FinishAllEffect(s);
    FinishAllEffect(t);
    forall x | 0 <= x < |o| {
      ElementClosed(port, events, x);
    }
  }

  // ----- which note a note-off releases

  predicate EndsVoice(port: Byte, events: seq<Timed>, i: nat, k: nat)
    requires i < |events| && k < |events| && IsNoteOn(events[i].message)
  {
    IsNoteOff(events[k].message) && VoiceAt(port, events, k) == VoiceAt(port, events, i)
  }

  /** The first note-off from event k on for the voice of note-on i, or the end of the track. */
  function OffFrom(port: Byte, events: seq<Timed>, i: nat, k: nat): (r: nat)
    requires i < |events| && k <= |events| && IsNoteOn(events[i].message)
    ensures k <= r <= |events|
    ensures r < |events| ==> EndsVoice(port, events, i, r)
    ensures forall j :: k <= j < r ==> !EndsVoice(port, events, i, j)
    decreases |events| - k
  {
    if k == |events| || EndsVoice(port, events, i, k) then k else OffFrom(port, events, i, k + 1)
  }

  function NextOff(port: Byte, events: seq<Timed>, i: nat): (r: nat)
    requires i < |events| && IsNoteOn(events[i].message)
    ensures i < r <= |events|
    ensures r < |events| ==> EndsVoice(port, events, i, r)
    ensures forall j :: i < j < r ==> !EndsVoice(port, events, i, j)
  {
    OffFrom(port, events, i, i + 1)
  }

  /** A note-off releases a note of its own channel and key that was started before it. */
  lemma ReleasesItsVoice(port: Byte, events: seq<Timed>, i: nat, k: nat)
    requires i < k < |events| && Timely(events) && AddsElement(events[i].message) && Releases(port, events, i, k)
    ensures IsNoteOn(events[i].message) && EndsVoice(port, events, i, k) && Release(port, events, i) >= k
  {
    hide ReadUpTo, FindPending, Release, ReleaseFrom, VoiceAt, PendingExact;
    var s, x := ReadUpTo(port, events, k), |Origins(events, i)|;
    ReadPrefix(port, events, k);
    OriginAt(events, k, i);
    OpenNotes(port, events, k, x);
    assert s.elements[x] == ElementOf(port, events, i, k);
  }

  lemma {:induction false} OriginAt(events: seq<Timed>, n: nat, i: nat)
    requires i < n <= |events| && AddsElement(events[i].message)
    ensures |Origins(events, i)| < |Origins(events, n)| && Origins(events, n)[|Origins(events, i)|] == i
  {
    if i < n - 1 {
      OriginAt(events, n - 1, i);
    }
  }

  lemma ReleaseIsNoteOff(port: Byte, events: seq<Timed>, i: nat)
    requires i < |events| && Release(port, events, i) < |events|
    ensures IsNoteOff(events[Release(port, events, i)].message)
  {
    hide ReleaseFrom;
    assert Releases(port, events, i, Release(port, events, i));
  }

  /** No note-off releases two notes. */
  lemma ReleasesOneNote(port: Byte, events: seq<Timed>, i: nat, j: nat, k: nat)
    requires i < k < |events| && j < k && AddsElement(events[i].message) && AddsElement(events[j].message)
    requires Releases(port, events, i, k) && Releases(port, events, j, k)
    ensures i == j
  {
    OriginAt(events, k, i);
    OriginAt(events, k, j);
  }

  /** No note-off is wasted: when a note of its channel and key has not been released, it releases one. */
  lemma ReleasesSome(port: Byte, events: seq<Timed>, i: nat, k: nat) returns (j: nat)
    requires i < k < |events| && Timely(events) && IsNoteOn(events[i].message)
    requires EndsVoice(port, events, i, k) && Release(port, events, i) >= k
    ensures j < k && IsNoteOn(events[j].message) && EndsVoice(port, events, j, k) && Release(port, events, j) == k
  {
    hide ReadUpTo, FindPending, ReleaseFrom, VoiceAt;
    var s, x := ReadUpTo(port, events, k), |Origins(events, i)|;
    var (channel, key) := VoiceAt(port, events, k);
    ReadPrefix(port, events, k);
    OriginAt(events, k, i);
    OpenNotes(port, events, k, x);
    assert s.elements[x] == ElementOf(port, events, i, k);
    var p :| 0 <= p < |s.pending| && s.pending[p] == x;
    assert Matches(s.elements[s.pending[p]], channel, key);
    var y := s.pending[FindPending(s.elements, s.pending, channel, key).value];
    j := Origins(events, k)[y];
    OriginIndex(events, k, y);
    ReleasesItsVoice(port, events, j, k);
  }

  /** Events i and k are note-ons for the same channel and key. */
  predicate SameVoice(port: Byte, events: seq<Timed>, i: nat, k: nat)
    requires i < |events| && k < |events|
  {
    IsNoteOn(events[i].message) && IsNoteOn(events[k].message) && VoiceAt(port, events, i) == VoiceAt(port, events, k)
  }

  /** No note-off is the first later one for two notes of its channel and key: whenever a note is struck again
      before its first later note-off, no such note-off comes at all. */
  ghost predicate Separate(port: Byte, events: seq<Timed>) {
    forall i, k :: 0 <= i < k < |events| && SameVoice(port, events, i, k) ==>
      NextOff(port, events, i) < k || NextOff(port, events, i) == |events|
  }

  lemma SeparateFact(port: Byte, events: seq<Timed>, i: nat, k: nat)
    requires Separate(port, events) && i < k < |events| && SameVoice(port, events, i, k)
    ensures NextOff(port, events, i) < k || NextOff(port, events, i) == |events|
  {
  }

  /** In a separate track each note is released by the first later note-off of its channel and key. */
  lemma {:induction false} ReleaseIsNextOff(port: Byte, events: seq<Timed>, i: nat)
    requires i < |events| && Timely(events) && Separate(port, events) && IsNoteOn(events[i].message)
    ensures Release(port, events, i) == NextOff(port, events, i)
    decreases i
  {
    hide Releases, ReleaseFrom, OffFrom, VoiceAt, Separate, Timely;
    var r, off := Release(port, events, i), NextOff(port, events, i);
    if r < |events| {
      ReleasesItsVoice(port, events, i, r);
    }
    if off < r {
      var j := ReleasesSome(port, events, i, off);
      if j < i {
        SeparateFact(port, events, j, i);
        ReleaseIsNextOff(port, events, j);
      } else if i < j {
        SeparateFact(port, events, i, j);
      }
    }
  }

  /** Every note runs to its own first later note-off. */
  ghost predicate ReleasedByNextOff(port: Byte, events: seq<Timed>) {
    forall i :: 0 <= i < |events| && IsNoteOn(events[i].message) ==> Release(port, events, i) == NextOff(port, events, i)
  }

  /** A note-off shared by two notes can release only one of them. */
  lemma SharedNoteOff(port: Byte, events: seq<Timed>, i: nat, k: nat)
    requires i < k < |events| && SameVoice(port, events, i, k) && ReleasedByNextOff(port, events)
    ensures NextOff(port, events, i) < k || NextOff(port, events, i) == |events|
  {
    hide Releases, ReleaseFrom, OffFrom, VoiceAt;
    var off := NextOff(port, events, i);
    if k <= off < |events| {
      assert !EndsVoice(port, events, i, k);
      assert EndsVoice(port, events, k, off);
      assert forall j :: k < j < off ==> (EndsVoice(port, events, k, j) <==> EndsVoice(port, events, i, j));
      assert NextOff(port, events, k) == off;
      assert Release(port, events, i) == off && Release(port, events, k) == off;
      ReleasesOneNote(port, events, i, k, off);
    }
  }

  /** Notes run to their first later note-offs exactly in separate tracks. */
  lemma NextOffExactly(port: Byte, events: seq<Timed>)
    requires Timely(events)
    ensures ReleasedByNextOff(port, events) <==> Separate(port, events)
  {
    hide Releases, ReleaseFrom, OffFrom, VoiceAt, Timely;
    if Separate(port, events) {
      forall i | 0 <= i < |events| && IsNoteOn(events[i].message) ensures Release(port, events, i) == NextOff(port, events, i) {
        ReleaseIsNextOff(port, events, i);
      }
    }
    if ReleasedByNextOff(port, events) {
      forall i, k | 0 <= i < k < |events| && SameVoice(port, events, i, k)
        ensures NextOff(port, events, i) < k || NextOff(port, events, i) == |events|
      {
        SharedNoteOff(port, events, i, k);
      }
    }
  }

  // ----- last-in first-out

  /** Note-off k, if it finds a note, leaves the pending notes of each channel and key in start order. */
  ghost predicate Undisturbing(port: Byte, events: seq<Timed>, k: nat)
    requires k < |events|
  {
    IsNoteOff(events[k].message) ==>
      var s := ReadUpTo(port, events, k);
      var (channel, key) := VoiceAt(port, events, k);
      var found := FindPending(s.elements, s.pending, channel, key);
      found.Some? ==> NoneToOvertake(s.elements, s.pending, found.value)
  }

  lemma StartOrderStep(port: Byte, events: seq<Timed>, k: nat)
    requires k < |events| && Timely(events)
    requires var s := ReadUpTo(port, events, k); InStartOrder(s.elements, s.pending)
    ensures var s := ReadUpTo(port, events, k + 1);
            InStartOrder(s.elements, s.pending) <==> Undisturbing(port, events, k)
  {
    hide ReadUpTo, Finish, Timely, VoiceAt, FindPending, NoneToOvertake, InStartOrder, Int32, WheelValue;
    var s := ReadUpTo(port, events, k);
    ReadNext(port, events, k);
    if IsNoteOff(events[k].message) {
      NoteOffStep(port, events, k);
      var (channel, key) := VoiceAt(port, events, k);
      FinishKeepsStartOrder(s.(time := TimeAt(events, k + 1)), channel, key, events[k].message.velocity);
    } else {
      OtherKeepsStartOrder(s, events[k]);
    }
  }

  /** Throughout a track the pending notes of each channel and key stand in start order, so that every note-off releases
      the newest, exactly when no note-off moves a note over an older one of its own channel and key. */
  lemma {:induction false} StartOrderExactly(port: Byte, events: seq<Timed>, n: nat)
    requires n <= |events| && Timely(events)
    ensures (forall k :: 0 <= k <= n ==> InStartOrder(ReadUpTo(port, events, k).elements, ReadUpTo(port, events, k).pending)) <==>
            (forall k :: 0 <= k < n ==> Undisturbing(port, events, k))
  {
    hide ReadUpTo, Timely, InStartOrder, Undisturbing;
    if n == 0 {
      NoneInDisorder(port, events);
    } else {
      StartOrderExactly(port, events, n - 1);
      if forall k :: 0 <= k < n ==> InStartOrder(ReadUpTo(port, events, k).elements, ReadUpTo(port, events, k).pending) {
        StartOrderStep(port, events, n - 1);
      }
    }
  }

  lemma NoneInDisorder(port: Byte, events: seq<Timed>)
    ensures var s := ReadUpTo(port, events, 0); InStartOrder(s.elements, s.pending)
  {
    assert events[..0] == [];
  }

  /** As long as nothing has been disturbed, a note-off releases the newest open note of its channel and key. */
  lemma NewestReleased(port: Byte, events: seq<Timed>, i: nat, j: nat, k: nat)
    requires i < k < |events| && j < k && Timely(events) && IsNoteOn(events[i].message) && IsNoteOn(events[j].message)
    requires forall h :: 0 <= h < k ==> Undisturbing(port, events, h)
    requires Release(port, events, i) == k && EndsVoice(port, events, j, k) && Release(port, events, j) > k
    ensures j < i
  {
    hide ReadUpTo, FindPending, ReleaseFrom, VoiceAt, Undisturbing, InStartOrder, Finish, PendingExact;
    var s, x, y := ReadUpTo(port, events, k), |Origins(events, i)|, |Origins(events, j)|;
    var (channel, key) := VoiceAt(port, events, k);
    StartOrderExactly(port, events, k);
    FinishKeepsStartOrder(s, channel, key, 0);
    ReadPrefix(port, events, k);
    OriginAt(events, k, i);
    OriginAt(events, k, j);
    OpenNotes(port, events, k, y);
    assert s.elements[y] == ElementOf(port, events, j, k);
    var p :| 0 <= p < |s.pending| && s.pending[p] == y;
    assert Matches(s.elements[s.pending[p]], channel, key);
    assert Releases(port, events, i, k);
  }
}
