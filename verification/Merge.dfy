/** The time-ordered walk over all tracks (mdutil.c). */
module Merge {
  import opened Common
  import opened Elements

  type Tracks = seq<seq<Element>>

  /** Position `index` of track `track`. */
  datatype Tag = Tag(track: nat, index: nat)

  ghost predicate Cursors(tracks: Tracks, counts: seq<nat>) {
    |counts| == |tracks| && forall i :: 0 <= i < |tracks| ==> counts[i] <= |tracks[i]|
  }

  ghost predicate HasTag(tracks: Tracks, t: Tag) {
    t.track < |tracks| && t.index < |tracks[t.track]|
  }

  ghost function At(tracks: Tracks, t: Tag): Element
    requires HasTag(tracks, t)
  {
    tracks[t.track][t.index]
  }

  /** Playing order: by time, then by track, then by position in the track. */
  ghost predicate Before(tracks: Tracks, s: Tag, t: Tag)
    requires HasTag(tracks, s) && HasTag(tracks, t)
  {
    var ts, tt := At(tracks, s).time, At(tracks, t).time;
    ts < tt || (ts == tt && (s.track < t.track || (s.track == t.track && s.index < t.index)))
  }

  ghost predicate TracksSorted(tracks: Tracks) {
    forall k :: 0 <= k < |tracks| ==> Sorted(tracks[k])
  }

  ghost predicate Sorted(track: seq<Element>) {
    forall i, j :: 0 <= i < j < |track| ==> track[i].time <= track[j].time
  }

  // ----- the order in which elements come out

  /** Track `k` has an element left, and it goes out before every other track's head. */
  ghost predicate IsNext(tracks: Tracks, counts: seq<nat>, k: nat)
    requires Cursors(tracks, counts)
  {
    k < |tracks| && counts[k] < |tracks[k]| &&
    forall j :: 0 <= j < |tracks| && counts[j] < |tracks[j]| ==>
      tracks[k][counts[k]].time < tracks[j][counts[j]].time ||
      (tracks[k][counts[k]].time == tracks[j][counts[j]].time && k <= j)
  }

  ghost function NextTrack(tracks: Tracks, counts: seq<nat>): (r: Option<nat>)
    requires Cursors(tracks, counts)
    ensures r.None? <==> forall j :: 0 <= j < |tracks| ==> counts[j] == |tracks[j]|
    ensures r.Some? ==> r.value < |tracks| && counts[r.value] < |tracks[r.value]| && IsNext(tracks, counts, r.value)
  {
    if forall j :: 0 <= j < |tracks| ==> counts[j] == |tracks[j]| then None
    else
      NextExists(tracks, counts, |tracks|);
      var k: nat :| IsNext(tracks, counts, k);
      Some(k)
  }

  lemma {:induction false} NextExists(tracks: Tracks, counts: seq<nat>, n: nat)
    requires Cursors(tracks, counts) && n <= |tracks|
    requires exists j :: 0 <= j < n && counts[j] < |tracks[j]|
    ensures exists k: nat :: IsNext(tracks[..n], counts[..n], k)
    ensures n == |tracks| ==> exists k: nat :: IsNext(tracks, counts, k)
  {
    var last := n - 1;
    var top, cs := tracks[..n], counts[..n];
    if exists j :: 0 <= j < last && counts[j] < |tracks[j]| {
      NextExists(tracks, counts, last);
      var k: nat :| IsNext(tracks[..last], counts[..last], k);
      if counts[last] < |tracks[last]| && tracks[last][counts[last]].time < tracks[k][counts[k]].time {
        assert IsNext(top, cs, last);
      } else {
        assert IsNext(top, cs, k);
      }
    } else {
      assert IsNext(top, cs, last);
    }
    assert n == |tracks| ==> top == tracks && cs == counts;
  }

  ghost function Remaining(tracks: Tracks, counts: seq<nat>): nat
    requires Cursors(tracks, counts)
    decreases |tracks|
  {
    if tracks == [] then 0
    else |tracks[0]| - counts[0] + Remaining(tracks[1..], counts[1..])
  }

  lemma {:induction false} TakingOne(tracks: Tracks, counts: seq<nat>, k: nat)
    requires Cursors(tracks, counts) && k < |tracks| && counts[k] < |tracks[k]|
    ensures Cursors(tracks, counts[k := counts[k] + 1])
    ensures Remaining(tracks, counts) == Remaining(tracks, counts[k := counts[k] + 1]) + 1
  {
    var after := counts[k := counts[k] + 1];
    if k == 0 {
      assert after[1..] == counts[1..];
    } else {
      TakingOne(tracks[1..], counts[1..], k - 1);
      assert after[1..] == counts[1..][k - 1 := counts[k] + 1];
    }
  }

  /** The tags in the order in which md_sequence_next hands them out. */
  ghost function Order(tracks: Tracks, counts: seq<nat>): seq<Tag>
    requires Cursors(tracks, counts)
    decreases Remaining(tracks, counts)
  {
    match NextTrack(tracks, counts)
    case None => []
    case Some(k) =>
      TakingOne(tracks, counts, k);
      [Tag(k, counts[k])] + Order(tracks, counts[k := counts[k] + 1])
  }

  ghost function Pick(tracks: Tracks, tags: seq<Tag>): (r: seq<Element>)
    requires forall t :: t in tags ==> HasTag(tracks, t)
    ensures |r| == |tags| && forall i :: 0 <= i < |tags| ==> r[i] == At(tracks, tags[i])
  {
    seq(|tags|, i requires 0 <= i < |tags| => assert tags[i] in tags; At(tracks, tags[i]))
  }

  ghost function Zeros(tracks: Tracks): (r: seq<nat>)
    ensures Cursors(tracks, r) && forall i :: 0 <= i < |r| ==> r[i] == 0
  {
    seq(|tracks|, i => 0)
  }

  /** Every element of every track, in playing order. */
  ghost function Merged(tracks: Tracks): seq<Element> {
    ToCome(tracks, Zeros(tracks))
  }

  // ----- what the order is

  /** Exactly the elements not yet taken come out, in exactly as many steps as there are such elements. */
  lemma {:induction false} OrderComplete(tracks: Tracks, counts: seq<nat>)
    requires Cursors(tracks, counts)
    ensures |Order(tracks, counts)| == Remaining(tracks, counts)
    ensures forall t :: t in Order(tracks, counts) <==> IsAhead(tracks, counts, t)
    decreases Remaining(tracks, counts)
  {
    hide Remaining, IsNext, NextTrack, IsAhead;
    match NextTrack(tracks, counts)
    case None =>
      NothingRemaining(tracks, counts);
    case Some(k) =>
      TakingOne(tracks, counts, k);
      AheadAfterTaking(tracks, counts, k);
      OrderComplete(tracks, counts[k := counts[k] + 1]);
  }

  /** The element at a tag has not been taken yet. */
  ghost predicate IsAhead(tracks: Tracks, counts: seq<nat>, t: Tag)
    requires Cursors(tracks, counts)
  {
    HasTag(tracks, t) && counts[t.track] <= t.index
  }

  lemma AheadAfterTaking(tracks: Tracks, counts: seq<nat>, k: nat)
    requires Cursors(tracks, counts) && k < |tracks| && counts[k] < |tracks[k]|
    ensures var later := counts[k := counts[k] + 1];
            Cursors(tracks, later) &&
            forall t :: IsAhead(tracks, counts, t) <==> t == Tag(k, counts[k]) || IsAhead(tracks, later, t)
  {
  }

  lemma {:induction false} NothingRemaining(tracks: Tracks, counts: seq<nat>)
    requires Cursors(tracks, counts) && forall j :: 0 <= j < |tracks| ==> counts[j] == |tracks[j]|
    ensures Remaining(tracks, counts) == 0
    ensures forall t :: !IsAhead(tracks, counts, t)
  {
    if tracks != [] {
      NothingRemaining(tracks[1..], counts[1..]);
    }
  }

  /** Each track's elements come out in the track's own order, so none comes out twice; sorted or not. */
  lemma {:induction false} OrderKeepsTracks(tracks: Tracks, counts: seq<nat>)
    requires Cursors(tracks, counts)
    ensures var order := Order(tracks, counts);
            forall i, j :: 0 <= i < j < |order| && order[i].track == order[j].track ==> order[i].index < order[j].index
    decreases Remaining(tracks, counts)
  {
    hide Remaining, IsNext, NextTrack;
    var next := NextTrack(tracks, counts);
    if next.Some? {
      var k := next.value;
      TakingOne(tracks, counts, k);
      var rest := Order(tracks, counts[k := counts[k] + 1]);
      OrderKeepsTracks(tracks, counts[k := counts[k] + 1]);
      OrderComplete(tracks, counts[k := counts[k] + 1]);
      assert forall j :: 0 <= j < |rest| ==> rest[j] in rest;
    }
  }

  ghost predicate InPlayingOrder(tracks: Tracks, tags: seq<Tag>) {
    (forall i :: 0 <= i < |tags| ==> HasTag(tracks, tags[i])) &&
    forall i, j :: 0 <= i < j < |tags| ==> Before(tracks, tags[i], tags[j])
  }

  /** In sorted tracks the next head goes out before everything that remains. */
  lemma {:induction false} NextIsFirst(tracks: Tracks, counts: seq<nat>, k: nat, t: Tag)
    requires Cursors(tracks, counts) && TracksSorted(tracks) && IsNext(tracks, counts, k)
    requires HasTag(tracks, t) && counts[t.track] <= t.index && t != Tag(k, counts[k])
    ensures Before(tracks, Tag(k, counts[k]), t)
  {
    var track := tracks[t.track];
    assert Sorted(track);
    assert counts[t.track] == t.index || track[counts[t.track]].time <= track[t.index].time;
  }

  /** When every track is sorted the output is sorted by time, and ties go to the lowest track. */
  lemma {:induction false} OrderSorted(tracks: Tracks, counts: seq<nat>)
    requires Cursors(tracks, counts) && TracksSorted(tracks)
    ensures InPlayingOrder(tracks, Order(tracks, counts))
    decreases Remaining(tracks, counts)
  {
    hide Remaining, IsNext, NextTrack, TracksSorted, Before, InPlayingOrder;
    var next := NextTrack(tracks, counts);
    if next.Some? {
      var k := next.value;
      TakingOne(tracks, counts, k);
      var first, later := Tag(k, counts[k]), counts[k := counts[k] + 1];
      var rest := Order(tracks, later);
      OrderSorted(tracks, later);
      OrderComplete(tracks, later);
      forall j | 0 <= j < |rest| ensures HasTag(tracks, rest[j]) && Before(tracks, first, rest[j]) {
        var t := rest[j];
        assert t in rest;
        NextIsFirst(tracks, counts, k, t);
      }
      FirstInOrder(tracks, first, rest);
    } else {
      NothingInOrder(tracks);
    }
  }

  lemma FirstInOrder(tracks: Tracks, first: Tag, rest: seq<Tag>)
    requires InPlayingOrder(tracks, rest) && HasTag(tracks, first)
    requires forall j :: 0 <= j < |rest| ==> HasTag(tracks, rest[j]) && Before(tracks, first, rest[j])
    ensures InPlayingOrder(tracks, [first] + rest)
  {
    hide Before;
  }

  lemma NothingInOrder(tracks: Tracks)
    ensures InPlayingOrder(tracks, [])
  {
  }

  /** A list of tags is the stable time-ordered merge: all elements, in playing order. */
  ghost predicate IsStableMerge(tracks: Tracks, tags: seq<Tag>) {
    (forall t :: t in tags <==> HasTag(tracks, t)) && InPlayingOrder(tracks, tags)
  }

  lemma SomeMember(tags: seq<Tag>)
    ensures tags == [] || exists t :: t in tags
  {
    if tags != [] {
      assert tags[0] in tags;
    }
  }

  lemma HeadIsFirst(tracks: Tracks, tags: seq<Tag>, t: Tag)
    requires InPlayingOrder(tracks, tags) && t in tags
    ensures t == tags[0] || Before(tracks, tags[0], t)
    ensures t in tags[1..] <==> t != tags[0]
  {
    var i :| 0 <= i < |tags| && tags[i] == t;
    assert i > 0 ==> tags[1..][i - 1] == t && Before(tracks, tags[0], tags[i]);
    assert t in tags[1..] ==> exists j :: 0 < j < |tags| && tags[j] == t;
  }

  lemma {:induction false} SameTagsSameOrder(tracks: Tracks, a: seq<Tag>, b: seq<Tag>)
    requires InPlayingOrder(tracks, a) && InPlayingOrder(tracks, b)
    requires forall t :: t in a <==> t in b
    ensures a == b
  {
    SomeMember(a);
    SomeMember(b);
    if a != [] && b != [] {
      HeadIsFirst(tracks, a, b[0]);
      HeadIsFirst(tracks, b, a[0]);
      forall t ensures t in a[1..] <==> t in b[1..] {
        if t in a {
          HeadIsFirst(tracks, a, t);
          HeadIsFirst(tracks, b, t);
        } else {
          assert t !in b;
        }
      }
      SameTagsSameOrder(tracks, a[1..], b[1..]);
    }
  }

  /** For sorted tracks the walk is the stable merge and nothing else is. */
  lemma {:induction false} MergeIsTheStableMerge(tracks: Tracks, tags: seq<Tag>)
    requires TracksSorted(tracks)
    ensures IsStableMerge(tracks, tags) <==> tags == Order(tracks, Zeros(tracks))
  {
    var order := Order(tracks, Zeros(tracks));
    OrderComplete(tracks, Zeros(tracks));
    OrderSorted(tracks, Zeros(tracks));
    if IsStableMerge(tracks, tags) {
      SameTagsSameOrder(tracks, tags, order);
    }
  }

  /** What is still to come once `counts` elements of each track have gone out. */
  ghost function ToCome(tracks: Tracks, counts: seq<nat>): seq<Element>
    requires Cursors(tracks, counts)
  {
    OrderComplete(tracks, counts);
    Pick(tracks, Order(tracks, counts))
  }

  lemma NextIsUnique(tracks: Tracks, counts: seq<nat>, k: nat)
    requires Cursors(tracks, counts) && IsNext(tracks, counts, k)
    ensures NextTrack(tracks, counts) == Some(k)
  {
  }

  /** Taking the next head leaves the tail of what was to come. */
  lemma {:induction false} TakeHead(tracks: Tracks, counts: seq<nat>, k: nat)
    requires Cursors(tracks, counts) && IsNext(tracks, counts, k)
    ensures var later := counts[k := counts[k] + 1];
            Cursors(tracks, later) && ToCome(tracks, counts) == [tracks[k][counts[k]]] + ToCome(tracks, later)
  {
    hide Remaining;
    NextIsUnique(tracks, counts, k);
    TakingOne(tracks, counts, k);
    OrderComplete(tracks, counts[k := counts[k] + 1]);
    OrderComplete(tracks, counts);
  }

  lemma {:induction false} NothingToCome(tracks: Tracks, counts: seq<nat>)
    requires Cursors(tracks, counts) && forall j :: 0 <= j < |tracks| ==> counts[j] == |tracks[j]|
    ensures ToCome(tracks, counts) == []
  {
    assert NextTrack(tracks, counts) == None;
  }

  // ----- the imperative walk

  const NO_TIME := 0xFFFF_FFFF_FFFF_FFFF

  /** struct sequenceState; the source's `currel` pointers always equal the start of the track plus `count`. */
  class SequenceState {
    var root: Option<Element>
    const tracks: Tracks
    const count: array<nat>

    ghost predicate Valid()
      reads this, count
    {
      Cursors(tracks, count[..])
    }

    /** What is still to come. */
    ghost function Rest(): seq<Element>
      reads this, count
      requires Valid()
    {
      (if root.Some? then [root.value] else []) + ToCome(tracks, count[..])
    }

    constructor (root: Element, tracks: Tracks)
      ensures Valid() && fresh(count)
      ensures Rest() == [root] + Merged(tracks)
    {
      this.root := Some(root);
      this.tracks := tracks;
      this.count := new nat[|tracks|](i => 0);
      new;
      assert count[..] == Zeros(tracks);
    }

    /** The next element in time order: the root first, then the merge, then nothing for ever. */
    method Next() returns (el: Option<Element>)
      requires Valid()
      modifies this`root, count
      ensures Valid()
      ensures if old(Rest()) == [] then el == None && Rest() == [] else el == Some(old(Rest())[0]) && Rest() == old(Rest())[1..]
    {
      if root.Some? {
        el := root;
        root := None;
        return;
      }
      hide ToCome;
      var leastTime := NO_TIME;
      var best: Option<nat> := None;
      var i := 0;
      while i < |tracks|
        invariant 0 <= i <= |tracks|
        invariant best.None? ==> leastTime == NO_TIME && forall j :: 0 <= j < i ==> count[j] == |tracks[j]|
        invariant best.Some? ==> best.value < i && count[best.value] < |tracks[best.value]|
        invariant best.Some? ==> leastTime == tracks[best.value][count[best.value]].time < TWO_32
        invariant best.Some? ==> forall j :: 0 <= j < i && count[j] < |tracks[j]| ==>
          leastTime < tracks[j][count[j]].time || (leastTime == tracks[j][count[j]].time && best.value <= j)
      {
        if count[i] < |tracks[i]| {
          var head := tracks[i][count[i]];
          if leastTime == NO_TIME || head.time < leastTime {
            leastTime := head.time;
            best := Some(i);
          }
        }
        i := i + 1;
      }
      ghost var before := count[..];
      match best
      case None =>
        el := None;
        NothingToCome(tracks, before);
      case Some(k) =>
        el := Some(tracks[k][count[k]]);
        count[k] := count[k] + 1;
        assert count[..] == before[k := before[k] + 1];
        TakeHead(tracks, before, k);
    }
  }
}
