/** Overlapping notes of one channel and key, released last-in first-out: note-offs then close notes the way closing
    parentheses close opening ones. */
module Nesting {
  import opened Common
  import opened Smf
  import opened Pairing
  import opened NoteLengths

  /** Every note-off that releases a note releases the newest open one of its channel and key. */
  ghost predicate LastInFirstOut(port: Byte, events: seq<Timed>) {
    forall i, j :: 0 <= i < j < |events| && SameVoice(port, events, i, j) ==>
      Release(port, events, i) < j || Release(port, events, j) < Release(port, events, i) || Release(port, events, i) == |events|
  }

  /** How many more note-ons than note-offs of note i's channel and key there are after event i and before event k. */
  function Depth(port: Byte, events: seq<Timed>, i: nat, k: nat): int
    requires i < k <= |events| && IsNoteOn(events[i].message)
  {
    if k == i + 1 then 0 else
    Depth(port, events, i, k - 1) +
    (if SameVoice(port, events, i, k - 1) then 1 else if EndsVoice(port, events, i, k - 1) then -1 else 0)
  }

  predicate Balances(port: Byte, events: seq<Timed>, i: nat, k: nat)
    requires i < k < |events| && IsNoteOn(events[i].message)
  {
    EndsVoice(port, events, i, k) && Depth(port, events, i, k) == 0
  }

  function BalancedFrom(port: Byte, events: seq<Timed>, i: nat, k: nat): (r: nat)
    requires i < k <= |events| && IsNoteOn(events[i].message)
    ensures k <= r <= |events|
    ensures r < |events| ==> Balances(port, events, i, r)
    ensures forall j :: k <= j < r ==> !Balances(port, events, i, j)
    decreases |events| - k
  {
    if k == |events| || Balances(port, events, i, k) then k else BalancedFrom(port, events, i, k + 1)
  }

  /** The note-off that balances note-on i, or the end of the track. */
  function BalancedOff(port: Byte, events: seq<Timed>, i: nat): (r: nat)
    requires i < |events| && IsNoteOn(events[i].message)
    ensures i < r <= |events|
    ensures r < |events| ==> Balances(port, events, i, r)
    ensures forall j :: i < j < r ==> !Balances(port, events, i, j)
  {
    BalancedFrom(port, events, i, i + 1)
  }

  ghost predicate ReleasedByBalance(port: Byte, events: seq<Timed>) {
    forall i :: 0 <= i < |events| && IsNoteOn(events[i].message) ==> Release(port, events, i) == BalancedOff(port, events, i)
  }

  // ----- last-in first-out gives balance

  /** The notes of note i's channel and key started after it and not released before event k. */
  ghost function OpenSince(port: Byte, events: seq<Timed>, i: nat, k: nat): set<nat>
    requires i < k <= |events|
  {
    set j: nat | i < j < k && SameVoice(port, events, i, j) && Release(port, events, j) >= k
  }

  lemma ReleasedVoice(port: Byte, events: seq<Timed>, i: nat)
    requires i < |events| && Timely(events) && IsNoteOn(events[i].message) && Release(port, events, i) < |events|
    ensures EndsVoice(port, events, i, Release(port, events, i))
  {
    hide Releases, VoiceAt, ReleaseFrom, Timely;
    ReleasesItsVoice(port, events, i, Release(port, events, i));
  }

  lemma ReleasedApart(port: Byte, events: seq<Timed>, i: nat, j: nat)
    requires i < |events| && j < |events| && IsNoteOn(events[i].message) && IsNoteOn(events[j].message)
    requires Release(port, events, i) == Release(port, events, j) < |events|
    ensures i == j
  {
    hide Releases, ReleaseFrom;
    ReleasesOneNote(port, events, i, j, Release(port, events, i));
  }

  /** While note i is open, a note-off of its channel and key releases a later note, and just one. */
  lemma ReleasesLater(port: Byte, events: seq<Timed>, i: nat, k: nat) returns (j: nat)
    requires i < k < |events| && Timely(events) && LastInFirstOut(port, events) && IsNoteOn(events[i].message)
    requires EndsVoice(port, events, i, k) && Release(port, events, i) > k
    ensures i < j < k && SameVoice(port, events, i, j) && Release(port, events, j) == k
    ensures OpenSince(port, events, i, k + 1) == OpenSince(port, events, i, k) - {j} && j in OpenSince(port, events, i, k)
  {
    hide Releases, ReleaseFrom, VoiceAt, Timely;
    j := ReleasesSome(port, events, i, k);
    assert SameVoice(port, events, i, j) && SameVoice(port, events, j, i);
    forall x | x in OpenSince(port, events, i, k) && x != j ensures Release(port, events, x) > k {
      if Release(port, events, x) == k {
        ReleasedApart(port, events, x, j);
      }
    }
  }

  lemma NoneReleased(port: Byte, events: seq<Timed>, i: nat, k: nat)
    requires i < k < |events| && Timely(events) && IsNoteOn(events[i].message) && !EndsVoice(port, events, i, k)
    ensures OpenSince(port, events, i, k + 1) == OpenSince(port, events, i, k) + (if SameVoice(port, events, i, k) then {k} else {})
  {
    hide Releases, ReleaseFrom, VoiceAt, Timely;
    forall x | x in OpenSince(port, events, i, k) ensures Release(port, events, x) > k {
      if Release(port, events, x) == k {
        ReleasedVoice(port, events, x);
      }
    }
  }

  /** While a note is open, the depth counts the later notes still open. */
  lemma {:induction false} DepthCounts(port: Byte, events: seq<Timed>, i: nat, k: nat)
    requires i < k <= |events| && Timely(events) && LastInFirstOut(port, events) && IsNoteOn(events[i].message)
    requires Release(port, events, i) >= k
    ensures Depth(port, events, i, k) == |OpenSince(port, events, i, k)|
    decreases k
  {
    hide Releases, ReleaseFrom, VoiceAt, Timely, LastInFirstOut, OpenSince;
    if k == i + 1 {
      NothingSince(port, events, i);
    } else {
      DepthCounts(port, events, i, k - 1);
      if EndsVoice(port, events, i, k - 1) {
        var j := ReleasesLater(port, events, i, k - 1);
      } else {
        NoneReleased(port, events, i, k - 1);
        NotYetOpen(port, events, i, k - 1);
      }
    }
  }

  lemma NothingSince(port: Byte, events: seq<Timed>, i: nat)
    requires i < |events|
    ensures OpenSince(port, events, i, i + 1) == {}
  {
  }

  lemma NotYetOpen(port: Byte, events: seq<Timed>, i: nat, k: nat)
    requires i < k <= |events|
    ensures k !in OpenSince(port, events, i, k)
  {
  }

  lemma BalancedWhenNested(port: Byte, events: seq<Timed>, i: nat)
    requires i < |events| && Timely(events) && LastInFirstOut(port, events) && IsNoteOn(events[i].message)
    ensures Release(port, events, i) == BalancedOff(port, events, i)
  {
    hide Releases, ReleaseFrom, VoiceAt, Timely, BalancedFrom, Depth;
    var r := Release(port, events, i);
    forall k | i < k < r ensures !Balances(port, events, i, k) {
      DepthCounts(port, events, i, k);
      if EndsVoice(port, events, i, k) {
        var j := ReleasesLater(port, events, i, k);
      }
    }
    if r < |events| {
      ReleasedVoice(port, events, i);
      DepthCounts(port, events, i, r);
      NoneOpenAtRelease(port, events, i);
      assert Balances(port, events, i, r);
    }
  }

  lemma NoneOpenAtRelease(port: Byte, events: seq<Timed>, i: nat)
    requires i < |events| && LastInFirstOut(port, events) && IsNoteOn(events[i].message) && Release(port, events, i) < |events|
    ensures OpenSince(port, events, i, Release(port, events, i)) == {}
  {
    hide Releases, ReleaseFrom, VoiceAt;
    var r := Release(port, events, i);
    forall j | i < j < r && SameVoice(port, events, i, j) ensures Release(port, events, j) < r {
      assert SameVoice(port, events, i, j);
    }
  }

  // ----- balance gives last-in first-out

  /** Before its balancing note-off a note's depth is not negative. */
  lemma {:induction false} DepthNotNegative(port: Byte, events: seq<Timed>, i: nat, k: nat)
    requires i < k <= |events| && IsNoteOn(events[i].message) && k <= BalancedOff(port, events, i)
    ensures Depth(port, events, i, k) >= 0
    decreases k
  {
    hide VoiceAt, BalancedFrom;
    if k > i + 1 {
      DepthNotNegative(port, events, i, k - 1);
      assert !Balances(port, events, i, k - 1);
    }
  }

  /** The depths of two notes of one channel and key move together. */
  lemma {:induction false} DepthsTogether(port: Byte, events: seq<Timed>, i: nat, j: nat, k: nat)
    requires i < j < k <= |events| && SameVoice(port, events, i, j)
    ensures Depth(port, events, i, k) == Depth(port, events, i, j) + 1 + Depth(port, events, j, k)
    decreases k
  {
    hide VoiceAt;
    if k > j + 1 {
      DepthsTogether(port, events, i, j, k - 1);
    }
  }

  lemma NestedWhenBalanced(port: Byte, events: seq<Timed>, i: nat, j: nat)
    requires i < j < |events| && SameVoice(port, events, i, j) && ReleasedByBalance(port, events)
    ensures Release(port, events, i) < j || Release(port, events, j) < Release(port, events, i) || Release(port, events, i) == |events|
  {
    hide Releases, ReleaseFrom, VoiceAt, BalancedFrom, Depth, EndsVoice;
    var r := Release(port, events, i);
    if j < r < |events| && r <= Release(port, events, j) {
      DepthNotNegative(port, events, i, j);
      DepthNotNegative(port, events, j, r);
      DepthsTogether(port, events, i, j, r);
    } else if r == j {
      assert Balances(port, events, i, j);
      NotBoth(port, events, i, j);
    }
  }

  lemma NotBoth(port: Byte, events: seq<Timed>, i: nat, j: nat)
    requires i < |events| && j < |events| && SameVoice(port, events, i, j)
    ensures !EndsVoice(port, events, i, j)
  {
  }

  /** Notes are released last-in first-out exactly when each note-off closes the note it balances. */
  lemma NestedExactly(port: Byte, events: seq<Timed>)
    requires Timely(events)
    ensures LastInFirstOut(port, events) <==> ReleasedByBalance(port, events)
  {
    hide Release, BalancedOff, VoiceAt, Timely;
    if LastInFirstOut(port, events) {
      forall i | 0 <= i < |events| && IsNoteOn(events[i].message) ensures Release(port, events, i) == BalancedOff(port, events, i) {
        BalancedWhenNested(port, events, i);
      }
    }
    if ReleasedByBalance(port, events) {
      forall i, j | 0 <= i < j < |events| && SameVoice(port, events, i, j)
        ensures Release(port, events, i) < j || Release(port, events, j) < Release(port, events, i) || Release(port, events, i) == |events|
      {
        NestedWhenBalanced(port, events, i, j);
      }
    }
  }

  /** In a track in which no note-off moves a note over an older one of its channel and key, each note ends with its
      balancing note-off, or with the track. */
  lemma UndisturbedIsNested(port: Byte, events: seq<Timed>)
    requires Timely(events) && forall k :: 0 <= k < |events| ==> Undisturbing(port, events, k)
    ensures LastInFirstOut(port, events) && ReleasedByBalance(port, events)
  {
    hide ReleaseFrom, Releases, VoiceAt, Timely, Undisturbing, ReleasedByBalance;
    forall i, j | 0 <= i < j < |events| && SameVoice(port, events, i, j)
      ensures Release(port, events, i) < j || Release(port, events, j) < Release(port, events, i) || Release(port, events, i) == |events|
    {
      var r := Release(port, events, i);
      if r < |events| {
        ReleasedVoice(port, events, i);
        if j < r <= Release(port, events, j) {
          if Release(port, events, j) == r {
            ReleasedApart(port, events, i, j);
          } else {
            NewestReleased(port, events, i, j, r);
          }
        } else if j == r {
          NotBoth(port, events, i, j);
        }
      }
    }
    NestedExactly(port, events);
  }
}
