/** The solo, mute and unmute commands (commands.c), run without interference from the process thread. */
module Commands {
  import opened Common
  import opened Elements
  import opened Score
  import opened ControlPool
  import opened Engine

  /** How many messages can still be reserved. */
  function Reservable(available: seq<Slot>): nat {
    if available == [] then 0
    else Reservable(available[..|available| - 1]) + (if available[|available| - 1].Some? then 1 else 0)
  }

  /** The channels below n that a solo on `solo` silences: all others that have data. */
  function Silenced(hasData: seq<bool>, solo: int, n: nat): seq<ChannelIndex>
    requires n <= |hasData| == CHANNELS
  {
    if n == 0 then []
    else Silenced(hasData, solo, n - 1) + (if n - 1 != solo && hasData[n - 1] then [n - 1] else [])
  }

  /** All-sound-off messages for a list of channels. */
  function OffMessages(channels: seq<ChannelIndex>): seq<Bytes> {
    if channels == [] then []
    else OffMessages(channels[..|channels| - 1]) + [SoundOff(channels[|channels| - 1])]
  }

  lemma {:induction false} OffMessagesConcat(a: seq<ChannelIndex>, b: seq<ChannelIndex>)
    ensures OffMessages(a + b) == OffMessages(a) + OffMessages(b)
  {
    hide SoundOff;
    if b == [] {
      assert a + b == a;
    } else {
      OffMessagesConcat(a, b[..|b| - 1]);
      assert (a + b)[..|a + b| - 1] == a + b[..|b| - 1];
    }
  }

  lemma OneOffMessage(channel: ChannelIndex)
    ensures OffMessages([]) == [] && OffMessages([channel]) == [SoundOff(channel)]
  {
    assert [channel][..0] == [];
  }

  /** The silenced channels are, in ascending order and each once, those below n that have data and are not soloed. */
  lemma {:induction false} SilencedWritten(hasData: seq<bool>, solo: int, n: nat)
    requires n <= |hasData| == CHANNELS
    ensures |Silenced(hasData, solo, n)| <= n
    ensures forall c: ChannelIndex :: c in Silenced(hasData, solo, n) <==> c < n && c != solo && hasData[c]
    ensures forall i, j :: 0 <= i < j < |Silenced(hasData, solo, n)| ==> Silenced(hasData, solo, n)[i] < Silenced(hasData, solo, n)[j]
  {
    if n > 0 {
      SilencedWritten(hasData, solo, n - 1);
      var before := Silenced(hasData, solo, n - 1);
      assert forall i :: 0 <= i < |before| ==> before[i] in before;
    }
  }

  /** Each all-sound-off has its channel in the status byte, controller 120 and value 0. */
  lemma {:induction false} OffMessagesWritten(channels: seq<ChannelIndex>)
    ensures |OffMessages(channels)| == |channels|
    ensures forall i :: 0 <= i < |channels| ==>
              var m := OffMessages(channels)[i]; |m| == 3 && m[0] as int == 0xB0 + channels[i] as int && m[1] == 120 && m[2] == 0
  {
    if channels != [] {
      OffMessagesWritten(channels[..|channels| - 1]);
    }
  }

  /** As many messages can be reserved as there are full slots. */
  lemma {:induction false} ReservableWritten(available: seq<Slot>)
    ensures Reservable(available) == |set i | 0 <= i < |available| && available[i].Some?|
  {
    if available != [] {
      var n := |available| - 1;
      var front := available[..n];
      ReservableWritten(front);
      var full := set i | 0 <= i < |available| && available[i].Some?;
      var before := set i | 0 <= i < |front| && front[i].Some?;
      assert full == before + (if available[n].Some? then {n} else {});
    }
  }

  /** Among the all-sound-offs for the silenced channels each channel's own occurs once, and no other. */
  lemma {:induction false} SilencedCount(hasData: seq<bool>, solo: int, n: nat, c: ChannelIndex)
    requires n <= |hasData| == CHANNELS
    ensures Count(OffMessages(Silenced(hasData, solo, n)), [0xB0 + c, 120, 0]) == if c < n && c != solo && hasData[c] then 1 else 0
  {
    hide Count, Silenced, SoundOff, OffMessages;
    NoMessages(hasData, solo);
    CountOne([], [0xB0 + c, 120, 0]);
    if n > 0 {
      SilencedCount(hasData, solo, n - 1, c);
      SilencedNext(hasData, solo, n - 1);
      CountAppend(OffMessages(Silenced(hasData, solo, n - 1)), [SoundOff(n - 1)], [0xB0 + c, 120, 0]);
      CountOne(SoundOff(n - 1), [0xB0 + c, 120, 0]);
      SoundOffIs(n - 1, c);
    }
  }

  lemma SoundOffIs(k: ChannelIndex, c: ChannelIndex)
    ensures SoundOff(k) == [0xB0 + c, 120, 0] <==> k == c
  {
    assert SoundOff(k)[0] - 0xB0 == k;
  }

  // ----- effect of queueing one message

  lemma {:induction false} ReservableAfter(available: seq<Slot>, i: nat)
    requires i < |available| && available[i].Some?
    ensures Reservable(available) == Reservable(available[i := None]) + 1
    decreases |available|
  {
    var front, after := available[..|available| - 1], available[i := None];
    if i < |front| {
      ReservableAfter(front, i);
      assert after[..|available| - 1] == front[i := None];
    } else {
      assert after[..|available| - 1] == front;
    }
  }

  lemma {:induction false} NoneReservable(available: seq<Slot>)
    requires forall i :: 0 <= i < |available| ==> available[i] == None
    ensures Reservable(available) == 0
  {
    if available != [] {
      NoneReservable(available[..|available| - 1]);
    }
  }

  lemma {:induction false} WaitingUnchanged(process: seq<Slot>, supply: seq<Bytes>, m: nat, data: Bytes)
    requires InSupply(process, |supply|) && m < |supply|
    requires forall j :: 0 <= j < |process| ==> process[j] != Some(m)
    ensures Waiting(process, supply[m := data]) == Waiting(process, supply)
  {
    if process != [] {
      WaitingUnchanged(process[..|process| - 1], supply, m, data);
    }
  }

  /** How often a message occurs in a list of messages. */
  ghost function Count(messages: seq<Bytes>, d: Bytes): nat {
    multiset(messages)[d]
  }

  lemma CountAppend(a: seq<Bytes>, b: seq<Bytes>, d: Bytes)
    ensures Count(a + b, d) == Count(a, d) + Count(b, d)
  {
  }

  lemma CountOne(m: Bytes, d: Bytes)
    ensures Count([m], d) == (if m == d then 1 else 0) && Count([], d) == 0
  {
  }

  /** A queued message is added to those waiting; where it lands among them depends on the free slot. */
  lemma {:induction false} WaitingInsert(process: seq<Slot>, supply: seq<Bytes>, i: nat, m: nat, d: Bytes)
    requires InSupply(process, |supply|) && m < |supply| && i < |process| && process[i] == None
    ensures Count(Waiting(process[i := Some(m)], supply), d) == Count(Waiting(process, supply), d) + Count([supply[m]], d)
    decreases |process|
  {
    hide Count;
    var front, last, after := process[..|process| - 1], process[|process| - 1], process[i := Some(m)];
    var tail := if last.Some? then [supply[last.value]] else [];
    CountAppend(Waiting(front, supply), tail, d);
    if i < |front| {
      WaitingInsert(front, supply, i, m, d);
      assert after[..|process| - 1] == front[i := Some(m)] && after[|process| - 1] == last;
      CountAppend(Waiting(front[i := Some(m)], supply), tail, d);
    } else {
      assert after[..|process| - 1] == front;
      CountOne(supply[m], d);
      CountAppend(Waiting(front, supply), [supply[m]], d);
    }
  }

  /** The messages waiting after are those waiting before and some more. */
  ghost predicate WaitingGrew(before: seq<Bytes>, after: seq<Bytes>, more: seq<Bytes>) {
    forall d: Bytes :: Count(after, d) == Count(before, d) + Count(more, d)
  }

  lemma GrewNot(before: seq<Bytes>)
    ensures WaitingGrew(before, before, [])
  {
  }

  lemma GrewTwice(before: seq<Bytes>, between: seq<Bytes>, after: seq<Bytes>, more: seq<Bytes>, m: seq<Bytes>)
    requires WaitingGrew(before, between, more) && WaitingGrew(between, after, m)
    ensures WaitingGrew(before, after, more + m)
  {
    forall d: Bytes ensures Count(after, d) == Count(before, d) + Count(more + m, d) {
      CountAppend(more, m, d);
    }
  }

  lemma NotQueued(available: seq<Slot>, process: seq<Slot>, rt: Slot, m: nat)
    requires OnePlace(available, process, Some(m), rt) && m < |process|
    ensures forall j :: 0 <= j < |process| ==> process[j] != Some(m)
  {
    assert Copies(process, m) == 0;
    assert forall j :: 0 <= j < |process| ==> process[j] in multiset(process);
  }

  // ----- the commands

  /** Reserve a message, make it an all-sound-off for one channel, and queue it. */
  method SendSoundOff(pool: Pool, channel: ChannelIndex) returns (ok: bool)
    requires pool.Valid(None, None)
    modifies pool.available, pool.process, pool.supply
    ensures pool.Valid(None, None)
    ensures ok <==> old(Reservable(pool.available[..])) > 0
    ensures Reservable(pool.available[..]) == old(Reservable(pool.available[..])) - (if ok then 1 else 0)
    ensures WaitingGrew(old(Waiting(pool.process[..], pool.supply[..])), Waiting(pool.process[..], pool.supply[..]),
                        if ok then [SoundOff(channel)] else [])
  {
    hide OnePlace, Waiting, Reservable, Count;
    var cm: Slot := pool.Reserve(None);
    if cm == None {
      NoneReservable(pool.available[..]);
      GrewNot(Waiting(pool.process[..], pool.supply[..]));
      return false;
    }
    var m: nat := cm.value;
    ghost var i: nat :| IsFirst(old(pool.available[..]), i, true) && pool.available[..] == old(pool.available[..])[i := None];
    ReservableAfter(old(pool.available[..]), i);
    ghost var process, supply := pool.process[..], pool.supply[..];
    NotQueued(pool.available[..], process, None, m);
    WaitingUnchanged(process, supply, m, SoundOff(channel));
    pool.supply[m] := SoundOff(channel);
    assert pool.supply[..] == supply[m := SoundOff(channel)];
    pool.Queue(m, None);
    ghost var j: nat :| IsFirst(process, j, false) && pool.process[..] == process[j := Some(m)];
    forall d: Bytes {
      WaitingInsert(process, pool.supply[..], j, m, d);
    }
    return true;
  }

  /** com_mute: mute the channel, then queue all-sound-off for it. Channel 16 is not muted, only silenced once. */
  method ComMute(root: MidiRoot, pool: Pool, mc: int)
    requires root.muted.Length == CHANNELS && pool.Valid(None, None)
    modifies root.muted, pool.available, pool.process, pool.supply
    ensures pool.Valid(None, None)
    ensures root.muted[..] == if 1 <= mc <= 15 then old(root.muted[..])[mc - 1 := true] else old(root.muted[..])
    ensures WaitingGrew(old(Waiting(pool.process[..], pool.supply[..])), Waiting(pool.process[..], pool.supply[..]),
                        if 1 <= mc <= 16 && old(Reservable(pool.available[..])) > 0 then [SoundOff(mc - 1)] else [])
    ensures var free := old(Reservable(pool.available[..]));
            Reservable(pool.available[..]) == if 1 <= mc <= 16 && free > 0 then free - 1 else free
  {
    hide OnePlace, Waiting, Reservable, WaitingGrew;
    if mc < 1 || mc > 16 {
      GrewNot(Waiting(pool.process[..], pool.supply[..]));
      return;
    }
    var _ := root.SetMuted(mc, true);
    var _ := SendSoundOff(pool, mc - 1);
  }

  /** com_unmute. */
  method ComUnmute(root: MidiRoot, mc: int)
    requires root.muted.Length == CHANNELS
    modifies root.muted
    ensures root.muted[..] == if 1 <= mc <= 15 then old(root.muted[..])[mc - 1 := false] else old(root.muted[..])
  {
    if mc < 1 || mc > 16 {
      return;
    }
    var _ := root.SetMuted(mc, false);
  }

  /** com_solo: set the solo channel, then queue all-sound-off for every other channel with data,
      lowest first, for as long as messages can be reserved. */
  method ComSolo(root: MidiRoot, pool: Pool, arg: int)
    requires root.hasData.Length == CHANNELS && pool.Valid(None, None)
    modifies root`soloChannel, pool.available, pool.process, pool.supply
    ensures pool.Valid(None, None)
    ensures root.soloChannel == if 0 <= arg <= 15 then arg - 1 else old(root.soloChannel)
    ensures var silenced := if 1 <= arg <= 16 then Silenced(root.hasData[..], arg - 1, CHANNELS) else [];
            var sent := silenced[..Min(|silenced|, old(Reservable(pool.available[..])))];
            WaitingGrew(old(Waiting(pool.process[..], pool.supply[..])), Waiting(pool.process[..], pool.supply[..]), OffMessages(sent)) &&
            Reservable(pool.available[..]) == old(Reservable(pool.available[..])) - |sent|
  {
    hide OnePlace, Waiting, Reservable, WaitingGrew, Silenced, OffMessages, Pool.Valid;
    ghost var before := Waiting(pool.process[..], pool.supply[..]);
    GrewNot(before);
    NoMessages(root.hasData[..], arg - 1);
    if arg < 0 || arg > 16 {
      return;
    }
    var _ := root.SoloChannel(arg);
    if arg == 0 {
      return;
    }
    var sc := arg - 1;
    ghost var data := root.hasData[..];
    ghost var free := Reservable(pool.available[..]);
    SilencedPrefix(data, sc, CHANNELS);
    for i := 0 to CHANNELS
      invariant pool.Valid(None, None) && root.hasData[..] == data
      invariant root.soloChannel == if arg <= 15 then arg - 1 else old(root.soloChannel)
      invariant |Silenced(data, sc, i)| <= free
      invariant Reservable(pool.available[..]) == free - |Silenced(data, sc, i)|
      invariant WaitingGrew(before, Waiting(pool.process[..], pool.supply[..]), OffMessages(Silenced(data, sc, i)))
    {
      SilencedNext(data, sc, i);
      ghost var between := Waiting(pool.process[..], pool.supply[..]);
      if i == sc {
        continue;
      }
      if root.hasData[i] {
        var ok := SendSoundOff(pool, i);
        GrewTwice(before, between, Waiting(pool.process[..], pool.supply[..]), OffMessages(Silenced(data, sc, i)), if ok then [SoundOff(i)] else []);
        if !ok {
          assert OffMessages(Silenced(data, sc, i)) + [] == OffMessages(Silenced(data, sc, i));
          assert Silenced(data, sc, i) == Silenced(data, sc, CHANNELS)[..free];
          return;
        }
      }
    }
    ghost var silenced := Silenced(data, sc, CHANNELS);
    assert silenced[..|silenced|] == silenced;
  }

  lemma NoMessages(hasData: seq<bool>, solo: int)
    requires |hasData| == CHANNELS
    ensures Silenced(hasData, solo, 0) == [] && OffMessages([]) == []
  {
  }

  lemma {:induction false} SilencedPrefix(hasData: seq<bool>, solo: int, n: nat)
    requires n <= |hasData| == CHANNELS
    ensures forall m: nat :: m <= n ==> Silenced(hasData, solo, m) <= Silenced(hasData, solo, n)
  {
    if n > 0 {
      SilencedPrefix(hasData, solo, n - 1);
    }
  }

  lemma SilencedNext(hasData: seq<bool>, solo: int, i: nat)
    requires i < |hasData| && |hasData| == CHANNELS
    ensures var now := Silenced(hasData, solo, i);
            Silenced(hasData, solo, i + 1) == (if i != solo && hasData[i] then now + [i] else now) &&
            OffMessages(now + [i]) == OffMessages(now) + [SoundOff(i)]
  {
    var now := Silenced(hasData, solo, i);
    assert (now + [i])[..|now|] == now;
  }
}
