/** Whole runs of the process callback: what the listener gets over any number of cycles. */
module Runs {
  import opened Common
  import opened Elements
  import opened Timeline
  import opened Engine

  /** The inputs of one cycle: transport, filter settings and queued control messages are arbitrary. */
  datatype Cycle = Cycle(state: TransportState, pos: nat, nframes: nat, queued: seq<Bytes>, filters: Filters)

  function OutputOf(stream: seq<Placed>, prev: TransportState, c: Cycle): seq<Emit> {
    CycleOutput(stream, c.filters, prev, c.state, c.queued, c.pos, c.nframes)
  }

  /** The transport state remembered after some cycles. */
  function Remembered(cycles: seq<Cycle>): TransportState {
    if cycles == [] then Stopped else cycles[|cycles| - 1].state
  }

  // ----- the division into cycles does not matter

  /** The scheduled messages of a run, with absolute frames. */
  function ScheduledOutput(stream: seq<Placed>, cycles: seq<Cycle>): seq<Emit> {
    if cycles == [] then [] else
    var c := cycles[|cycles| - 1];
    ScheduledOutput(stream, cycles[..|cycles| - 1]) + Shift(Scheduled(stream, c.filters, c.state, c.pos, c.nframes), c.pos)
  }

  /** Rolling cycles with the same filters, each starting where the one before it ended. */
  ghost predicate Contiguous(cycles: seq<Cycle>, f: Filters, start: nat, end: nat) {
    if cycles == [] then start == end else
    var c := cycles[|cycles| - 1];
    c.state == Rolling && c.filters == f && c.pos + c.nframes == end && Contiguous(cycles[..|cycles| - 1], f, start, c.pos)
  }

  lemma {:induction false} ContiguousForward(cycles: seq<Cycle>, f: Filters, start: nat, end: nat)
    requires Contiguous(cycles, f, start, end)
    ensures start <= end
  {
    if cycles != [] {
      ContiguousForward(cycles[..|cycles| - 1], f, start, cycles[|cycles| - 1].pos);
    }
  }

  /** However an interval is cut into cycles, the scheduled output is the interval's own window. */
  lemma {:induction false} ChoppingDoesNotMatter(stream: seq<Placed>, cycles: seq<Cycle>, f: Filters, start: nat, end: nat)
    requires Contiguous(cycles, f, start, end)
    ensures start <= end && ScheduledOutput(stream, cycles) == Window(stream, f, 0, start, end)
  {
    hide Window;
    if cycles == [] {
      EmptyInterval(stream, f, start);
    } else {
      var c := cycles[|cycles| - 1];
      ContiguousForward(cycles[..|cycles| - 1], f, start, c.pos);
      ChoppingDoesNotMatter(stream, cycles[..|cycles| - 1], f, start, c.pos);
      WindowShift(stream, f, c.pos, c.pos, end);
      WindowSplit(stream, f, 0, start, c.pos, end);
    }
  }

  lemma EmptyInterval(stream: seq<Placed>, f: Filters, start: nat)
    ensures Window(stream, f, 0, start, start) == []
  {
  }

  /** Rolling over the whole song sends each audible event exactly once, at its own frame. */
  lemma {:induction false} WholeSongOnce(stream: seq<Placed>, cycles: seq<Cycle>, f: Filters, end: nat)
    requires Contiguous(cycles, f, 0, end)
    requires forall i :: 0 <= i < |stream| ==> stream[i].frame < end
    ensures multiset(ScheduledOutput(stream, cycles)) == multiset(AllSent(f, stream))
    ensures TimesOrdered(ScheduledOutput(stream, cycles), 0, end)
  {
    ChoppingDoesNotMatter(stream, cycles, f, 0, end);
    WindowConserves(stream, f, end);
    WindowOrdered(stream, f, 0, 0, end);
  }

  // ----- how much a run sends

  /** How often a run goes from Rolling to Stopped, starting stopped. */
  function Stops(cycles: seq<Cycle>): nat {
    if |cycles| < 2 then 0 else
    Stops(cycles[..|cycles| - 1]) + (if cycles[|cycles| - 2].state == Rolling && cycles[|cycles| - 1].state == Stopped then 1 else 0)
  }

  /** How many messages a run has queued. */
  function QueuedIn(cycles: seq<Cycle>): nat {
    if cycles == [] then 0 else QueuedIn(cycles[..|cycles| - 1]) + |cycles[|cycles| - 1].queued|
  }

  /** How many messages a run sends. */
  ghost function SentIn(stream: seq<Placed>, cycles: seq<Cycle>): nat {
    if cycles == [] then 0 else
    var before := cycles[..|cycles| - 1];
    SentIn(stream, before) + |OutputOf(stream, Remembered(before), cycles[|cycles| - 1])|
  }

  /** A run sends each queued message, its scheduled messages, and sixteen all-sound-offs each time it goes from Rolling to
      Stopped, and nothing more; while it only ever stops, starts or loops it sends the queued messages alone. */
  lemma {:induction false} RunSendsNoMore(stream: seq<Placed>, cycles: seq<Cycle>)
    ensures SentIn(stream, cycles) == QueuedIn(cycles) + 16 * Stops(cycles) + |ScheduledOutput(stream, cycles)|
    ensures (forall i :: 0 <= i < |cycles| ==> cycles[i].state != Rolling) ==> SentIn(stream, cycles) == QueuedIn(cycles)
  {
    hide OutputOf, Window;
    if cycles != [] {
      var before, c := cycles[..|cycles| - 1], cycles[|cycles| - 1];
      RunSendsNoMore(stream, before);
      assert before != [] ==> before[|before| - 1] == cycles[|cycles| - 2];
      OutputSize(stream, Remembered(before), c);
    }
  }

  lemma OutputSize(stream: seq<Placed>, prev: TransportState, c: Cycle)
    ensures |OutputOf(stream, prev, c)| ==
            |c.queued| + (if prev == Rolling && c.state == Stopped then 16 else 0) +
            (if c.state == Rolling then |Window(stream, c.filters, c.pos, c.pos, c.pos + c.nframes)| else 0)
    ensures |Shift(Scheduled(stream, c.filters, c.state, c.pos, c.nframes), c.pos)| ==
            if c.state == Rolling then |Window(stream, c.filters, c.pos, c.pos, c.pos + c.nframes)| else 0
  {
    hide Window, CycleOutput;
    CycleWritten(stream, c.filters, prev, c.state, c.queued, c.pos, c.nframes);
  }

  // ----- sounding notes

  /** A sounding note: channel and key. */
  type Voices = set<(nat, nat)>

  predicate IsSoundOff(d: Bytes) {
    |d| == 3 && 0xB0 <= d[0] < 0xC0 && d[1] == 120
  }

  predicate IsNote(d: Bytes) {
    |d| == 3 && 0x80 <= d[0] < 0xA0
  }

  predicate StartsNote(d: Bytes) {
    |d| == 3 && 0x90 <= d[0] < 0xA0 && d[2] > 0
  }

  /** What a synthesizer holds after one message. */
  ghost function Hear(v: Voices, d: Bytes): Voices {
    if StartsNote(d) then v + {(d[0] % 16, d[1])}
    else if IsNote(d) then v - {(d[0] % 16, d[1])}
    else if IsSoundOff(d) then set p | p in v && p.0 != d[0] % 16
    else v
  }

  ghost function HearAll(v: Voices, es: seq<Emit>): Voices {
    if es == [] then v else Hear(HearAll(v, es[..|es| - 1]), es[|es| - 1].data)
  }

  ghost predicate OnChannels(v: Voices) {
    forall p :: p in v ==> p.0 < CHANNELS
  }

  lemma {:induction false} HearConcat(v: Voices, a: seq<Emit>, b: seq<Emit>)
    ensures HearAll(v, a + b) == HearAll(HearAll(v, a), b)
  {
    if b == [] {
      assert a + b == a;
    } else {
      HearConcat(v, a, b[..|b| - 1]);
      assert (a + b)[..|a + b| - 1] == a + b[..|b| - 1];
    }
  }

  lemma {:induction false} HearOnChannels(v: Voices, es: seq<Emit>)
    requires OnChannels(v)
    ensures OnChannels(HearAll(v, es))
  {
    if es != [] {
      HearOnChannels(v, es[..|es| - 1]);
    }
  }

  lemma HearSoundOff(v: Voices, channel: ChannelIndex)
    ensures Hear(v, SoundOff(channel)) == set p | p in v && p.0 != channel
  {
    var m := SoundOff(channel);
    assert IsSoundOff(m) && m[0] % 16 == channel;
  }

  lemma LastSoundOff(n: nat)
    requires 0 < n <= CHANNELS
    ensures AtStart(SoundOffs(n)) == AtStart(SoundOffs(n - 1)) + [Emit(0, SoundOff(n - 1))]
  {
    hide SoundOff;
  }

  /** All-sound-off on the first n channels ends every note on them and no other; for n = 16 that is every note. */
  lemma {:induction false} SoundOffsSilence(v: Voices, n: nat)
    requires n <= CHANNELS
    ensures HearAll(v, AtStart(SoundOffs(n))) == set p | p in v && p.0 >= n
  {
    hide Hear, SoundOff, AtStart;
    if n == 0 {
      NothingAtStart();
    } else {
      SoundOffsSilence(v, n - 1);
      LastSoundOff(n);
      var es := AtStart(SoundOffs(n));
      assert es[..|es| - 1] == AtStart(SoundOffs(n - 1));
      HearSoundOff(HearAll(v, AtStart(SoundOffs(n - 1))), n - 1);
    }
  }

  ghost predicate OnlySoundOffs(messages: seq<Bytes>) {
    forall i :: 0 <= i < |messages| ==> IsSoundOff(messages[i])
  }

  lemma {:induction false} SoundOffsOnlyEnd(v: Voices, messages: seq<Bytes>)
    requires OnlySoundOffs(messages)
    ensures HearAll(v, AtStart(messages)) <= v
  {
    var es := AtStart(messages);
    if messages != [] {
      SoundOffsOnlyEnd(v, messages[..|messages| - 1]);
      assert es[..|es| - 1] == AtStart(messages[..|messages| - 1]);
      assert es[|es| - 1] == Emit(0, messages[|messages| - 1]);
    }
  }

  /** The notes sounding after a run that starts stopped and silent. */
  ghost function Sounding(stream: seq<Placed>, cycles: seq<Cycle>): Voices {
    if cycles == [] then {} else
    var before := cycles[..|cycles| - 1];
    HearAll(Sounding(stream, before), OutputOf(stream, Remembered(before), cycles[|cycles| - 1]))
  }

  /** Whenever the transport leaves Rolling it goes straight to Stopped, and queued messages are all-sound-offs. */
  ghost predicate StopsDirectly(cycles: seq<Cycle>) {
    (forall i :: 0 <= i < |cycles| ==> OnlySoundOffs(cycles[i].queued)) &&
    forall i :: 0 < i < |cycles| && cycles[i - 1].state == Rolling ==> cycles[i].state == Rolling || cycles[i].state == Stopped
  }

  /** One cycle in which the transport is not rolling. */
  lemma NotRollingCycle(stream: seq<Placed>, v: Voices, prev: TransportState, c: Cycle)
    requires c.state != Rolling && OnChannels(v) && OnlySoundOffs(c.queued)
    ensures HearAll(v, OutputOf(stream, prev, c)) <= v
    ensures prev == Rolling && c.state == Stopped ==> HearAll(v, OutputOf(stream, prev, c)) == {}
  {
    hide Hear, AtStart, OnlySoundOffs;
    var queued, stop := AtStart(c.queued), StopMessages(prev, c.state);
    assert queued + stop + [] == queued + stop;
    HearConcat(v, queued, stop);
    var w := HearAll(v, queued);
    SoundOffsOnlyEnd(v, c.queued);
    if prev == Rolling && c.state == Stopped {
      SoundOffsSilence(w, CHANNELS);
    } else {
      NothingAtStart();
    }
  }

  /** Some queued message is the all-sound-off of a channel. */
  ghost predicate HasSoundOff(messages: seq<Bytes>, channel: nat) {
    exists i :: 0 <= i < |messages| && IsSoundOff(messages[i]) && messages[i][0] % 16 == channel
  }

  lemma HasSoundOffNext(messages: seq<Bytes>, m: Bytes)
    requires IsSoundOff(m)
    ensures forall c: nat :: HasSoundOff(messages + [m], c) <==> HasSoundOff(messages, c) || m[0] % 16 == c
  {
    var all := messages + [m];
    forall c: nat | HasSoundOff(messages, c) || m[0] % 16 == c ensures HasSoundOff(all, c) {
      if HasSoundOff(messages, c) {
        var i :| 0 <= i < |messages| && IsSoundOff(messages[i]) && messages[i][0] % 16 == c;
        assert all[i] == messages[i];
      } else {
        assert all[|messages|] == m;
      }
    }
  }

  /** Queued all-sound-offs end exactly the notes of their own channels. */
  lemma {:induction false} QueuedSoundOffs(v: Voices, messages: seq<Bytes>)
    requires OnlySoundOffs(messages)
    ensures HearAll(v, AtStart(messages)) == set p | p in v && !HasSoundOff(messages, p.0)
  {
    hide HasSoundOff;
    if messages == [] {
      NothingAtStart();
      NoneHasSoundOff();
    } else {
      var front, last, es := messages[..|messages| - 1], messages[|messages| - 1], AtStart(messages);
      QueuedSoundOffs(v, front);
      HasSoundOffNext(front, last);
      assert front + [last] == messages;
      assert es[..|es| - 1] == AtStart(front) && es[|es| - 1] == Emit(0, last);
    }
  }

  lemma NoneHasSoundOff()
    ensures forall c: nat :: !HasSoundOff([], c)
  {
  }

  /** Every sounding channel has its all-sound-off in the queue. */
  ghost predicate AllSilenced(v: Voices, messages: seq<Bytes>) {
    forall p :: p in v ==> HasSoundOff(messages, p.0)
  }

  /** Leaving Rolling silences the notes exactly when the next state is Stopped or each sounding channel happens to
      have an all-sound-off queued. */
  lemma LeavingRolling(stream: seq<Placed>, v: Voices, c: Cycle)
    requires c.state != Rolling && OnChannels(v) && OnlySoundOffs(c.queued)
    ensures HearAll(v, OutputOf(stream, Rolling, c)) == {} <==> c.state == Stopped || AllSilenced(v, c.queued)
  {
    hide Hear, HearAll, AtStart, OnlySoundOffs, HasSoundOff;
    NotRollingCycle(stream, v, Rolling, c);
    if c.state != Stopped {
      NothingAtStart();
      assert OutputOf(stream, Rolling, c) == AtStart(c.queued);
      QueuedSoundOffs(v, c.queued);
      var w := HearAll(v, AtStart(c.queued));
      if w == {} {
        assert forall p :: p in v && !HasSoundOff(c.queued, p.0) ==> p in w;
      }
    }
  }

  /** Whenever a run leaves Rolling it goes to Stopped, or finds an all-sound-off queued for each sounding channel. */
  ghost predicate LeavesSilently(stream: seq<Placed>, cycles: seq<Cycle>) {
    forall i :: 0 < i < |cycles| && cycles[i - 1].state == Rolling && cycles[i].state != Rolling ==>
      cycles[i].state == Stopped || AllSilenced(Sounding(stream, cycles[..i]), cycles[i].queued)
  }

  /** Nothing sounds after any cycle of a run in which the transport is not rolling. */
  ghost predicate AlwaysSilent(stream: seq<Placed>, cycles: seq<Cycle>) {
    forall n :: 0 <= n <= |cycles| && Remembered(cycles[..n]) != Rolling ==> Sounding(stream, cycles[..n]) == {}
  }

  lemma SoundingNext(stream: seq<Placed>, cycles: seq<Cycle>, n: nat)
    requires n < |cycles|
    ensures var before := cycles[..n];
            Sounding(stream, cycles[..n + 1]) == HearAll(Sounding(stream, before), OutputOf(stream, Remembered(before), cycles[n])) &&
            Remembered(cycles[..n + 1]) == cycles[n].state
  {
    hide HearAll, OutputOf;
    assert cycles[..n + 1][..n] == cycles[..n];
  }

  lemma {:induction false} SoundingOnChannels(stream: seq<Placed>, cycles: seq<Cycle>)
    ensures OnChannels(Sounding(stream, cycles))
  {
    hide OutputOf, HearAll;
    if cycles != [] {
      var before := cycles[..|cycles| - 1];
      SoundingOnChannels(stream, before);
      HearOnChannels(Sounding(stream, before), OutputOf(stream, Remembered(before), cycles[|cycles| - 1]));
    }
  }

  /** One cycle of a run that ends not rolling: it stays silent exactly when it leaves Rolling silently or was silent already. */
  lemma SilentStep(stream: seq<Placed>, cycles: seq<Cycle>, n: nat)
    requires n < |cycles| && OnlySoundOffs(cycles[n].queued) && cycles[n].state != Rolling
    requires Remembered(cycles[..n]) != Rolling ==> Sounding(stream, cycles[..n]) == {}
    ensures Sounding(stream, cycles[..n + 1]) == {} <==>
            (Remembered(cycles[..n]) == Rolling ==> cycles[n].state == Stopped || AllSilenced(Sounding(stream, cycles[..n]), cycles[n].queued))
  {
    hide HearAll, OutputOf, Sounding, OnlySoundOffs, AllSilenced, OnChannels;
    SoundingNext(stream, cycles, n);
    SoundingOnChannels(stream, cycles[..n]);
    var v := Sounding(stream, cycles[..n]);
    NotRollingCycle(stream, v, Remembered(cycles[..n]), cycles[n]);
    if Remembered(cycles[..n]) == Rolling {
      LeavingRolling(stream, v, cycles[n]);
    }
  }

  lemma RememberedAt(cycles: seq<Cycle>, n: nat)
    requires n <= |cycles|
    ensures Remembered(cycles[..n]) == if n == 0 then Stopped else cycles[n - 1].state
  {
  }

  lemma {:induction false} SilentUpTo(stream: seq<Placed>, cycles: seq<Cycle>, n: nat)
    requires n <= |cycles| && LeavesSilently(stream, cycles)
    requires forall i :: 0 <= i < |cycles| ==> OnlySoundOffs(cycles[i].queued)
    ensures Remembered(cycles[..n]) != Rolling ==> Sounding(stream, cycles[..n]) == {}
  {
    hide HearAll, OutputOf, OnlySoundOffs, AllSilenced, Sounding;
    if n == 0 {
      NothingSounds(stream, cycles);
    } else {
      RememberedAt(cycles, n);
      RememberedAt(cycles, n - 1);
      SilentUpTo(stream, cycles, n - 1);
      if cycles[n - 1].state != Rolling {
        SilentStep(stream, cycles, n - 1);
      }
    }
  }

  lemma NothingSounds(stream: seq<Placed>, cycles: seq<Cycle>)
    ensures Sounding(stream, cycles[..0]) == {}
  {
  }

  /** A run is silent whenever it is not rolling exactly when it always leaves Rolling silently. */
  lemma SilentExactly(stream: seq<Placed>, cycles: seq<Cycle>)
    requires forall i :: 0 <= i < |cycles| ==> OnlySoundOffs(cycles[i].queued)
    ensures AlwaysSilent(stream, cycles) <==> LeavesSilently(stream, cycles)
  {
    hide OnlySoundOffs, AllSilenced, Sounding, Remembered;
    if LeavesSilently(stream, cycles) {
      forall n | 0 <= n <= |cycles| && Remembered(cycles[..n]) != Rolling ensures Sounding(stream, cycles[..n]) == {} {
        SilentUpTo(stream, cycles, n);
      }
    }
    if AlwaysSilent(stream, cycles) {
      forall i | 0 < i < |cycles| && cycles[i - 1].state == Rolling && cycles[i].state != Rolling
        ensures cycles[i].state == Stopped || AllSilenced(Sounding(stream, cycles[..i]), cycles[i].queued)
      {
        RememberedAt(cycles, i);
        RememberedAt(cycles, i + 1);
        SilentStep(stream, cycles, i);
      }
    }
  }

  /** In particular, in every run that stops directly no note sounds while the transport is not rolling. */
  lemma SilentWhenNotRolling(stream: seq<Placed>, cycles: seq<Cycle>)
    requires StopsDirectly(cycles)
    ensures Remembered(cycles) != Rolling ==> Sounding(stream, cycles) == {}
  {
    hide OnlySoundOffs, AllSilenced, Sounding;
    assert cycles[..|cycles|] == cycles;
    SilentUpTo(stream, cycles, |cycles|);
  }

  /** A run that goes from Rolling to Starting and leaves a note sounding. */
  lemma SoundingAfterRolling(element: Element)
    ensures var stream := [Placed(0, Event([0x90, 60, 64], element))];
            var open := AllOpen();
            var cycles := [Cycle(Rolling, 0, 64, [], open), Cycle(Starting, 64, 64, [], open)];
            Sounding(stream, cycles) == {(0, 60)} && Remembered(cycles) != Rolling && !AlwaysSilent(stream, cycles)
  {
    hide AtStart, SoundOffs, Window, AlwaysSilent;
    var stream := [Placed(0, Event([0x90, 60, 64], element))];
    var open := AllOpen();
    var first, second := Cycle(Rolling, 0, 64, [], open), Cycle(Starting, 64, 64, [], open);
    var cycles := [first, second];
    NothingAtStart();
    OneNoteWindow(stream, open, element);
    assert OutputOf(stream, Stopped, first) == [Emit(0, [0x90, 60, 64])];
    assert OutputOf(stream, Rolling, second) == [];
    assert cycles[..0] == [] && cycles[..1] == [first] && cycles[..2] == cycles;
    SoundingNext(stream, cycles, 0);
    SoundingNext(stream, cycles, 1);
    NothingSounds(stream, cycles);
    OneNoteHeard();
    NotSilent(stream, cycles);
  }

  lemma NotSilent(stream: seq<Placed>, cycles: seq<Cycle>)
    requires Remembered(cycles) != Rolling && Sounding(stream, cycles) != {}
    ensures !AlwaysSilent(stream, cycles)
  {
    assert cycles[..|cycles|] == cycles;
  }

  lemma OneNoteHeard()
    ensures HearAll({}, [Emit(0, [0x90, 60, 64])]) == {(0, 60)}
    ensures HearAll({(0, 60)}, []) == {(0, 60)}
  {
    assert [Emit(0, [0x90, 60, 64])][..0] == [];
    assert HearAll({}, []) == {};
  }

  lemma OneNoteWindow(stream: seq<Placed>, f: Filters, element: Element)
    requires stream == [Placed(0, Event([0x90, 60, 64], element))]
    requires f == AllOpen()
    ensures Window(stream, f, 0, 0, 64) == [Emit(0, [0x90, 60, 64])]
  {
    hide Audible, Sent, EventsAt, AllOpen;
    WindowGap(stream, f, 0, 0, 1, 64);
    OneNoteSent(stream, f, element);
    assert Window(stream, f, 0, 0, 0) == [];
    assert Window(stream, f, 0, 0, 1) == Window(stream, f, 0, 0, 0) + FrameMessages(stream, f, 0, 0);
  }

  lemma OneNoteSent(stream: seq<Placed>, f: Filters, element: Element)
    requires stream == [Placed(0, Event([0x90, 60, 64], element))]
    requires f == AllOpen()
    ensures Sent(f, EventsAt(stream, 0), 0) == [Emit(0, [0x90, 60, 64])]
  {
    hide Audible, AllOpen;
    var event := Event([0x90, 60, 64], element);
    assert stream[..0] == [] && EventsAt([], 0) == [];
    assert EventsAt(stream, 0) == [event];
    assert [event][..0] == [];
    NoteIsAudible(f);
  }

  lemma NoteIsAudible(f: Filters)
    requires f == AllOpen()
    ensures Audible(f, [0x90, 60, 64])
  {
  }
}
