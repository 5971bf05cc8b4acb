/** The scheduled messages of a cycle while commands change the filters in the middle of it. */
module Interleaving {
  import opened Common
  import opened Elements
  import opened Timeline
  import opened Protocol

  // ----- what is sent of a list of events

  /** The audible ones among some messages. */
  function Kept(f: Filters, played: seq<MidiData>): seq<MidiData> {
    if played == [] then [] else
    var last := played[|played| - 1];
    Kept(f, played[..|played| - 1]) + (if Audible(f, last) then [last] else [])
  }

  /** The messages decided on favourably. */
  function Selected(played: seq<MidiData>, decided: seq<bool>): seq<MidiData>
    requires |decided| <= |played|
  {
    if decided == [] then [] else
    var n := |decided| - 1;
    Selected(played, decided[..n]) + (if decided[n] then [played[n]] else [])
  }

  predicate IsSubsequence(a: seq<MidiData>, b: seq<MidiData>) {
    a == [] || (b != [] && (IsSubsequence(a, b[..|b| - 1]) || (a[|a| - 1] == b[|b| - 1] && IsSubsequence(a[..|a| - 1], b[..|b| - 1]))))
  }

  lemma {:induction false} SelectedIsSubsequence(played: seq<MidiData>, decided: seq<bool>)
    requires |decided| <= |played|
    ensures IsSubsequence(Selected(played, decided), played[..|decided|])
  {
    if decided != [] {
      var n := |decided| - 1;
      SelectedIsSubsequence(played, decided[..n]);
      assert played[..n + 1][..n] == played[..n];
      var before := Selected(played, decided[..n]);
      assert (before + [played[n]])[..|before|] == before;
      assert before + [] == before;
    }
  }

  lemma {:induction false} SelectedIsKept(f: Filters, played: seq<MidiData>, decided: seq<bool>)
    requires |decided| <= |played|
    requires forall i :: 0 <= i < |decided| ==> (decided[i] <==> Audible(f, played[i]))
    ensures Selected(played, decided) == Kept(f, played[..|decided|])
  {
    hide Audible;
    if decided != [] {
      var n := |decided| - 1;
      SelectedIsKept(f, played, decided[..n]);
      assert played[..n + 1][..n] == played[..n];
    }
  }

  // ----- the unfiltered window

  function DataOf(events: seq<Event>): (r: seq<MidiData>)
    ensures |r| == |events| && forall i :: 0 <= i < |r| ==> r[i] == events[i].data
  {
    seq(|events|, i requires 0 <= i < |events| => events[i].data)
  }

  /** All messages placed in frames lo to hi-1, filtered or not, frame by frame. */
  function DataBetween(stream: seq<Placed>, lo: nat, hi: nat): seq<MidiData>
    decreases hi
  {
    if hi <= lo then [] else DataBetween(stream, lo, hi - 1) + DataOf(EventsAt(stream, hi - 1))
  }

  function BytesOf(es: seq<Emit>): (r: seq<Bytes>)
    ensures |r| == |es| && forall i :: 0 <= i < |r| ==> r[i] == es[i].data
  {
    seq(|es|, i requires 0 <= i < |es| => es[i].data)
  }

  lemma {:induction false} KeptConcat(f: Filters, a: seq<MidiData>, b: seq<MidiData>)
    ensures Kept(f, a + b) == Kept(f, a) + Kept(f, b)
  {
    hide Audible;
    if b == [] {
      assert a + b == a;
    } else {
      KeptConcat(f, a, b[..|b| - 1]);
      assert (a + b)[..|a + b| - 1] == a + b[..|b| - 1];
    }
  }

  lemma {:induction false} SentIsKept(f: Filters, events: seq<Event>, time: nat)
    ensures BytesOf(Sent(f, events, time)) == Kept(f, DataOf(events))
  {
    hide Audible;
    if events != [] {
      SentIsKept(f, events[..|events| - 1], time);
      assert DataOf(events)[..|events| - 1] == DataOf(events[..|events| - 1]);
    }
  }

  /** The window is what the filters keep of the unfiltered window. */
  lemma {:induction false} WindowIsKept(stream: seq<Placed>, f: Filters, base: nat, lo: nat, hi: nat)
    requires base <= lo
    ensures BytesOf(Window(stream, f, base, lo, hi)) == Kept(f, DataBetween(stream, lo, hi))
    decreases hi
  {
    hide Sent, EventsAt;
    if lo < hi {
      WindowIsKept(stream, f, base, lo, hi - 1);
      SentIsKept(f, EventsAt(stream, hi - 1), hi - 1 - base);
      KeptConcat(f, DataBetween(stream, lo, hi - 1), DataOf(EventsAt(stream, hi - 1)));
    }
  }

  // ----- watching a run

  /** What has been seen of the current cycle: the events played, for each whether it was sent, the filters the cycle
      started with, and which of them have changed since. */
  datatype Observation = Observation(played: seq<MidiData>, decided: seq<bool>, solo: int, muted: seq<bool>, soloMoved: bool, mutesMoved: set<nat>)

  /** The process thread is working on an event. */
  predicate Deciding(pc: RtPc) {
    pc.LoadSolo? || pc.LoadSoloAgain? || pc.LoadMuted? || pc.SendEvent?
  }

  ghost predicate MuteMoved(s: State, s': State, c: nat) {
    c < |s.muted| && c < |s'.muted| && s'.muted[c] != s.muted[c]
  }

  /** One step seen. */
  ghost function Watch(o: Observation, s: State, t: Tick): Observation
    requires Shape(s)
  {
    var s' := Next(s, t);
    if t.RtTick? && s.rt.RtIdle? then Observation([], [], s.solo, s.muted, false, {}) else
    var moved := o.(soloMoved := o.soloMoved || s'.solo != s.solo, mutesMoved := o.mutesMoved + set c: nat | c < CHANNELS && MuteMoved(s, s', c));
    if t.CmdTick? then moved
    else if s.rt.Playing? && t.choice.PlayEvent? then moved.(played := o.played + [t.choice.event])
    else if Deciding(s.rt) && s'.rt.Playing? then moved.(decided := o.decided + [s.rt.SendEvent?])
    else moved
  }

  ghost function Observed(n: nat, hasData: seq<bool>, ticks: seq<Tick>): Observation
    requires n > 0 && |hasData| == CHANNELS
    decreases |ticks|
  {
    if ticks == [] then Observation([], [], -1, seq(CHANNELS, i => false), false, {}) else
    var before := ticks[..|ticks| - 1];
    PoolParts(Run(n, hasData, before));
    Watch(Observed(n, hasData, before), Run(n, hasData, before), ticks[|ticks| - 1])
  }

  /** The filters in force when the cycle started. */
  function AtStart(o: Observation): Filters {
    Filters(true, o.solo, o.muted)
  }

  /** The filter flags that decide on a message have not changed during the cycle. */
  predicate Steady(o: Observation, d: MidiData) {
    IsSysex(d) || (!o.soloMoved && Channel(d) !in o.mutesMoved)
  }

  /** Flags that have not moved are as at the start of the cycle. */
  ghost predicate Unmoved(o: Observation, s: State)
    requires Shape(s)
  {
    |o.muted| == CHANNELS && (!o.soloMoved ==> s.solo == o.solo) &&
    forall c: nat :: c < CHANNELS && c !in o.mutesMoved ==> s.muted[c] == o.muted[c]
  }

  /** Every event played has been decided on, or is being worked on. */
  predicate Counted(o: Observation, s: State) {
    if Deciding(s.rt) then |o.played| == |o.decided| + 1 && o.played[|o.decided|] == s.rt.event && (s.rt.SendEvent? || !IsSysex(s.rt.event))
    else |o.played| == |o.decided|
  }

  /** What the process thread has already found out about the event it works on. */
  predicate SoFar(o: Observation, pc: RtPc) {
    (pc.LoadSoloAgain? && Steady(o, pc.event) ==> o.solo != -1) &&
    (pc.LoadMuted? && Steady(o, pc.event) ==> o.solo == -1 || Channel(pc.event) == o.solo) &&
    (pc.SendEvent? && Steady(o, pc.event) ==> Audible(AtStart(o), pc.event))
  }

  /** Events with steady flags are sent exactly when the filters at the start of the cycle let them through. */
  ghost predicate DecidedRight(o: Observation) {
    |o.decided| <= |o.played| &&
    forall i :: 0 <= i < |o.decided| && Steady(o, o.played[i]) ==> (o.decided[i] <==> Audible(AtStart(o), o.played[i]))
  }

  lemma WatchKeepsUnmoved(o: Observation, s: State, t: Tick)
    requires Shape(s) && Shape(Next(s, t)) && Unmoved(o, s)
    ensures Unmoved(Watch(o, s, t), Next(s, t))
  {
    hide CmdStep, RtStep;
    if t.RtTick? && s.rt.RtIdle? {
      StartOfCycle(s, t.choice);
    }
  }

  lemma StartOfCycle(s: State, c: RtChoice)
    requires Shape(s) && s.rt.RtIdle?
    ensures RtStep(s, c).solo == s.solo && RtStep(s, c).muted == s.muted && !Deciding(RtStep(s, c).rt)
  {
  }

  /** Flags that are steady after a step were steady before it. */
  lemma SteadyBefore(o: Observation, s: State, t: Tick, d: MidiData)
    requires Shape(s) && !(t.RtTick? && s.rt.RtIdle?)
    ensures Steady(Watch(o, s, t), d) ==> Steady(o, d)
    ensures AtStart(Watch(o, s, t)) == AtStart(o) && o.decided <= Watch(o, s, t).decided && o.played <= Watch(o, s, t).played
  {
    hide Next, IsSysex;
  }

  lemma CmdKeepsWatch(o: Observation, s: State, c: Command)
    requires Shape(s) && Shape(CmdStep(s, c)) && Counted(o, s) && SoFar(o, s.rt) && DecidedRight(o)
    ensures var o', s' := Watch(o, s, CmdTick(c)), CmdStep(s, c); Counted(o', s') && SoFar(o', s'.rt) && DecidedRight(o')
  {
    hide CmdStep, Steady, Audible;
    CmdLeavesRt(s, c);
    forall d: MidiData {
      SteadyBefore(o, s, CmdTick(c), d);
    }
  }

  lemma CmdLeavesRt(s: State, c: Command)
    requires Shape(s)
    ensures CmdStep(s, c).rt == s.rt
  {
  }

  lemma RtLeavesFlags(s: State, c: RtChoice)
    requires Shape(s)
    ensures RtStep(s, c).solo == s.solo && RtStep(s, c).muted == s.muted
  {
  }

  /** A step of the process thread outside its decisions. */
  lemma RtElsewhere(s: State, c: RtChoice)
    requires Shape(s) && !Deciding(s.rt) && !s.rt.Playing?
    ensures !Deciding(RtStep(s, c).rt)
  {
  }

  lemma RtKeepsCounted(o: Observation, s: State, c: RtChoice)
    requires Shape(s) && Shape(RtStep(s, c)) && Counted(o, s)
    ensures Counted(Watch(o, s, RtTick(c)), RtStep(s, c))
  {
    if !Deciding(s.rt) && !s.rt.Playing? {
      hide RtStep;
      RtElsewhere(s, c);
    }
  }

  lemma RtKeepsSoFar(o: Observation, s: State, c: RtChoice)
    requires Shape(s) && Shape(RtStep(s, c)) && Counted(o, s) && SoFar(o, s.rt) && Unmoved(o, s)
    ensures SoFar(Watch(o, s, RtTick(c)), RtStep(s, c).rt)
  {
    hide IsSysex;
    RtLeavesFlags(s, c);
    if !Deciding(s.rt) && !s.rt.Playing? {
      RtElsewhere(s, c);
    }
  }

  lemma RtKeepsDecided(o: Observation, s: State, c: RtChoice)
    requires Shape(s) && Shape(RtStep(s, c)) && Counted(o, s) && SoFar(o, s.rt) && Unmoved(o, s) && DecidedRight(o)
    ensures DecidedRight(Watch(o, s, RtTick(c)))
  {
    RtLeavesFlags(s, c);
    if !Deciding(s.rt) && !s.rt.Playing? {
      RtElsewhere(s, c);
    }
  }

  // ----- every run

  ghost predicate Faithful(o: Observation, s: State)
    requires Shape(s)
  {
    Unmoved(o, s) && Counted(o, s) && SoFar(o, s.rt) && DecidedRight(o)
  }

  lemma StepKeepsFaithful(o: Observation, s: State, t: Tick)
    requires Shape(s) && Shape(Next(s, t)) && Faithful(o, s)
    ensures Faithful(Watch(o, s, t), Next(s, t))
  {
    hide CmdStep, RtStep, Watch, Unmoved, Counted, SoFar, DecidedRight;
    WatchKeepsUnmoved(o, s, t);
    match t
    case CmdTick(c) =>
      CmdKeepsWatch(o, s, c);
    case RtTick(c) =>
      RtKeepsCounted(o, s, c);
      RtKeepsSoFar(o, s, c);
      RtKeepsDecided(o, s, c);
  }

  lemma {:induction false} RunFaithful(n: nat, hasData: seq<bool>, ticks: seq<Tick>)
    requires n > 0 && |hasData| == CHANNELS
    ensures Shape(Run(n, hasData, ticks)) && Faithful(Observed(n, hasData, ticks), Run(n, hasData, ticks))
    decreases |ticks|
  {
    PoolParts(Run(n, hasData, ticks));
    if ticks != [] {
      hide PoolSafe, Next, Watch, Faithful;
      var before := ticks[..|ticks| - 1];
      PoolParts(Run(n, hasData, before));
      RunFaithful(n, hasData, before);
      StepKeepsFaithful(Observed(n, hasData, before), Run(n, hasData, before), ticks[|ticks| - 1]);
    }
  }

  /** In every run, once the events decided on in a cycle are those of frames pos to hi-1: what the cycle sends is a
      subsequence of the unfiltered window; an event whose filter flags have not changed during the cycle is sent exactly
      when the filters at its start let it through; and if no flag has changed, the cycle sends exactly its window. */
  lemma {:induction false} InterleavedWindow(n: nat, hasData: seq<bool>, ticks: seq<Tick>, stream: seq<Placed>, pos: nat, hi: nat)
    requires n > 0 && |hasData| == CHANNELS && !Deciding(Run(n, hasData, ticks).rt)
    requires Observed(n, hasData, ticks).played == DataBetween(stream, pos, hi)
    ensures var o := Observed(n, hasData, ticks);
            |o.decided| == |o.played| &&
            var sent := Selected(o.played, o.decided);
            IsSubsequence(sent, DataBetween(stream, pos, hi)) &&
            (forall i :: 0 <= i < |o.played| && Steady(o, o.played[i]) ==> (o.decided[i] <==> Audible(AtStart(o), o.played[i]))) &&
            (!o.soloMoved && o.mutesMoved == {} ==> sent == BytesOf(Window(stream, AtStart(o), pos, pos, hi)))
  {
    hide Observed, Audible, DataBetween, Unmoved, Window, Kept, SoFar;
    var o := Observed(n, hasData, ticks);
    RunFaithful(n, hasData, ticks);
    assert o.played[..|o.decided|] == o.played;
    SelectedIsSubsequence(o.played, o.decided);
    if !o.soloMoved && o.mutesMoved == {} {
      SelectedIsKept(AtStart(o), o.played, o.decided);
      WindowIsKept(stream, AtStart(o), pos, pos, hi);
    }
  }
}
