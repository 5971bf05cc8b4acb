/** The steps of a command, run without interruption, do what the commands do as methods on the pool. */
module Uninterrupted {
  import opened Common
  import opened Elements
  import opened Timeline
  import opened ControlPool
  import opened Engine
  import opened Commands
  import opened Protocol

  /** The state after k steps of the command thread and none of the process thread. */
  ghost function Steps(s: State, c: Command, k: nat): (r: State)
    requires PoolSafe(s)
    ensures PoolSafe(r)
  {
    if k == 0 then s else
    StepKeepsPool(Steps(s, c, k - 1), CmdTick(c));
    Next(Steps(s, c, k - 1), CmdTick(c))
  }

  /** Steps of the command thread alone lead from one state to another. */
  ghost predicate Leads(s: State, c: Command, t: State)
    requires PoolSafe(s)
  {
    exists k: nat :: Steps(s, c, k) == t
  }

  lemma {:induction false} StepsCompose(s: State, c: Command, j: nat, k: nat)
    requires PoolSafe(s)
    ensures Steps(s, c, j + k) == Steps(Steps(s, c, j), c, k)
  {
    hide PoolSafe, Next;
    if k > 0 {
      StepsCompose(s, c, j, k - 1);
    }
  }

  lemma LeadsSafely(s: State, c: Command, t: State)
    requires PoolSafe(s) && Leads(s, c, t)
    ensures PoolSafe(t) && Shape(t)
  {
    hide PoolSafe, Next;
    PoolParts(t);
  }

  lemma LeadsNowhere(s: State, c: Command)
    requires PoolSafe(s)
    ensures Leads(s, c, s)
  {
    hide PoolSafe;
    assert Steps(s, c, 0) == s;
  }

  /** One more step. */
  lemma LeadsOn(s: State, c: Command, t: State)
    requires PoolSafe(s) && Leads(s, c, t)
    ensures Shape(t) && Leads(s, c, CmdStep(t, c))
  {
    hide PoolSafe, CmdStep;
    LeadsSafely(s, c, t);
    var k: nat :| Steps(s, c, k) == t;
    assert Steps(s, c, k + 1) == Next(t, CmdTick(c));
  }

  lemma LeadsThrough(s: State, c: Command, t: State, u: State)
    requires PoolSafe(s) && PoolSafe(t) && Leads(s, c, t) && Leads(t, c, u)
    ensures Leads(s, c, u)
  {
    hide PoolSafe, Next;
    var j: nat :| Steps(s, c, j) == t;
    var k: nat :| Steps(t, c, k) == u;
    StepsCompose(s, c, j, k);
  }

  // ----- reserve, fill, queue

  lemma ReserveTestStep(s: State, c: Command, i: nat, todo: seq<ChannelIndex>, p: Purpose)
    requires Shape(s) && s.cmd == ReserveTest(i, todo, p)
    ensures CmdStep(s, c) == s.(cmd :=
              if i == |s.available| then CmdIdle else if s.available[i] != None then ReserveLoad(i, todo, p) else ReserveTest(i + 1, todo, p))
  {
  }

  /** The search for an available message passes over the empty slots. */
  lemma {:induction false} ScanAvailable(s: State, c: Command, todo: seq<ChannelIndex>, p: Purpose, f: nat)
    requires PoolSafe(s) && s.cmd == ReserveTest(0, todo, p) && f <= |s.available|
    requires forall j :: 0 <= j < f ==> s.available[j] == None
    ensures Leads(s, c, s.(cmd := ReserveTest(f, todo, p)))
  {
    hide PoolSafe, CmdStep, Leads, Shape;
    if f == 0 {
      LeadsNowhere(s, c);
      assert s.(cmd := ReserveTest(0, todo, p)) == s;
    } else {
      ScanAvailable(s, c, todo, p, f - 1);
      LeadsOn(s, c, s.(cmd := ReserveTest(f - 1, todo, p)));
      ReserveTestStep(s.(cmd := ReserveTest(f - 1, todo, p)), c, f - 1, todo, p);
    }
  }

  lemma ReserveSteps(s: State, c: Command, f: nat, m: nat, todo: seq<ChannelIndex>, p: Purpose)
    requires Shape(s) && f < |s.available| && s.available[f] == Some(m)
    ensures Shape(s.(cmd := ReserveLoad(f, todo, p))) ==>
              CmdStep(s.(cmd := ReserveLoad(f, todo, p)), c) == s.(cmd := ReserveClear(f, m, todo, p))
    ensures Shape(s.(cmd := ReserveClear(f, m, todo, p))) ==>
              CmdStep(s.(cmd := ReserveClear(f, m, todo, p)), c) == s.(available := s.available[f := None], cmd := Fill(0, m, todo, p))
  {
  }

  /** The first available message is taken. */
  lemma TakeFirst(s: State, c: Command, todo: seq<ChannelIndex>, p: Purpose, f: nat, m: nat)
    requires PoolSafe(s) && s.cmd == ReserveTest(0, todo, p) && IsFirst(s.available, f, true) && s.available[f] == Some(m)
    ensures Leads(s, c, s.(available := s.available[f := None], cmd := Fill(0, m, todo, p)))
  {
    hide PoolSafe, CmdStep, Leads, Shape;
    PoolParts(s);
    ScanAvailable(s, c, todo, p, f);
    var at := s.(cmd := ReserveTest(f, todo, p));
    LeadsOn(s, c, at);
    ReserveTestStep(at, c, f, todo, p);
    ReserveSteps(s, c, f, m, todo, p);
    LeadsOn(s, c, s.(cmd := ReserveLoad(f, todo, p)));
    LeadsOn(s, c, s.(cmd := ReserveClear(f, m, todo, p)));
  }

  /** Message m holds the first k stored fields. */
  ghost function Filled(s: State, m: nat, channel: ChannelIndex, k: nat): State
    requires m < |s.supply| && |s.supply[m]| == 4 && k <= 4
  {
    s.(supply := s.supply[m := Packed(channel)[..k] + s.supply[m][k..]])
  }

  lemma FillStep(s: State, c: Command, k: nat, m: nat, todo: seq<ChannelIndex>, p: Purpose)
    requires m < |s.supply| && |s.supply[m]| == 4 && todo != [] && k < 4
    ensures var t := Filled(s, m, todo[0], k).(cmd := Fill(k, m, todo, p));
            Shape(t) ==>
              CmdStep(t, c) == Filled(s, m, todo[0], k + 1).(cmd := if k < 3 then Fill(k + 1, m, todo, p) else QueueTest(0, m, todo, p))
  {
    var packed, old' := Packed(todo[0]), s.supply[m];
    var before, after := packed[..k] + old'[k..], packed[..k + 1] + old'[k + 1..];
    assert before[k := packed[k]] == after;
    assert s.supply[m := before][m := after] == s.supply[m := after];
  }

  lemma {:induction false} FillAll(s: State, c: Command, m: nat, todo: seq<ChannelIndex>, p: Purpose, k: nat)
    requires PoolSafe(s) && Shape(s) && s.cmd == Fill(0, m, todo, p) && k <= 4
    requires m < |s.supply| && |s.supply[m]| == 4 && todo != []
    ensures Leads(s, c, Filled(s, m, todo[0], k).(cmd := if k < 4 then Fill(k, m, todo, p) else QueueTest(0, m, todo, p)))
  {
    hide PoolSafe, CmdStep, Leads, Shape, Packed;
    if k == 0 {
      LeadsNowhere(s, c);
      assert Packed(todo[0])[..0] + s.supply[m][0..] == s.supply[m];
      assert s.supply[m := s.supply[m]] == s.supply;
    } else {
      FillAll(s, c, m, todo, p, k - 1);
      LeadsOn(s, c, Filled(s, m, todo[0], k - 1).(cmd := Fill(k - 1, m, todo, p)));
      FillStep(s, c, k - 1, m, todo, p);
    }
  }

  lemma QueueTestStep(s: State, c: Command, i: nat, m: nat, todo: seq<ChannelIndex>, p: Purpose)
    requires Shape(s) && s.cmd == QueueTest(i, m, todo, p) && i < |s.process|
    ensures CmdStep(s, c) == s.(cmd := if s.process[i] == None then QueueStore(i, m, todo, p) else QueueTest(i + 1, m, todo, p))
  {
  }

  lemma {:induction false} ScanProcess(s: State, c: Command, m: nat, todo: seq<ChannelIndex>, p: Purpose, e: nat)
    requires PoolSafe(s) && s.cmd == QueueTest(0, m, todo, p) && e <= |s.process|
    requires forall j :: 0 <= j < e ==> s.process[j] != None
    ensures Leads(s, c, s.(cmd := QueueTest(e, m, todo, p)))
  {
    hide PoolSafe, CmdStep, Leads, Shape;
    if e == 0 {
      LeadsNowhere(s, c);
      assert s.(cmd := QueueTest(0, m, todo, p)) == s;
    } else {
      ScanProcess(s, c, m, todo, p, e - 1);
      LeadsOn(s, c, s.(cmd := QueueTest(e - 1, m, todo, p)));
      QueueTestStep(s.(cmd := QueueTest(e - 1, m, todo, p)), c, e - 1, m, todo, p);
    }
  }

  /** The state once message m has been stored in slot e. */
  ghost function Stored(s: State, e: nat, m: nat, todo: seq<ChannelIndex>, p: Purpose): State
    requires e < |s.process| && m < |s.ticket| && todo != []
  {
    s.(process := s.process[e := Some(m)], cmd := Silence(todo[1..], p),
       queued := s.queued + [Queued(SoundOff(todo[0]), todo[0], p, s.cycle)], ticket := s.ticket[m := |s.queued|])
  }

  lemma QueueStoreStep(s: State, c: Command, e: nat, m: nat, todo: seq<ChannelIndex>, p: Purpose)
    requires Shape(s) && s.cmd == QueueStore(e, m, todo, p)
    ensures e < |s.process| && m < |s.ticket| && todo != [] && CmdStep(s, c) == Stored(s, e, m, todo, p)
  {
  }

  lemma PutFirst(s: State, c: Command, m: nat, todo: seq<ChannelIndex>, p: Purpose, e: nat)
    requires PoolSafe(s) && s.cmd == QueueTest(0, m, todo, p) && IsFirst(s.process, e, false) && m < |s.ticket| && todo != []
    ensures Leads(s, c, Stored(s, e, m, todo, p))
  {
    hide PoolSafe, CmdStep, Leads, Shape, SoundOff, Silence;
    ScanProcess(s, c, m, todo, p, e);
    var at := s.(cmd := QueueTest(e, m, todo, p));
    LeadsOn(s, c, at);
    QueueTestStep(at, c, e, m, todo, p);
    var store := s.(cmd := QueueStore(e, m, todo, p));
    LeadsOn(s, c, store);
    QueueStoreStep(store, c, e, m, todo, p);
  }

  // ----- one message, and a whole list of them

  /** The data part of every message of the pool; the first byte of a message is its length. */
  ghost function Data(supply: seq<Bytes>): (r: seq<Bytes>)
    requires forall m :: 0 <= m < |supply| ==> |supply[m]| == 4
    ensures |r| == |supply| && forall m :: 0 <= m < |r| ==> r[m] == supply[m][1..]
  {
    seq(|supply|, m requires 0 <= m < |supply| => supply[m][1..])
  }

  /** The messages waiting in a state. */
  ghost function WaitingIn(s: State): seq<Bytes>
    requires PoolSafe(s)
  {
    Waiting(s.process, Data(s.supply))
  }

  /** Nothing but the pool and the history has changed. */
  ghost predicate SameButPool(s: State, t: State) {
    t.rt == s.rt && t.solo == s.solo && t.muted == s.muted && t.hasData == s.hasData && t.cycle == s.cycle
  }

  lemma FirstOne(slots: seq<Slot>, full: bool) returns (f: nat)
    requires exists k :: 0 <= k < |slots| && slots[k].Some? == full
    ensures IsFirst(slots, f, full)
  {
    f := 0;
    while slots[f].Some? != full
      invariant f < |slots| && (forall j :: 0 <= j < f ==> slots[j].Some? != full)
      invariant exists k :: f <= k < |slots| && slots[k].Some? == full
      decreases |slots| - f
    {
      f := f + 1;
    }
  }

  lemma PackedData(supply: seq<Bytes>, m: nat, channel: ChannelIndex)
    requires m < |supply| && forall l :: 0 <= l < |supply| ==> |supply[l]| == 4
    ensures Packed(channel)[..4] + supply[m][4..] == Packed(channel)
    ensures Data(supply[m := Packed(channel)]) == Data(supply)[m := SoundOff(channel)]
  {
  }

  lemma {:induction false} SomeReservable(available: seq<Slot>)
    requires Reservable(available) > 0
    ensures exists k :: 0 <= k < |available| && available[k].Some?
  {
    if forall k :: 0 <= k < |available| ==> !available[k].Some? {
      NoneReservable(available);
    }
  }

  /** The effect of reserving slot f and queueing in slot e, as the methods on the pool describe it. */
  lemma SentEffect(s: State, f: nat, e: nat, m: nat, channel: ChannelIndex, t: State)
    requires PoolSafe(s) && PoolSafe(t) && f < |s.available| && s.available[f] == Some(m) && m < |s.supply| && e < |s.process| && s.process[e] == None
    requires t.available == s.available[f := None] && t.process == s.process[e := Some(m)] && t.supply == s.supply[m := Packed(channel)]
    requires forall j :: 0 <= j < |s.process| ==> s.process[j] != Some(m)
    ensures Reservable(t.available) == Reservable(s.available) - 1
    ensures WaitingGrew(WaitingIn(s), WaitingIn(t), [SoundOff(channel)])
  {
    hide Reservable, Waiting, Packed, SoundOff, Count, Copies, Scans;
    ReservableAfter(s.available, f);
    PackedData(s.supply, m, channel);
    WaitingUnchanged(s.process, Data(s.supply), m, SoundOff(channel));
    forall d: Bytes {
      WaitingInsert(s.process, Data(t.supply), e, m, d);
    }
  }

  lemma TakenIsNotQueued(s: State, f: nat, m: nat)
    requires PoolSafe(s) && f < |s.available| && s.available[f] == Some(m)
    ensures m < |s.supply| == |s.ticket| == |s.process| && |s.supply[m]| == 4
    ensures forall j :: 0 <= j < |s.process| ==> s.process[j] != Some(m)
  {
    hide Scans;
    assert s.available[f] in multiset(s.available);
    assert Copies(s.available, m) > 0;
    assert Copies(s.process, m) == 0;
    assert forall j :: 0 <= j < |s.process| ==> s.process[j] in multiset(s.process);
  }

  /** One all-sound-off, from the search for a message to the store. */
  lemma SendOne(s: State, c: Command, todo: seq<ChannelIndex>, p: Purpose) returns (t: State)
    requires PoolSafe(s) && s.cmd == ReserveTest(0, todo, p) && todo != [] && Reservable(s.available) > 0
    ensures Leads(s, c, t) && PoolSafe(t) && SameButPool(s, t) && t.cmd == Silence(todo[1..], p)
    ensures Reservable(t.available) == Reservable(s.available) - 1
    ensures WaitingGrew(WaitingIn(s), WaitingIn(t), [SoundOff(todo[0])])
  {
    hide PoolSafe, CmdStep, Leads, Reservable, SoundOff, Silence, Packed, WaitingIn, WaitingGrew, OnePlace, Shape;
    SomeReservable(s.available);
    var f := FirstOne(s.available, true);
    var m := s.available[f].value;
    TakenIsNotQueued(s, f, m);
    var taken := s.(available := s.available[f := None], cmd := Fill(0, m, todo, p));
    TakeFirst(s, c, todo, p, f, m);
    LeadsSafely(s, c, taken);
    FillAll(taken, c, m, todo, p, 4);
    var filled := Filled(taken, m, todo[0], 4).(cmd := QueueTest(0, m, todo, p));
    LeadsSafely(taken, c, filled);
    LeadsThrough(s, c, taken, filled);
    RoomToQueue(filled);
    var e := FirstOne(filled.process, false);
    t := Stored(filled, e, m, todo, p);
    PutFirst(filled, c, m, todo, p, e);
    LeadsThrough(s, c, filled, t);
    LeadsSafely(s, c, t);
    SupplyFilled(s, m, todo[0]);
    SentEffect(s, f, e, m, todo[0], t);
  }

  lemma SupplyFilled(s: State, m: nat, channel: ChannelIndex)
    requires PoolSafe(s) && m < |s.supply|
    ensures |s.supply[m]| == 4 && Packed(channel)[..4] + s.supply[m][4..] == Packed(channel)
  {
    hide OnePlace, Scans;
    PackedData(s.supply, m, channel);
  }

  lemma RoomToQueue(s: State)
    requires PoolSafe(s) && s.cmd.QueueTest? && s.cmd.i == 0
    ensures exists k :: 0 <= k < |s.process| && !s.process[k].Some?
  {
    hide OnePlace;
    var k :| 0 <= k < |s.process| && s.process[k] == None;
  }

  /** With no message free the command gives up. */
  lemma GiveUp(s: State, c: Command, todo: seq<ChannelIndex>, p: Purpose)
    requires PoolSafe(s) && s.cmd == ReserveTest(0, todo, p) && Reservable(s.available) == 0
    ensures Leads(s, c, s.(cmd := CmdIdle))
  {
    hide PoolSafe, CmdStep, Leads, Shape, Reservable;
    forall j | 0 <= j < |s.available| ensures s.available[j] == None {
      if s.available[j] != None {
        ReservableAfter(s.available, j);
      }
    }
    ScanAvailable(s, c, todo, p, |s.available|);
    var at := s.(cmd := ReserveTest(|s.available|, todo, p));
    LeadsOn(s, c, at);
    ReserveTestStep(at, c, |s.available|, todo, p);
  }

  /** A list of all-sound-offs, as far as the free messages go. */
  lemma {:induction false} SendAll(s: State, c: Command, todo: seq<ChannelIndex>, p: Purpose) returns (t: State)
    requires PoolSafe(s) && s.cmd == Silence(todo, p)
    ensures Leads(s, c, t) && PoolSafe(t) && SameButPool(s, t) && t.cmd == CmdIdle
    ensures var sent := todo[..Min(|todo|, Reservable(s.available))];
            Reservable(t.available) == Reservable(s.available) - |sent| &&
            WaitingGrew(WaitingIn(s), WaitingIn(t), OffMessages(sent))
    decreases |todo|
  {
    hide PoolSafe, CmdStep, Leads, Reservable, SoundOff, WaitingIn, WaitingGrew, OffMessages, Count;
    OneOffMessage(0);
    if todo == [] {
      t := s;
      LeadsNowhere(s, c);
      GrewNot(WaitingIn(s));
    } else if Reservable(s.available) == 0 {
      t := s.(cmd := CmdIdle);
      GiveUp(s, c, todo, p);
      LeadsSafely(s, c, t);
      SameWaiting(s, t);
      GrewNot(WaitingIn(s));
      assert todo[..0] == [];
    } else {
      var one := SendOne(s, c, todo, p);
      t := SendAll(one, c, todo[1..], p);
      LeadsThrough(s, c, one, t);
      var n := Min(|todo[1..]|, Reservable(one.available));
      GrewTwice(WaitingIn(s), WaitingIn(one), WaitingIn(t), [SoundOff(todo[0])], OffMessages(todo[1..][..n]));
      OneOffMessage(todo[0]);
      OffMessagesConcat([todo[0]], todo[1..][..n]);
      assert todo[..n + 1] == [todo[0]] + todo[1..][..n];
    }
  }

  lemma SameWaiting(s: State, t: State)
    requires PoolSafe(s) && PoolSafe(t) && s.process == t.process && s.supply == t.supply
    ensures WaitingIn(s) == WaitingIn(t)
  {
    hide OnePlace, Scans, Shape;
  }

  // ----- the commands

  lemma BeginEffect(s: State, c: Command)
    requires Shape(s) && s.cmd == CmdIdle
    ensures var t := CmdStep(s, c);
            t.available == s.available && t.process == s.process && t.supply == s.supply && t.rt == s.rt && t.hasData == s.hasData &&
            (exists p :: t.cmd == Silence(Targets(s.hasData, c), p)) &&
            Filters(true, t.solo, t.muted) == Effect(Filters(true, s.solo, s.muted), c)
  {
    hide Silenced;
    var t := CmdStep(s, c);
    if t.cmd.CmdIdle? {
      assert t.cmd == Silence([], NoEffect);
      EmptyTargets(s, c);
    } else {
      assert t.cmd == Silence(Targets(s.hasData, c), t.cmd.purpose);
    }
  }

  lemma EmptyTargets(s: State, c: Command)
    requires Shape(s) && s.cmd == CmdIdle && CmdStep(s, c).cmd == CmdIdle
    ensures Targets(s.hasData, c) == []
  {
    hide Silenced;
  }

  /** Run to its end without interruption, a command changes the flags, the pool and the queue exactly as its method does
      (`Commands.ComMute`, `Commands.ComUnmute`, `Commands.ComSolo`). */
  lemma CommandUninterrupted(s: State, c: Command) returns (t: State)
    requires PoolSafe(s) && s.cmd == CmdIdle && |s.hasData| == |s.muted| == CHANNELS
    ensures Leads(s, c, t) && PoolSafe(t) && t.cmd == CmdIdle && t.rt == s.rt && t.hasData == s.hasData
    ensures Filters(true, t.solo, t.muted) == Effect(Filters(true, s.solo, s.muted), c)
    ensures var targets := Targets(s.hasData, c); var sent := targets[..Min(|targets|, Reservable(s.available))];
            Reservable(t.available) == Reservable(s.available) - |sent| &&
            WaitingGrew(WaitingIn(s), WaitingIn(t), OffMessages(sent))
  {
    hide PoolSafe, CmdStep, Leads, Reservable, WaitingIn, WaitingGrew, OffMessages, Silence, Targets, Effect, Shape;
    LeadsNowhere(s, c);
    LeadsOn(s, c, s);
    BeginEffect(s, c);
    var begun := CmdStep(s, c);
    LeadsSafely(s, c, begun);
    var p :| begun.cmd == Silence(Targets(s.hasData, c), p);
    SameWaiting(s, begun);
    t := SendAll(begun, c, Targets(s.hasData, c), p);
    LeadsThrough(s, c, begun, t);
  }
}
