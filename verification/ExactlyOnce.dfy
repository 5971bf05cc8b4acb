/** Queued control messages arrive exactly once, unharmed, and within a cycle, under every interleaving. */
module ExactlyOnce {
  import opened Common
  import opened Elements
  import opened ControlPool
  import opened Engine
  import opened Commands
  import opened Runs
  import opened Protocol
  import opened Uninterrupted

  /** Message `m` has been queued and not yet sent. */
  ghost predicate InFlight(s: State, m: nat) {
    Copies(s.process, m) > 0 || ((s.rt.CopyLength? || s.rt.CopyBytes?) && s.rt.m == m)
  }

  /** The process thread finishes copying a message to the port buffer in its next step. */
  predicate Finishing(pc: RtPc) {
    pc.CopyBytes? && (|pc.copied| >= pc.len || |pc.copied| >= 3)
  }

  lemma CmdInFlight(s: State, c: Command, m: nat)
    requires PoolSafe(s)
    ensures InFlight(CmdStep(s, c), m) <==> InFlight(s, m) || (s.cmd.QueueStore? && s.cmd.m == m)
    ensures CmdHolds(s.cmd) == Some(m) ==> !InFlight(s, m)
    ensures InFlight(s, m) ==> m < |s.process|
  {
    hide Silenced, SoundOff, Packed, Copies, EmptyFrom;
    if s.cmd.QueueStore? {
      CopiesAfter(s.process, s.cmd.i, Some(s.cmd.m));
    }
    OutOfRange(s.process, m);
  }

  lemma RtInFlight(s: State, c: RtChoice, m: nat)
    requires PoolSafe(s)
    ensures InFlight(RtStep(s, c), m) <==> InFlight(s, m) && !(Finishing(s.rt) && s.rt.m == m)
  {
    hide Hear, Copies, EmptyFrom;
    if s.rt.DrainClear? {
      CopiesAfter(s.process, s.rt.index, None);
    }
  }

  lemma OutOfRange(slots: seq<Slot>, m: nat)
    requires InSupply(slots, |slots|)
    ensures Copies(slots, m) > 0 ==> m < |slots|
  {
    if Copies(slots, m) > 0 {
      assert Some(m) in multiset(slots);
      assert Some(m) in slots;
    }
  }

  // ----- contents

  /** The command thread has written the fields it is past. */
  ghost predicate Written(s: State)
    requires Shape(s)
  {
    (s.cmd.Fill? ==> forall j :: 0 <= j < s.cmd.k ==> s.supply[s.cmd.m][j] == Packed(s.cmd.todo[0])[j]) &&
    (s.cmd.QueueTest? || s.cmd.QueueStore? ==> s.supply[s.cmd.m] == Packed(s.cmd.todo[0]))
  }

  ghost predicate AllSoundOffs(queued: seq<Queued>) {
    forall t :: 0 <= t < |queued| ==> queued[t].bytes == SoundOff(queued[t].channel)
  }

  /** The bytes of a message in flight are those its command wrote; half-written messages are never in flight. */
  ghost predicate Intact(s: State, m: nat)
    requires Shape(s)
  {
    m < |s.ticket| && s.ticket[m] < |s.queued| && s.supply[m] == Packed(s.queued[s.ticket[m]].channel)
  }

  /** The process thread has copied a prefix of the message. */
  ghost predicate Copied(s: State)
    requires Shape(s)
  {
    s.rt.CopyBytes? ==>
      s.rt.len == 3 && s.ticket[s.rt.m] < |s.queued| && s.rt.copied == SoundOff(s.queued[s.ticket[s.rt.m]].channel)[..|s.rt.copied|]
  }

  ghost predicate Contents(s: State)
    requires Shape(s)
  {
    Written(s) && AllSoundOffs(s.queued) && Copied(s) && forall m: nat :: InFlight(s, m) ==> Intact(s, m)
  }

  lemma CmdKeepsWritten(s: State, c: Command)
    requires PoolSafe(s) && Written(s) && Shape(CmdStep(s, c))
    ensures Written(CmdStep(s, c))
  {
    hide OnePlace, Scans, Silenced;
  }

  /** Only a message that is not in flight is written to, and only such a message gets a new ticket. */
  lemma CmdKeepsIntact(s: State, c: Command, m: nat)
    requires PoolSafe(s) && Written(s) && Shape(CmdStep(s, c))
    requires InFlight(s, m) ==> Intact(s, m)
    ensures InFlight(CmdStep(s, c), m) ==> Intact(CmdStep(s, c), m)
    ensures InFlight(s, m) ==> CmdStep(s, c).ticket[m] == s.ticket[m] && s.queued <= CmdStep(s, c).queued
  {
    hide InFlight, OnePlace, Scans, Silenced, SoundOff, Packed;
    CmdInFlight(s, c, m);
  }

  lemma CmdKeepsContents(s: State, c: Command)
    requires Shape(s) && PoolSafe(s) && Contents(s) && Shape(CmdStep(s, c))
    ensures Contents(CmdStep(s, c))
  {
    hide InFlight, PoolSafe, Written, Intact, CmdStep, SoundOff;
    CmdKeepsWritten(s, c);
    forall m: nat ensures InFlight(CmdStep(s, c), m) ==> Intact(CmdStep(s, c), m) {
      CmdKeepsIntact(s, c, m);
    }
    CmdKeepsHistory(s, c);
    if s.rt.CopyBytes? {
      NowInFlight(s);
      CmdKeepsIntact(s, c, s.rt.m);
    }
  }

  lemma CmdKeepsHistory(s: State, c: Command)
    requires Shape(s)
    ensures var s' := CmdStep(s, c); s'.rt == s.rt && s'.log == s.log && s'.cycle == s.cycle
    ensures AllSoundOffs(s.queued) ==> AllSoundOffs(CmdStep(s, c).queued)
    ensures var s' := CmdStep(s, c);
            if s.cmd.QueueStore? then
              |s'.queued| == |s.queued| + 1 && s'.queued[..|s.queued|] == s.queued && s'.queued[|s.queued|].cycle == s.cycle &&
              s'.ticket == s.ticket[s.cmd.m := |s.queued|] && s'.process == s.process[s.cmd.i := Some(s.cmd.m)]
            else
              s'.queued == s.queued && s'.ticket == s.ticket && s'.process == s.process
  {
    hide Silenced;
  }

  lemma NowInFlight(s: State)
    requires s.rt.CopyLength? || s.rt.CopyBytes?
    ensures InFlight(s, s.rt.m)
  {
  }

  lemma RtKeepsHistory(s: State, c: RtChoice)
    requires Shape(s)
    ensures var s' := RtStep(s, c);
            s'.cmd == s.cmd && s'.supply == s.supply && s'.ticket == s.ticket && s'.queued == s.queued &&
            s'.cycle == (if s.rt.RtIdle? then s.cycle + 1 else s.cycle) &&
            s'.log == if Finishing(s.rt) then s.log + [Delivery(s.ticket[s.rt.m], s.rt.copied, s.cycle)] else s.log
  {
    hide Hear;
  }

  lemma RtKeepsCopied(s: State, c: RtChoice)
    requires PoolSafe(s) && Copied(s) && Shape(RtStep(s, c))
    requires s.rt.CopyLength? || s.rt.CopyBytes? ==> Intact(s, s.rt.m)
    ensures Copied(RtStep(s, c))
  {
    hide OnePlace, Scans, Hear;
  }

  lemma RtKeepsContents(s: State, c: RtChoice)
    requires Shape(s) && PoolSafe(s) && Contents(s) && Shape(RtStep(s, c))
    ensures Contents(RtStep(s, c))
  {
    hide InFlight, PoolSafe, RtStep, Copied, Packed, SoundOff;
    RtKeepsHistory(s, c);
    forall m: nat {
      RtInFlight(s, c, m);
    }
    if s.rt.CopyLength? || s.rt.CopyBytes? {
      NowInFlight(s);
    }
    RtKeepsCopied(s, c);
  }

  // ----- exactly once

  ghost predicate Delivered(s: State, t: nat) {
    exists d :: 0 <= d < |s.log| && s.log[d].ticket == t
  }

  ghost predicate OnItsWay(s: State, t: nat) {
    exists m: nat :: m < |s.ticket| && InFlight(s, m) && s.ticket[m] == t
  }

  /** Different messages in flight carry different tickets, and none that has been delivered; no ticket is delivered twice. */
  ghost predicate NotTwice(s: State)
    requires Shape(s)
  {
    (forall l: nat, m: nat :: l < m < |s.ticket| && InFlight(s, l) && InFlight(s, m) ==> s.ticket[l] != s.ticket[m]) &&
    (forall d: nat, m: nat :: d < |s.log| && m < |s.ticket| && InFlight(s, m) ==> s.log[d].ticket != s.ticket[m]) &&
    (forall d, e :: 0 <= d < e < |s.log| ==> s.log[d].ticket != s.log[e].ticket)
  }

  /** No queued message is lost. */
  ghost predicate NotLost(s: State) {
    forall t: nat :: t < |s.queued| ==> Delivered(s, t) || OnItsWay(s, t)
  }

  /** What was delivered is what was queued, in the cycle of queueing or the next one. */
  ghost predicate Faithful(s: State) {
    forall d :: 0 <= d < |s.log| ==>
      s.log[d].ticket < |s.queued| && s.log[d].bytes == s.queued[s.log[d].ticket].bytes &&
      s.queued[s.log[d].ticket].cycle <= s.log[d].cycle <= s.queued[s.log[d].ticket].cycle + 1
  }

  /** How far the process thread has drained the process array in this cycle. */
  ghost function Drained(s: State): nat {
    if s.rt.DrainTest? || s.rt.DrainLoad? || s.rt.DrainClear? || s.rt.CopyLength? || s.rt.CopyBytes? || s.rt.ReturnTest? || s.rt.ReturnStore?
    then s.rt.index else |s.process|
  }

  /** A message in a slot that has been passed in this cycle was queued in this cycle; no message waits longer than one cycle. */
  ghost predicate Fresh(s: State)
    requires Shape(s)
  {
    (forall m: nat :: InFlight(s, m) ==>
      m < |s.ticket| && s.ticket[m] < |s.queued| && s.queued[s.ticket[m]].cycle <= s.cycle <= s.queued[s.ticket[m]].cycle + 1) &&
    (forall j, m :: 0 <= j < |s.process| && j < Drained(s) && s.process[j] == Some(m) ==>
      m < |s.ticket| && s.ticket[m] < |s.queued| && s.queued[s.ticket[m]].cycle == s.cycle)
  }

  /** No message is lost, duplicated, altered or delayed by more than a cycle. */
  ghost predicate DeliverySafe(s: State)
    requires Shape(s)
  {
    Contents(s) && NotTwice(s) && NotLost(s) && Faithful(s) && Fresh(s)
  }

  lemma CmdKeepsNotTwice(s: State, c: Command)
    requires Shape(s) && PoolSafe(s) && Shape(CmdStep(s, c)) && NotTwice(s) && Faithful(s)
    requires forall m: nat :: InFlight(s, m) ==> Intact(s, m)
    ensures NotTwice(CmdStep(s, c))
  {
    hide InFlight, PoolSafe, CmdStep;
    CmdKeepsHistory(s, c);
    forall m: nat {
      CmdInFlight(s, c, m);
    }
  }

  lemma RtKeepsNotTwice(s: State, c: RtChoice)
    requires Shape(s) && PoolSafe(s) && Shape(RtStep(s, c)) && NotTwice(s)
    ensures NotTwice(RtStep(s, c))
  {
    hide InFlight, PoolSafe, RtStep;
    RtKeepsHistory(s, c);
    forall m: nat {
      RtInFlight(s, c, m);
    }
    if Finishing(s.rt) {
      NowInFlight(s);
    }
  }

  lemma CmdKeepsNotLost(s: State, c: Command)
    requires Shape(s) && PoolSafe(s) && Shape(CmdStep(s, c)) && NotLost(s)
    ensures NotLost(CmdStep(s, c))
  {
    hide InFlight, PoolSafe, CmdStep;
    CmdKeepsHistory(s, c);
    var s' := CmdStep(s, c);
    forall t: nat | t < |s'.queued| ensures Delivered(s', t) || OnItsWay(s', t) {
      if t == |s.queued| {
        CmdInFlight(s, c, s.cmd.m);
        assert InFlight(s', s.cmd.m) && s'.ticket[s.cmd.m] == t;
      } else if Delivered(s, t) {
        var d :| 0 <= d < |s.log| && s.log[d].ticket == t;
        assert s'.log[d].ticket == t;
      } else {
        var m: nat :| m < |s.ticket| && InFlight(s, m) && s.ticket[m] == t;
        CmdInFlight(s, c, m);
        assert InFlight(s', m) && s'.ticket[m] == t;
      }
    }
  }

  lemma RtKeepsNotLost(s: State, c: RtChoice)
    requires Shape(s) && PoolSafe(s) && Shape(RtStep(s, c)) && NotLost(s)
    ensures NotLost(RtStep(s, c))
  {
    hide InFlight, PoolSafe, RtStep;
    RtKeepsHistory(s, c);
    var s' := RtStep(s, c);
    forall t: nat | t < |s'.queued| ensures Delivered(s', t) || OnItsWay(s', t) {
      if Delivered(s, t) {
        var d :| 0 <= d < |s.log| && s.log[d].ticket == t;
        assert s'.log[d].ticket == t;
      } else {
        var m: nat :| m < |s.ticket| && InFlight(s, m) && s.ticket[m] == t;
        RtInFlight(s, c, m);
        if Finishing(s.rt) && s.rt.m == m {
          assert s'.log[|s.log|].ticket == t;
        } else {
          assert InFlight(s', m) && s'.ticket[m] == t;
        }
      }
    }
  }

  lemma CmdKeepsFaithful(s: State, c: Command)
    requires Shape(s) && Faithful(s)
    ensures Faithful(CmdStep(s, c))
  {
    hide CmdStep;
    CmdKeepsHistory(s, c);
    var s' := CmdStep(s, c);
    assert forall t :: 0 <= t < |s.queued| ==> s'.queued[t] == s'.queued[..|s.queued|][t];
  }

  lemma RtKeepsFaithful(s: State, c: RtChoice)
    requires Shape(s) && Contents(s) && Faithful(s) && Fresh(s)
    ensures Faithful(RtStep(s, c))
  {
    hide InFlight, RtStep, Packed;
    RtKeepsHistory(s, c);
    if Finishing(s.rt) {
      NowInFlight(s);
      assert s.rt.copied == SoundOff(s.queued[s.ticket[s.rt.m]].channel);
    }
  }

  lemma CmdKeepsFresh(s: State, c: Command)
    requires Shape(s) && PoolSafe(s) && Shape(CmdStep(s, c)) && Fresh(s)
    ensures Fresh(CmdStep(s, c))
  {
    hide InFlight, PoolSafe, CmdStep;
    CmdKeepsHistory(s, c);
    var s' := CmdStep(s, c);
    assert forall t :: 0 <= t < |s.queued| ==> s'.queued[t] == s'.queued[..|s.queued|][t];
    forall m: nat {
      CmdInFlight(s, c, m);
    }
    forall j | 0 <= j < |s.process| && s.process[j].Some? {
      InSlot(s, j);
    }
  }

  lemma InSlot(s: State, j: nat)
    requires j < |s.process| && s.process[j].Some?
    ensures InFlight(s, s.process[j].value)
  {
    assert s.process[j] in multiset(s.process);
  }

  lemma RtKeepsFresh(s: State, c: RtChoice)
    requires Shape(s) && PoolSafe(s) && Shape(RtStep(s, c)) && Fresh(s)
    ensures Fresh(RtStep(s, c))
  {
    hide InFlight, OnePlace, Hear;
    RtKeepsHistory(s, c);
    forall m: nat {
      RtInFlight(s, c, m);
    }
    forall j | 0 <= j < |s.process| && s.process[j].Some? {
      InSlot(s, j);
    }
    if s.rt.RtIdle? {
      forall m: nat | InFlight(s, m) ensures s.queued[s.ticket[m]].cycle == s.cycle {
        var j := SlotOf(s, m);
      }
    }
  }

  /** Between cycles a message in flight sits in a slot. */
  lemma SlotOf(s: State, m: nat) returns (j: nat)
    requires InFlight(s, m) && s.rt.RtIdle?
    ensures j < |s.process| && s.process[j] == Some(m)
  {
    assert Some(m) in multiset(s.process);
    assert Some(m) in s.process;
    j :| 0 <= j < |s.process| && s.process[j] == Some(m);
  }

  // ----- every run

  lemma StepKeepsDelivery(s: State, t: Tick)
    requires Shape(s) && PoolSafe(s) && Shape(Next(s, t)) && DeliverySafe(s)
    ensures DeliverySafe(Next(s, t))
  {
    hide PoolSafe, CmdStep, RtStep, Contents, NotTwice, NotLost, Faithful, Fresh, InFlight;
    match t
    case CmdTick(c) =>
      CmdKeepsContents(s, c);
      IntactInFlight(s);
      CmdKeepsNotTwice(s, c);
      CmdKeepsNotLost(s, c);
      CmdKeepsFaithful(s, c);
      CmdKeepsFresh(s, c);
    case RtTick(c) =>
      RtKeepsContents(s, c);
      RtKeepsNotTwice(s, c);
      RtKeepsNotLost(s, c);
      RtKeepsFaithful(s, c);
      RtKeepsFresh(s, c);
  }

  lemma IntactInFlight(s: State)
    requires Shape(s) && Contents(s)
    ensures forall m: nat :: InFlight(s, m) ==> Intact(s, m)
  {
  }

  lemma {:induction false} RunDelivers(n: nat, hasData: seq<bool>, ticks: seq<Tick>)
    requires n > 0 && |hasData| == CHANNELS
    ensures DeliverySafe(Run(n, hasData, ticks))
    decreases |ticks|
  {
    if ticks == [] {
      var s := Initial(n, hasData);
      forall m: nat ensures !InFlight(s, m) {
        assert forall x :: x in s.process ==> x == None;
      }
    } else {
      hide DeliverySafe, PoolSafe, Next;
      var before := Run(n, hasData, ticks[..|ticks| - 1]);
      RunDelivers(n, hasData, ticks[..|ticks| - 1]);
      PoolParts(before);
      PoolParts(Run(n, hasData, ticks));
      StepKeepsDelivery(before, ticks[|ticks| - 1]);
    }
  }

  /** In every run each queued message has been delivered exactly once, or is on its way in exactly one place,
      with the bytes of its own all-sound-off, and is delivered in the cycle of queueing or the next. */
  lemma {:induction false} ExactlyOnceDelivery(n: nat, hasData: seq<bool>, ticks: seq<Tick>, t: nat)
    requires n > 0 && |hasData| == CHANNELS
    requires t < |Run(n, hasData, ticks).queued|
    ensures var s := Run(n, hasData, ticks);
            (exists d :: 0 <= d < |s.log| && s.log[d].ticket == t && s.log[d].bytes == SoundOff(s.queued[t].channel) &&
                         s.queued[t].cycle <= s.log[d].cycle <= s.queued[t].cycle + 1) !=
            (exists m: nat :: m < n && InFlight(s, m) && s.ticket[m] == t && s.supply[m] == Packed(s.queued[t].channel) &&
                              s.cycle <= s.queued[t].cycle + 1)
    ensures var s := Run(n, hasData, ticks);
            forall d, e :: 0 <= d < |s.log| && 0 <= e < |s.log| && s.log[d].ticket == t && s.log[e].ticket == t ==> d == e
    ensures var s := Run(n, hasData, ticks);
            forall l: nat, m: nat :: l < n && m < n && InFlight(s, l) && InFlight(s, m) && s.ticket[l] == t && s.ticket[m] == t ==> l == m
  {
    hide Next, InFlight, SoundOff, Packed, PoolSafe;
    var s := Run(n, hasData, ticks);
    RunDelivers(n, hasData, ticks);
    PoolParts(s);
    if Delivered(s, t) {
      var d :| 0 <= d < |s.log| && s.log[d].ticket == t;
      assert s.log[d].bytes == s.queued[t].bytes;
    } else {
      assert OnItsWay(s, t);
      var m: nat :| m < |s.ticket| && InFlight(s, m) && s.ticket[m] == t;
      assert Intact(s, m);
    }
  }

  /** When a cycle has drained the process array, every message still waiting was queued during that cycle. */
  lemma {:induction false} CycleDrainsAll(n: nat, hasData: seq<bool>, ticks: seq<Tick>, j: nat)
    requires n > 0 && |hasData| == CHANNELS
    ensures var s := Run(n, hasData, ticks);
            j < |s.process| && s.process[j].Some? && Drained(s) == |s.process| ==>
              var m: nat := s.process[j].value;
              m < |s.ticket| && s.ticket[m] < |s.queued| && s.queued[s.ticket[m]].cycle == s.cycle
  {
    RunDelivers(n, hasData, ticks);
  }

  // ----- in which cycle a message goes out

  /** The cycle in which a message goes out that is stored in slot `i` in cycle `c`: that same cycle when the drain has
      yet to reach the slot, and the next one otherwise. Outside a drain `Drained` is past every slot. */
  ghost function DueCycle(s: State, i: nat): nat {
    if Drained(s) <= i then s.cycle else s.cycle + 1
  }

  /** The message of ticket t goes out in cycle `due`: it has, or it is being copied in that cycle, or it sits in a slot
      that the drain of that cycle will reach. */
  ghost predicate OnTime(s: State, t: nat, due: nat) {
    t < |s.queued| &&
    (forall d :: 0 <= d < |s.log| && s.log[d].ticket == t ==> s.log[d].cycle == due) &&
    (s.rt.CopyLength? || s.rt.CopyBytes? ==> s.rt.m < |s.ticket| && (s.ticket[s.rt.m] == t ==> s.cycle == due)) &&
    (forall j, m :: 0 <= j < |s.process| && s.process[j] == Some(m) && m < |s.ticket| && s.ticket[m] == t ==> due == DueCycle(s, j))
  }

  /** Storing a message fixes its cycle. */
  lemma StoredOnTime(s: State, c: Command)
    requires Shape(s) && PoolSafe(s) && Shape(CmdStep(s, c)) && s.cmd.QueueStore? && Contents(s) && Faithful(s)
    ensures OnTime(CmdStep(s, c), |s.queued|, DueCycle(s, s.cmd.i))
  {
    hide InFlight, PoolSafe, CmdStep, Packed, SoundOff, Written, AllSoundOffs;
    CmdKeepsHistory(s, c);
    CmdInFlight(s, c, s.cmd.m);
    var s' := CmdStep(s, c);
    if s.rt.CopyLength? || s.rt.CopyBytes? {
      NowInFlight(s);
    }
    forall j | 0 <= j < |s.process| && s.process[j].Some? {
      InSlot(s, j);
    }
    NothingInFill(s, s.cmd.m);
  }

  lemma NothingInFill(s: State, m: nat)
    requires PoolSafe(s) && CmdHolds(s.cmd) == Some(m)
    ensures !InFlight(s, m)
    ensures forall j :: 0 <= j < |s.process| ==> s.process[j] != Some(m)
  {
    CmdInFlight(s, Unmute(0), m);
    forall j | 0 <= j < |s.process| && s.process[j].Some? {
      InSlot(s, j);
    }
  }

  lemma CmdKeepsOnTime(s: State, c: Command, t: nat, due: nat)
    requires Shape(s) && PoolSafe(s) && Shape(CmdStep(s, c)) && OnTime(s, t, due)
    ensures OnTime(CmdStep(s, c), t, due)
  {
    hide InFlight, PoolSafe, CmdStep;
    CmdKeepsHistory(s, c);
    if s.cmd.QueueStore? {
      NothingInFill(s, s.cmd.m);
      if s.rt.CopyLength? || s.rt.CopyBytes? {
        NowInFlight(s);
      }
    }
  }

  /** A step of the drain does not change when the messages still in slots are due. */
  lemma RtKeepsDue(s: State, c: RtChoice, j: nat)
    requires PoolSafe(s) && j < |s.process| && RtStep(s, c).process[j].Some?
    ensures RtStep(s, c).process[j] == s.process[j] && DueCycle(RtStep(s, c), j) == DueCycle(s, j)
  {
    hide OnePlace, Hear;
  }

  /** A message being copied was being copied before, or has just been taken from a slot in the cycle it was due. */
  lemma RtCopies(s: State, c: RtChoice)
    requires PoolSafe(s)
    ensures var s' := RtStep(s, c);
            s'.rt.CopyLength? || s'.rt.CopyBytes? ==>
              if s.rt.CopyLength? || s.rt.CopyBytes? then s.rt.m == s'.rt.m
              else s.rt.DrainClear? && s.process[s.rt.index] == Some(s'.rt.m) && s.cycle == DueCycle(s, s.rt.index)
  {
    hide OnePlace, Hear;
  }

  lemma RtKeepsOnTime(s: State, c: RtChoice, t: nat, due: nat)
    requires Shape(s) && PoolSafe(s) && Shape(RtStep(s, c)) && OnTime(s, t, due)
    ensures OnTime(RtStep(s, c), t, due)
  {
    hide PoolSafe, RtStep, DueCycle, Hear;
    RtKeepsHistory(s, c);
    RtCopies(s, c);
    SameSlots(s, c);
    forall j: nat | j < |s.process| && RtStep(s, c).process[j].Some? {
      RtKeepsDue(s, c, j);
    }
  }

  lemma SameSlots(s: State, c: RtChoice)
    requires Shape(s)
    ensures |RtStep(s, c).process| == |s.process|
  {
    hide Hear;
  }

  /** In every run, and however it goes on after a message has been stored: the message is delivered in the cycle in which
      it was stored if and only if the drain of that cycle had yet to reach its slot, and in the next cycle otherwise. */
  lemma {:induction false} DeliveredWhenDue(n: nat, hasData: seq<bool>, ticks: seq<Tick>, j: nat)
    requires n > 0 && |hasData| == CHANNELS && j < |ticks| && ticks[j].CmdTick?
    requires Run(n, hasData, ticks[..j]).cmd.QueueStore?
    ensures var before, s := Run(n, hasData, ticks[..j]), Run(n, hasData, ticks);
            OnTime(s, |before.queued|, DueCycle(before, before.cmd.i))
    decreases |ticks|
  {
    hide PoolSafe, CmdStep, RtStep, DeliverySafe, OnTime, DueCycle;
    var last := |ticks| - 1;
    var before, s := Run(n, hasData, ticks[..j]), Run(n, hasData, ticks[..last]);
    PoolParts(s);
    PoolParts(Run(n, hasData, ticks));
    if j == last {
      RunDelivers(n, hasData, ticks[..j]);
      DeliveryFacts(s);
      StoredOnTime(s, ticks[j].command);
    } else {
      assert ticks[..last][..j] == ticks[..j];
      DeliveredWhenDue(n, hasData, ticks[..last], j);
      match ticks[last]
      case CmdTick(c) =>
        CmdKeepsOnTime(s, c, |before.queued|, DueCycle(before, before.cmd.i));
      case RtTick(c) =>
        RtKeepsOnTime(s, c, |before.queued|, DueCycle(before, before.cmd.i));
    }
  }

  lemma DeliveryFacts(s: State)
    requires Shape(s) && DeliverySafe(s)
    ensures Contents(s) && Faithful(s) && NotLost(s)
  {
  }

  /** A message stored in slot i goes out in the cycle of storing exactly when the process thread is draining and has yet
      to reach slot i; otherwise it goes out in the next cycle. Until it is out, its cycle is not over. */
  lemma {:induction false} SameCycleExactly(n: nat, hasData: seq<bool>, ticks: seq<Tick>, j: nat)
    requires n > 0 && |hasData| == CHANNELS && j < |ticks| && ticks[j].CmdTick?
    requires Run(n, hasData, ticks[..j]).cmd.QueueStore?
    ensures var before, s := Run(n, hasData, ticks[..j]), Run(n, hasData, ticks);
            var t, early := |before.queued|, Drained(before) <= before.cmd.i;
            (forall d :: 0 <= d < |s.log| && s.log[d].ticket == t ==>
              (s.log[d].cycle == before.cycle <==> early) && (s.log[d].cycle == before.cycle + 1 <==> !early)) &&
            (!Delivered(s, t) ==> s.cycle <= if early then before.cycle else before.cycle + 1)
  {
    hide PoolSafe, DeliverySafe, Next, Drained, NotLost, Contents, Faithful, InFlight;
    var before, s := Run(n, hasData, ticks[..j]), Run(n, hasData, ticks);
    var t := |before.queued|;
    DeliveredWhenDue(n, hasData, ticks, j);
    if !Delivered(s, t) {
      RunDelivers(n, hasData, ticks);
      PoolParts(s);
      DeliveryFacts(s);
      NotYetDue(s, t, DueCycle(before, before.cmd.i));
    }
  }

  lemma NotYetDue(s: State, t: nat, due: nat)
    requires Shape(s) && NotLost(s) && OnTime(s, t, due) && !Delivered(s, t)
    ensures s.cycle <= due
  {
    hide Drained, Delivered;
    assert OnItsWay(s, t);
    var m: nat :| m < |s.ticket| && InFlight(s, m) && s.ticket[m] == t;
    if Copies(s.process, m) > 0 {
      assert Some(m) in multiset(s.process);
      assert Some(m) in s.process;
      var j :| 0 <= j < |s.process| && s.process[j] == Some(m);
    }
  }

  // ----- a run in which a message goes out in the cycle of queueing

  lemma {:induction false} Continue(hasData: seq<bool>, ticks: seq<Tick>, t: Tick) returns (longer: seq<Tick>)
    requires |hasData| == CHANNELS
    ensures longer == ticks + [t] && Run(1, hasData, longer) == Next(Run(1, hasData, ticks), t)
  {
    hide Next;
    longer := ticks + [t];
    assert longer[..|ticks|] == ticks;
  }

  /** Where the command thread gets by itself, a run gets. */
  lemma {:induction false} RunSteps(hasData: seq<bool>, ticks: seq<Tick>, c: Command, k: nat) returns (longer: seq<Tick>)
    requires |hasData| == CHANNELS
    ensures Run(1, hasData, longer) == Steps(Run(1, hasData, ticks), c, k)
  {
    hide PoolSafe, Next;
    if k == 0 {
      longer := ticks;
    } else {
      longer := RunSteps(hasData, ticks, c, k - 1);
      longer := Continue(hasData, longer, CmdTick(c));
    }
  }

  /** The command `mute 1` up to the point where it is about to store its message. */
  lemma MuteUpToStore(hasData: seq<bool>) returns (ticks: seq<Tick>)
    requires |hasData| == CHANNELS
    ensures var start := Initial(1, hasData);
            Run(1, hasData, ticks) ==
            start.(available := [None], supply := [Packed(0)], muted := start.muted[0 := true], cmd := QueueStore(0, 0, [0], ForMute))
  {
    hide CmdStep, Packed, PoolSafe, Leads, Steps, Shape;
    var c, start := Mute(1), Initial(1, hasData);
    assert start.available == [Some(0)] && start.process == [None];
    ticks := [];
    InitialPool(1, hasData);
    LeadsNowhere(start, c);
    LeadsOn(start, c, start);
    var begun := start.(muted := start.muted[0 := true], cmd := ReserveTest(0, [0], ForMute));
    BeginsMute(start);
    LeadsSafely(start, c, begun);
    TakeFirst(begun, c, [0], ForMute, 0, 0);
    var taken := begun.(available := [None], cmd := Fill(0, 0, [0], ForMute));
    assert begun.available[0 := None] == [None];
    LeadsSafely(begun, c, taken);
    LeadsThrough(start, c, begun, taken);
    FillAll(taken, c, 0, [0], ForMute, 4);
    PackedData(taken.supply, 0, 0);
    var filled := taken.(supply := [Packed(0)], cmd := QueueTest(0, 0, [0], ForMute));
    assert taken.supply[0 := Packed(0)] == [Packed(0)];
    LeadsSafely(taken, c, filled);
    LeadsThrough(start, c, taken, filled);
    LeadsOn(start, c, filled);
    QueueTestStep(filled, c, 0, 0, [0], ForMute);
    var k: nat := StepsTo(start, c, filled.(cmd := QueueStore(0, 0, [0], ForMute)));
    ticks := RunSteps(hasData, ticks, c, k);
  }

  lemma StepsTo(s: State, c: Command, t: State) returns (k: nat)
    requires PoolSafe(s) && Leads(s, c, t)
    ensures Steps(s, c, k) == t
  {
    hide PoolSafe, Steps;
    k :| Steps(s, c, k) == t;
  }

  lemma BeginsMute(s: State)
    requires Shape(s) && s.cmd == CmdIdle
    ensures CmdStep(s, Mute(1)) == s.(muted := s.muted[0 := true], cmd := ReserveTest(0, [0], ForMute))
  {
  }

  /** The bytes of a message are copied one by one, and then the message is out. */
  lemma CopyMessage(hasData: seq<bool>, ticks: seq<Tick>, r: Tick) returns (longer: seq<Tick>)
    requires |hasData| == CHANNELS && r.RtTick?
    requires var s := Run(1, hasData, ticks); s.rt == CopyBytes(1, 0, 3, []) && s.supply == [Packed(0)]
    ensures var s, last := Run(1, hasData, ticks), Run(1, hasData, longer);
            last.queued == s.queued && last.log == s.log + [Delivery(s.ticket[0], SoundOff(0), s.cycle)]
  {
    hide CmdStep, RtStep, OnePlace, Scans;
    var s := Run(1, hasData, ticks);
    PoolParts(s);
    longer := ticks;
    for k := 0 to 3
      invariant Run(1, hasData, longer) == s.(rt := CopyBytes(1, 0, 3, SoundOff(0)[..k]))
    {
      CopyOne(Run(1, hasData, longer), r.choice);
      longer := Continue(hasData, longer, r);
      assert SoundOff(0)[..k + 1] == SoundOff(0)[..k] + [SoundOff(0)[k]];
    }
    assert SoundOff(0)[..3] == SoundOff(0);
    RtKeepsHistory(Run(1, hasData, longer), r.choice);
    longer := Continue(hasData, longer, r);
  }

  lemma CopyOne(s: State, c: RtChoice)
    requires Shape(s) && s.rt.CopyBytes? && |s.rt.copied| < s.rt.len && |s.rt.copied| < 3
    ensures RtStep(s, c) == s.(rt := s.rt.(copied := s.rt.copied + [s.supply[s.rt.m][|s.rt.copied| + 1]]))
  {
  }

  lemma DrainSteps(s: State, c: RtChoice)
    requires Shape(s) && s.rt == DrainTest(0) && s.process == [Some(0)] && s.supply == [Packed(0)]
    ensures var loading, clearing, copying := s.(rt := DrainLoad(0)), s.(rt := DrainClear(0, 0)), s.(process := [None], rt := CopyLength(1, 0));
            Shape(loading) && Shape(clearing) && Shape(copying) &&
            RtStep(s, c) == loading && RtStep(loading, c) == clearing && RtStep(clearing, c) == copying &&
            RtStep(copying, c) == copying.(rt := CopyBytes(1, 0, 3, []))
  {
    hide Hear, CmdShape;
    assert s.process[0 := None] == [None] && s.supply[0][0] == 3;
  }

  /** The drain takes message 0 out of its slot. */
  lemma TakeMessage(hasData: seq<bool>, ticks: seq<Tick>, r: Tick) returns (longer: seq<Tick>)
    requires |hasData| == CHANNELS && r.RtTick?
    requires var s := Run(1, hasData, ticks); s.rt == DrainTest(0) && s.process == [Some(0)] && s.supply == [Packed(0)]
    ensures Run(1, hasData, longer) == Run(1, hasData, ticks).(process := [None], rt := CopyBytes(1, 0, 3, []))
  {
    hide CmdStep, RtStep, PoolSafe, Shape, Packed;
    PoolParts(Run(1, hasData, ticks));
    DrainSteps(Run(1, hasData, ticks), r.choice);
    longer := Continue(hasData, ticks, r);
    longer := Continue(hasData, longer, r);
    longer := Continue(hasData, longer, r);
    longer := Continue(hasData, longer, r);
  }

  /** A message may go out in the very cycle in which it is queued. */
  lemma SameCycleRun(hasData: seq<bool>) returns (ticks: seq<Tick>)
    requires |hasData| == CHANNELS
    ensures var s := Run(1, hasData, ticks); |s.log| == |s.queued| == 1 && s.log[0] == Delivery(0, SoundOff(0), 1) && s.queued[0].cycle == 1
  {
    hide Hear, CmdStep, OnePlace, Scans;
    var c, r := CmdTick(Mute(1)), RtTick(EndCycle);
    ticks := MuteUpToStore(hasData);
    ticks := Continue(hasData, ticks, r);
    ticks := StoreInDrain(hasData, ticks, c);
    ticks := TakeMessage(hasData, ticks, r);
    ticks := CopyMessage(hasData, ticks, r);
  }

  lemma StoreInDrain(hasData: seq<bool>, ticks: seq<Tick>, c: Tick) returns (longer: seq<Tick>)
    requires |hasData| == CHANNELS && c.CmdTick?
    requires var s := Run(1, hasData, ticks);
             s.cmd == QueueStore(0, 0, [0], ForMute) && s.process == [None] && s.ticket == [0] && s.queued == []
    ensures var s := Run(1, hasData, ticks);
            Run(1, hasData, longer) ==
            s.(process := [Some(0)], cmd := CmdIdle, queued := [Queued(SoundOff(0), 0, ForMute, s.cycle)])
  {
    longer := Continue(hasData, ticks, c);
  }
}
