/** The control-message pool under two threads: every load and store of a shared location is one step.
    The command thread runs commands.c against the pool; the process thread runs jackclient.c's callback.
    Steps interleave in any order under sequential consistency. */
module Protocol {
  import opened Common
  import opened Elements
  import opened Timeline
  import opened ControlPool
  import opened Engine
  import opened Commands
  import opened Runs

  // ----- the two threads

  /** A command typed by the user; the argument has been parsed but not checked. */
  datatype Command = Mute(arg: int) | Unmute(arg: int) | Solo(arg: int)

  /** Why an all-sound-off message is sent: its channel was muted, or another channel went solo, or neither took effect. */
  datatype Purpose = ForMute | ForSolo | NoEffect

  /** A command's effect on the filters; channel 16 is refused. */
  function Effect(f: Filters, c: Command): Filters
    requires |f.muted| == CHANNELS
  {
    match c
    case Mute(mc) => if 1 <= mc <= 15 then f.(muted := f.muted[mc - 1 := true]) else f
    case Unmute(mc) => if 1 <= mc <= 15 then f.(muted := f.muted[mc - 1 := false]) else f
    case Solo(sc) => if 0 <= sc <= 15 then f.(solo := sc - 1) else f
  }

  /** The channels a command silences, in order. */
  function Targets(hasData: seq<bool>, c: Command): seq<ChannelIndex>
    requires |hasData| == CHANNELS
  {
    match c
    case Mute(mc) => if 1 <= mc <= 16 then [mc - 1] else []
    case Unmute(_) => []
    case Solo(sc) => if 1 <= sc <= 16 then Silenced(hasData, sc - 1, CHANNELS) else []
  }

  /** The command thread. `todo` lists the channels still to be silenced; its first one is being worked on. */
  datatype CmdPc =
    | CmdIdle
    | ReserveTest(i: nat, todo: seq<ChannelIndex>, purpose: Purpose)
    | ReserveLoad(i: nat, todo: seq<ChannelIndex>, purpose: Purpose)
    | ReserveClear(i: nat, m: nat, todo: seq<ChannelIndex>, purpose: Purpose)
    | Fill(k: nat, m: nat, todo: seq<ChannelIndex>, purpose: Purpose)
    | QueueTest(i: nat, m: nat, todo: seq<ChannelIndex>, purpose: Purpose)
    | QueueStore(i: nat, m: nat, todo: seq<ChannelIndex>, purpose: Purpose)

  /** The process thread. `index` is cm_process_index. */
  datatype RtPc =
    | RtIdle
    | DrainTest(index: nat)
    | DrainLoad(index: nat)
    | DrainClear(index: nat, m: nat)
    | CopyLength(index: nat, m: nat)
    | CopyBytes(index: nat, m: nat, len: nat, copied: Bytes)
    | ReturnTest(i: nat, index: nat, m: nat)
    | ReturnStore(i: nat, index: nat, m: nat)
    | Playing
    | LoadSolo(event: MidiData)
    | LoadSoloAgain(event: MidiData)
    | LoadMuted(event: MidiData)
    | SendEvent(event: MidiData)

  /** One scheduling decision: which thread moves, and what it does next if that is open. */
  datatype Tick = CmdTick(command: Command) | RtTick(choice: RtChoice)
  datatype RtChoice = PlayEvent(event: MidiData) | StopAll | EndCycle

  /** History: a queued message and a delivered one. */
  datatype Queued = Queued(bytes: Bytes, channel: ChannelIndex, purpose: Purpose, cycle: nat)
  datatype Delivery = Delivery(ticket: nat, bytes: Bytes, cycle: nat)

  /** Shared memory, the threads' program counters, and the history that the properties speak about.
      A message of the supply is four bytes: its length and its data. */
  datatype State = State(
    available: seq<Slot>, process: seq<Slot>, supply: seq<Bytes>,
    solo: int, muted: seq<bool>, hasData: seq<bool>,
    cmd: CmdPc, rt: RtPc,
    cycle: nat, queued: seq<Queued>, ticket: seq<nat>, log: seq<Delivery>,
    unmutedAt: seq<nat>, soloOpenedAt: seq<nat>, voices: Voices)

  function Initial(n: nat, hasData: seq<bool>): State {
    State(seq(n, i => if i < 0 then None else Some(i)), seq(n, i => None), seq(n, i => [0, 0, 0, 0]),
          -1, seq(CHANNELS, i => false), hasData,
          CmdIdle, RtIdle,
          0, [], seq(n, i => 0), [],
          seq(CHANNELS, i => 0), seq(CHANNELS, i => 0), {})
  }

  /** The bytes of an all-sound-off message as the command thread lays them out: the length, then the data. */
  function Packed(channel: ChannelIndex): Bytes {
    [3, 0xB0 + channel, 120, 0]
  }

  // ----- steps of the command thread

  function Silence(todo: seq<ChannelIndex>, purpose: Purpose): CmdPc {
    if todo == [] then CmdIdle else ReserveTest(0, todo, purpose)
  }

  /** The first step of a command: check the argument and store the flag. */
  ghost function Begin(s: State, c: Command): State
    requires |s.muted| == |s.hasData| == |s.unmutedAt| == |s.soloOpenedAt| == CHANNELS
  {
    match c
    case Mute(mc) =>
      if mc < 1 || mc > 16 then s
      else if mc == 16 then s.(cmd := Silence([mc - 1], NoEffect))
      else s.(muted := s.muted[mc - 1 := true], cmd := Silence([mc - 1], ForMute))
    case Unmute(mc) =>
      if mc < 1 || mc > 15 then s
      else s.(muted := s.muted[mc - 1 := false], unmutedAt := s.unmutedAt[mc - 1 := |s.queued|])
    case Solo(sc) =>
      if sc < 0 || sc > 16 then s
      else if sc == 0 then s.(solo := -1, soloOpenedAt := seq(CHANNELS, i => |s.queued|))
      else if sc == 16 then s.(cmd := Silence(Silenced(s.hasData, sc - 1, CHANNELS), NoEffect))
      else s.(solo := sc - 1, soloOpenedAt := s.soloOpenedAt[sc - 1 := |s.queued|],
              cmd := Silence(Silenced(s.hasData, sc - 1, CHANNELS), ForSolo))
  }

  ghost function CmdStep(s: State, c: Command): State
    requires Shape(s)
  {
    match s.cmd
    case CmdIdle => Begin(s, c)
    case ReserveTest(i, todo, p) =>
      if i == |s.available| then s.(cmd := CmdIdle)
      else s.(cmd := if s.available[i] != None then ReserveLoad(i, todo, p) else ReserveTest(i + 1, todo, p))
    case ReserveLoad(i, todo, p) =>
      (match s.available[i]
       case None => s.(cmd := CmdIdle)
       case Some(m) => s.(cmd := ReserveClear(i, m, todo, p)))
    case ReserveClear(i, m, todo, p) =>
      s.(available := s.available[i := None], cmd := Fill(0, m, todo, p))
    case Fill(k, m, todo, p) =>
      s.(supply := s.supply[m := s.supply[m][k := Packed(todo[0])[k]]],
         cmd := if k < 3 then Fill(k + 1, m, todo, p) else QueueTest(0, m, todo, p))
    case QueueTest(i, m, todo, p) =>
      if i == |s.process| then s.(cmd := Silence(todo[1..], p))
      else s.(cmd := if s.process[i] == None then QueueStore(i, m, todo, p) else QueueTest(i + 1, m, todo, p))
    case QueueStore(i, m, todo, p) =>
      s.(process := s.process[i := Some(m)], cmd := Silence(todo[1..], p),
         queued := s.queued + [Queued(SoundOff(todo[0]), todo[0], p, s.cycle)], ticket := s.ticket[m := |s.queued|])
  }

  // ----- steps of the process thread

  ghost function RtStep(s: State, c: RtChoice): State
    requires Shape(s)
  {
    match s.rt
    case RtIdle => s.(rt := DrainTest(0), cycle := s.cycle + 1)
    case DrainTest(index) =>
      if index == |s.process| then s.(rt := Playing)
      else s.(rt := if s.process[index] != None then DrainLoad(index) else DrainTest(index + 1))
    case DrainLoad(index) =>
      (match s.process[index]
       case None => s.(rt := DrainTest(index + 1))
       case Some(m) => s.(rt := DrainClear(index, m)))
    case DrainClear(index, m) =>
      s.(process := s.process[index := None], rt := CopyLength(index + 1, m))
    case CopyLength(index, m) =>
      s.(rt := CopyBytes(index, m, s.supply[m][0], []))
    case CopyBytes(index, m, len, copied) =>
      if |copied| < len && |copied| < 3 then s.(rt := CopyBytes(index, m, len, copied + [s.supply[m][|copied| + 1]]))
      else s.(rt := ReturnTest(0, index, m), voices := Hear(s.voices, copied),
              log := s.log + [Delivery(s.ticket[m], copied, s.cycle)])
    case ReturnTest(i, index, m) =>
      if i == |s.available| then s.(rt := DrainTest(index))
      else s.(rt := if s.available[i] == None then ReturnStore(i, index, m) else ReturnTest(i + 1, index, m))
    case ReturnStore(i, index, m) =>
      s.(available := s.available[i := Some(m)], rt := DrainTest(index))
    case Playing =>
      (match c
       case PlayEvent(event) => s.(rt := if IsSysex(event) then SendEvent(event) else LoadSolo(event))
       case StopAll => s.(voices := {})
       case EndCycle => s.(rt := RtIdle))
    case LoadSolo(event) =>
      s.(rt := if s.solo != -1 then LoadSoloAgain(event) else LoadMuted(event))
    case LoadSoloAgain(event) =>
      s.(rt := if Channel(event) != s.solo then Playing else LoadMuted(event))
    case LoadMuted(event) =>
      s.(rt := if s.muted[Channel(event)] || IsDrumNoteOff(event) then Playing else SendEvent(event))
    case SendEvent(event) =>
      s.(rt := Playing, voices := Hear(s.voices, event))
  }

  ghost function Next(s: State, t: Tick): State
    requires Shape(s)
  {
    match t
    case CmdTick(c) => CmdStep(s, c)
    case RtTick(c) => RtStep(s, c)
  }

  // ----- the shape of a state

  predicate CmdShape(pc: CmdPc, n: nat) {
    match pc
    case CmdIdle => true
    case ReserveTest(i, todo, _) => i <= n && todo != []
    case ReserveLoad(i, todo, _) => i < n && todo != []
    case ReserveClear(i, m, todo, _) => i < n && m < n && todo != []
    case Fill(k, m, todo, _) => k < 4 && m < n && todo != []
    case QueueTest(i, m, todo, _) => i <= n && m < n && todo != []
    case QueueStore(i, m, todo, _) => i < n && m < n && todo != []
  }

  predicate RtShape(pc: RtPc, n: nat) {
    match pc
    case RtIdle => true
    case DrainTest(index) => index <= n
    case DrainLoad(index) => index < n
    case DrainClear(index, m) => index < n && m < n
    case CopyLength(index, m) => index <= n && m < n
    case CopyBytes(index, m, _, copied) => index <= n && m < n && |copied| <= 3
    case ReturnTest(i, index, m) => i <= n && index <= n && m < n
    case ReturnStore(i, index, m) => i < n && index <= n && m < n
    case _ => true
  }

  predicate Shape(s: State) {
    var n := |s.available|;
    n > 0 && |s.process| == |s.supply| == |s.ticket| == n &&
    |s.muted| == |s.hasData| == |s.unmutedAt| == |s.soloOpenedAt| == CHANNELS &&
    (forall m :: 0 <= m < n ==> |s.supply[m]| == 4) && CmdShape(s.cmd, n) && RtShape(s.rt, n)
  }

  // ----- safety of the pool

  /** The message the command thread holds. */
  ghost function CmdHolds(pc: CmdPc): Slot {
    if pc.Fill? || pc.QueueTest? || pc.QueueStore? then Some(pc.m) else None
  }

  /** The message the process thread holds. */
  ghost function RtHolds(pc: RtPc): Slot {
    if pc.CopyLength? || pc.CopyBytes? || pc.ReturnTest? || pc.ReturnStore? then Some(pc.m) else None
  }

  /** What a thread saw is still so when it acts on it, and a scan for an empty slot has one still ahead of it. */
  ghost predicate Scans(s: State)
    requires Shape(s)
  {
    (match s.cmd
     case ReserveLoad(i, _, _) => s.available[i].Some?
     case ReserveClear(i, m, _, _) => s.available[i] == Some(m)
     case QueueTest(i, _, _, _) => EmptyFrom(s.process, i)
     case QueueStore(i, _, _, _) => s.process[i] == None
     case _ => true) &&
    (match s.rt
     case DrainLoad(index) => s.process[index].Some?
     case DrainClear(index, m) => s.process[index] == Some(m)
     case ReturnTest(i, _, _) => EmptyFrom(s.available, i)
     case ReturnStore(i, _, _) => s.available[i] == None
     case _ => true)
  }

  ghost predicate EmptyFrom(slots: seq<Slot>, i: nat) {
    exists k :: i <= k < |slots| && slots[k] == None
  }

  /** Every message is in exactly one place, and every scan finds what it looks for. */
  ghost predicate PoolSafe(s: State) {
    Shape(s) && OnePlace(s.available, s.process, CmdHolds(s.cmd), RtHolds(s.rt)) && Scans(s)
  }

  lemma RoomLeft(slots: seq<Slot>, other: seq<Slot>, cmd: Slot, rt: Slot, m: nat)
    requires OnePlace(slots, other, cmd, rt) && m < |slots| && (cmd == Some(m) || rt == Some(m))
    ensures EmptyFrom(slots, 0)
  {
    var free := RoomInArray(slots, other, cmd, rt, m);
  }

  lemma CmdKeepsShape(s: State, c: Command)
    requires PoolSafe(s)
    ensures Shape(CmdStep(s, c))
  {
    hide EmptyFrom, Silenced, Copies, SoundOff, Packed, Hear, RtShape;
  }

  lemma RtKeepsShape(s: State, c: RtChoice)
    requires PoolSafe(s)
    ensures Shape(RtStep(s, c))
  {
    hide EmptyFrom, Hear, Copies, IsDrumNoteOff, IsSysex, Channel, CmdShape;
  }

  lemma CmdKeepsOnePlace(s: State, c: Command)
    requires PoolSafe(s)
    ensures var s' := CmdStep(s, c); OnePlace(s'.available, s'.process, CmdHolds(s'.cmd), RtHolds(s'.rt))
  {
    hide OnePlace, Silenced, SoundOff, Packed;
    if s.cmd.ReserveClear? {
      TakeKeepsOnePlace(s.available, s.process, RtHolds(s.rt), s.cmd.i, s.cmd.m);
    } else if s.cmd.QueueStore? {
      EitherSide(s.available, s.process, CmdHolds(s.cmd), RtHolds(s.rt));
      PutKeepsOnePlace(s.process, s.available, RtHolds(s.rt), s.cmd.i, s.cmd.m);
      EitherSide(s.process[s.cmd.i := Some(s.cmd.m)], s.available, None, RtHolds(s.rt));
    }
  }

  lemma RtKeepsOnePlace(s: State, c: RtChoice)
    requires PoolSafe(s)
    ensures var s' := RtStep(s, c); OnePlace(s'.available, s'.process, CmdHolds(s'.cmd), RtHolds(s'.rt))
  {
    hide OnePlace, Hear;
    EitherSide(s.available, s.process, CmdHolds(s.cmd), RtHolds(s.rt));
    if s.rt.DrainClear? {
      TakeKeepsOnePlace(s.process, s.available, CmdHolds(s.cmd), s.rt.index, s.rt.m);
      EitherSide(s.process[s.rt.index := None], s.available, Some(s.rt.m), CmdHolds(s.cmd));
    } else if s.rt.ReturnStore? {
      PutKeepsOnePlace(s.available, s.process, CmdHolds(s.cmd), s.rt.i, s.rt.m);
      EitherSide(s.available[s.rt.i := Some(s.rt.m)], s.process, None, CmdHolds(s.cmd));
    }
  }

  lemma CmdKeepsScans(s: State, c: Command)
    requires PoolSafe(s) && Shape(CmdStep(s, c))
    ensures Scans(CmdStep(s, c))
  {
    hide OnePlace, EmptyFrom, Silenced, SoundOff, Packed;
    if s.cmd.ReserveClear? {
      ClearedSlot(s.available, s.cmd.i);
    } else if s.cmd.Fill? {
      EitherSide(s.available, s.process, CmdHolds(s.cmd), RtHolds(s.rt));
      RoomLeft(s.process, s.available, CmdHolds(s.cmd), RtHolds(s.rt), s.cmd.m);
    } else if s.cmd.QueueTest? {
      ScanMovesOn(s.process, s.cmd.i);
    }
  }

  lemma RtKeepsScans(s: State, c: RtChoice)
    requires PoolSafe(s) && Shape(RtStep(s, c))
    ensures Scans(RtStep(s, c))
  {
    hide OnePlace, EmptyFrom, Hear;
    if s.rt.DrainClear? {
      ClearedSlot(s.process, s.rt.index);
    } else if s.rt.CopyBytes? {
      RoomLeft(s.available, s.process, CmdHolds(s.cmd), RtHolds(s.rt), s.rt.m);
    } else if s.rt.ReturnTest? {
      ScanMovesOn(s.available, s.rt.i);
    }
  }

  /** The other thread's scan for an empty slot is helped, never hurt, by emptying a slot. */
  lemma ClearedSlot(slots: seq<Slot>, i: nat)
    requires i < |slots|
    ensures forall j: nat :: EmptyFrom(slots, j) ==> EmptyFrom(slots[i := None], j)
  {
    forall j: nat | EmptyFrom(slots, j) ensures EmptyFrom(slots[i := None], j) {
      var k :| j <= k < |slots| && slots[k] == None;
      assert slots[i := None][k] == None;
    }
  }

  lemma ScanMovesOn(slots: seq<Slot>, i: nat)
    requires EmptyFrom(slots, i)
    ensures i < |slots| && (slots[i] != None ==> EmptyFrom(slots, i + 1))
  {
  }

  lemma StepKeepsPool(s: State, t: Tick)
    requires PoolSafe(s)
    ensures PoolSafe(Next(s, t))
  {
    hide PoolSafe, CmdStep, RtStep;
    PoolParts(s);
    match t
    case CmdTick(c) =>
      CmdKeepsShape(s, c);
      CmdKeepsOnePlace(s, c);
      CmdKeepsScans(s, c);
      PoolParts(CmdStep(s, c));
    case RtTick(c) =>
      RtKeepsShape(s, c);
      RtKeepsOnePlace(s, c);
      RtKeepsScans(s, c);
      PoolParts(RtStep(s, c));
  }

  lemma PoolParts(s: State)
    ensures PoolSafe(s) <==>
              Shape(s) && OnePlace(s.available, s.process, CmdHolds(s.cmd), RtHolds(s.rt)) && Scans(s)
  {
  }

  lemma InitialPool(n: nat, hasData: seq<bool>)
    requires n > 0 && |hasData| == CHANNELS
    ensures PoolSafe(Initial(n, hasData))
  {
    var s := Initial(n, hasData);
    forall m: nat | m < n ensures Copies(s.available, m) == 1 && Copies(s.process, m) == 0 {
      InitialCopies(s.available, m);
    }
  }

  /** The state after any interleaving. In every one of them the pool is safe: each message is in exactly one
      place, and no thread ever fails to find a slot for a message it holds. */
  ghost function Run(n: nat, hasData: seq<bool>, ticks: seq<Tick>): (s: State)
    requires n > 0 && |hasData| == CHANNELS
    ensures PoolSafe(s)
    ensures |s.available| == n
    decreases |ticks|
  {
    if ticks == [] then
      InitialPool(n, hasData);
      Initial(n, hasData)
    else
      var before := Run(n, hasData, ticks[..|ticks| - 1]);
      StepKeepsPool(before, ticks[|ticks| - 1]);
      Next(before, ticks[|ticks| - 1])
  }

  /** In every run a thread that looks for an empty slot is still going to find one: no held message is dropped. */
  lemma {:induction false} NoScanFails(n: nat, hasData: seq<bool>, ticks: seq<Tick>)
    requires n > 0 && |hasData| == CHANNELS
    ensures var s := Run(n, hasData, ticks);
            (s.cmd.QueueTest? ==> exists k :: s.cmd.i <= k < n && s.process[k] == None) &&
            (s.rt.ReturnTest? ==> exists k :: s.rt.i <= k < n && s.available[k] == None)
  {
    var s := Run(n, hasData, ticks);
    PoolParts(s);
    hide PoolSafe, OnePlace;
    assert s.cmd.QueueTest? ==> EmptyFrom(s.process, s.cmd.i);
    assert s.rt.ReturnTest? ==> EmptyFrom(s.available, s.rt.i);
  }
}
