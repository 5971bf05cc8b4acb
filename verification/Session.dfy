/** A whole session: cycles with any transport state and position, and commands typed between them. */
module Session {
  import opened Common
  import opened Elements
  import opened Timeline
  import opened Score
  import opened ControlPool
  import opened Engine
  import opened Commands
  import opened Runs
  import opened Protocol

  /** What happens next: an audio cycle, or a command. */
  datatype Input = Audio(state: TransportState, pos: nat, nframes: nat) | Typed(command: Command)

  function FiltersAfter(f: Filters, inputs: seq<Input>): (r: Filters)
    requires |f.muted| == CHANNELS
    ensures |r.muted| == CHANNELS
  {
    if inputs == [] then f else
    var before, last := FiltersAfter(f, inputs[..|inputs| - 1]), inputs[|inputs| - 1];
    if last.Typed? then Effect(before, last.command) else before
  }

  /** The channels whose all-sound-off a command queues when `free` messages can be reserved. */
  function Queues(c: Command, hasData: seq<bool>, free: nat): (r: seq<ChannelIndex>)
    requires |hasData| == CHANNELS
    ensures |r| <= free
  {
    var targets := Targets(hasData, c);
    targets[..Min(|targets|, free)]
  }

  lemma QueuesOfMute(mc: int, hasData: seq<bool>, free: nat)
    requires |hasData| == CHANNELS
    ensures Queues(Mute(mc), hasData, free) == if 1 <= mc <= 16 && free > 0 then [mc - 1] else []
  {
  }

  /** The channels whose all-sound-offs have been queued since the last cycle, from a pool of `size` messages. */
  function QueuedSince(inputs: seq<Input>, hasData: seq<bool>, size: nat): (r: seq<ChannelIndex>)
    requires |hasData| == CHANNELS
    ensures |r| <= size
  {
    if inputs == [] || inputs[|inputs| - 1].Audio? then [] else
    var before := QueuedSince(inputs[..|inputs| - 1], hasData, size);
    before + Queues(inputs[|inputs| - 1].command, hasData, size - |before|)
  }

  /** What a session starts from: the filters, the channels with data, and the number of messages in the pool. */
  datatype Setup = Setup(filters: Filters, hasData: seq<bool>, size: nat)

  ghost predicate IsSetup(setup: Setup) {
    |setup.filters.muted| == |setup.hasData| == CHANNELS
  }

  /** The cycles of a session: its audio inputs in order, each with the filters left by the commands before it and with
      the all-sound-offs queued since the cycle before, in some order. */
  ghost predicate Follows(cycles: seq<Cycle>, inputs: seq<Input>, setup: Setup)
    requires IsSetup(setup)
  {
    if inputs == [] then cycles == [] else
    var front, last := inputs[..|inputs| - 1], inputs[|inputs| - 1];
    if last.Typed? then Follows(cycles, front, setup) else
    cycles != [] && Follows(cycles[..|cycles| - 1], front, setup) &&
    var c := cycles[|cycles| - 1];
    c.state == last.state && c.pos == last.pos && c.nframes == last.nframes &&
    c.filters == FiltersAfter(setup.filters, front) &&
    multiset(c.queued) == multiset(OffMessages(QueuedSince(front, setup.hasData, setup.size)))
  }

  ghost predicate Outputs(outputs: seq<seq<Emit>>, stream: seq<Placed>, cycles: seq<Cycle>) {
    |outputs| == |cycles| &&
    forall i :: 0 <= i < |cycles| ==> outputs[i] == OutputOf(stream, Remembered(cycles[..i]), cycles[i])
  }

  // ----- what is queued

  lemma {:induction false} OffMessagesOnly(channels: seq<ChannelIndex>)
    ensures OnlySoundOffs(OffMessages(channels))
  {
    if channels != [] {
      OffMessagesOnly(channels[..|channels| - 1]);
    }
  }

  lemma SameSoundOffs(messages: seq<Bytes>, channels: seq<ChannelIndex>)
    requires multiset(messages) == multiset(OffMessages(channels))
    ensures OnlySoundOffs(messages)
  {
    hide IsSoundOff;
    OffMessagesOnly(channels);
    forall i | 0 <= i < |messages| ensures IsSoundOff(messages[i]) {
      assert messages[i] in multiset(messages);
      assert messages[i] in OffMessages(channels);
    }
  }

  lemma MoreQueued(before: seq<Bytes>, after: seq<Bytes>, channels: seq<ChannelIndex>, more: seq<ChannelIndex>)
    requires multiset(before) == multiset(OffMessages(channels)) && WaitingGrew(before, after, OffMessages(more))
    ensures multiset(after) == multiset(OffMessages(channels + more))
  {
    hide OffMessages;
    OffMessagesConcat(channels, more);
    forall d: Bytes ensures multiset(after)[d] == multiset(OffMessages(channels + more))[d] {
      assert Count(after, d) == Count(before, d) + Count(OffMessages(more), d);
      CountAppend(OffMessages(channels), OffMessages(more), d);
    }
  }

  // ----- the pool between cycles

  /** The messages queued are the all-sound-offs of some channels, and all others can be reserved. */
  ghost predicate Holding(player: Player, channels: seq<ChannelIndex>)
    reads player, player.pool, player.pool.available, player.pool.process, player.pool.supply
  {
    player.pool.Valid(None, None) && Reservable(player.pool.available[..]) + |channels| == player.pool.supply.Length &&
    multiset(player.Queued()) == multiset(OffMessages(channels))
  }

  lemma {:induction false} AllReservable(available: seq<Slot>)
    requires forall i :: 0 <= i < |available| ==> available[i].Some?
    ensures Reservable(available) == |available|
  {
    if available != [] {
      AllReservable(available[..|available| - 1]);
    }
  }

  lemma AllAvailable(available: seq<Slot>, process: seq<Slot>)
    requires OnePlace(available, process, None, None)
    requires forall i :: 0 <= i < |process| ==> process[i] == None
    ensures Reservable(available) == |available|
  {
    hide Reservable, InSupply;
    forall m: nat | m < |available| ensures Copies(available, m) > 0 {
      assert Some(m) !in process;
      assert Some(m) !in multiset(process);
    }
    AllInArray(available);
    AllReservable(available);
  }

  lemma HoldsNothing(player: Player)
    requires player.pool.Valid(None, None)
    requires forall i :: 0 <= i < player.pool.process.Length ==> player.pool.process[i] == None
    ensures Holding(player, [])
  {
    hide Reservable, Waiting, OnePlace, OffMessages;
    AllAvailable(player.pool.available[..], player.pool.process[..]);
    NothingWaiting(player.pool.process[..], player.pool.supply[..]);
    OneOffMessage(0);
  }

  // ----- one input

  /** The mute command between two cycles. */
  method RunMute(player: Player, mc: int, ghost channels: seq<ChannelIndex>)
    requires player.Valid() && Holding(player, channels)
    modifies player.root.muted, player.root`soloChannel, player.pool.available, player.pool.process, player.pool.supply
    ensures player.Valid() && player.root.Filters() == Effect(old(player.root.Filters()), Mute(mc))
    ensures player.root.hasData[..] == old(player.root.hasData[..])
    ensures |channels| <= player.pool.supply.Length
    ensures Holding(player, channels + Queues(Mute(mc), player.root.hasData[..], player.pool.supply.Length - |channels|))
  {
    hide MidiRoot.RecordsValid, MidiRoot.HasEntryPoints, MidiRoot.Chained, OnePlace, Waiting, Reservable, WaitingGrew, Silenced,
         OffMessages, SoundOff;
    ghost var before, data := player.Queued(), player.root.hasData[..];
    ghost var more := Queues(Mute(mc), data, player.pool.supply.Length - |channels|);
    OneOffMessage(0);
    ComMute(player.root, player.pool, mc);
    QueuesOfMute(mc, data, player.pool.supply.Length - |channels|);
    if more != [] {
      OneOffMessage(mc - 1);
    }
    MoreQueued(before, player.Queued(), channels, more);
  }

  /** The solo command between two cycles. */
  method RunSolo(player: Player, sc: int, ghost channels: seq<ChannelIndex>)
    requires player.Valid() && Holding(player, channels)
    modifies player.root.muted, player.root`soloChannel, player.pool.available, player.pool.process, player.pool.supply
    ensures player.Valid() && player.root.Filters() == Effect(old(player.root.Filters()), Solo(sc))
    ensures player.root.hasData[..] == old(player.root.hasData[..])
    ensures |channels| <= player.pool.supply.Length
    ensures Holding(player, channels + Queues(Solo(sc), player.root.hasData[..], player.pool.supply.Length - |channels|))
  {
    hide MidiRoot.RecordsValid, MidiRoot.HasEntryPoints, MidiRoot.Chained, OnePlace, Waiting, Reservable, WaitingGrew, Silenced,
         OffMessages, SoundOff;
    ghost var before, data := player.Queued(), player.root.hasData[..];
    ghost var more := Queues(Solo(sc), data, player.pool.supply.Length - |channels|);
    OneOffMessage(0);
    ComSolo(player.root, player.pool, sc);
    MoreQueued(before, player.Queued(), channels, more);
  }

  /** A command run between two cycles. */
  method RunCommand(player: Player, c: Command, ghost channels: seq<ChannelIndex>)
    requires player.Valid() && Holding(player, channels)
    modifies player.root.muted, player.root`soloChannel, player.pool.available, player.pool.process, player.pool.supply
    ensures player.Valid() && player.root.Filters() == Effect(old(player.root.Filters()), c)
    ensures player.root.hasData[..] == old(player.root.hasData[..])
    ensures |channels| <= player.pool.supply.Length
    ensures Holding(player, channels + Queues(c, player.root.hasData[..], player.pool.supply.Length - |channels|))
  {
    hide MidiRoot.RecordsValid, MidiRoot.HasEntryPoints, MidiRoot.Chained, OnePlace, Waiting, Reservable, Silenced, OffMessages;
    match c
    case Mute(mc) =>
      RunMute(player, mc, channels);
    case Unmute(mc) =>
      ComUnmute(player.root, mc);
      assert channels + [] == channels;
    case Solo(sc) =>
      RunSolo(player, sc, channels);
  }

  method RunCycle(player: Player, state: TransportState, pos: Word, nframes: nat) returns (sent: seq<Emit>)
    requires player.Valid() && pos + nframes < TWO_32
    modifies player, player.pool`processIndex, player.pool.available, player.pool.process
    ensures player.Valid() && player.prevState == state && Holding(player, [])
    ensures sent == OutputOf(player.root.stream, old(player.prevState), Cycle(state, pos, nframes, old(player.Queued()), player.root.Filters()))
  {
    hide MidiRoot.Loaded, Player.Queued, Holding;
    sent := player.Process(state, pos, nframes);
    HoldsNothing(player);
  }

  lemma NextCycle(outputs: seq<seq<Emit>>, stream: seq<Placed>, cycles: seq<Cycle>, c: Cycle, sent: seq<Emit>)
    requires Outputs(outputs, stream, cycles) && sent == OutputOf(stream, Remembered(cycles), c)
    ensures Outputs(outputs + [sent], stream, cycles + [c])
    ensures Remembered(cycles + [c]) == c.state
  {
    hide OutputOf;
    var all := cycles + [c];
    assert all[..|cycles|] == cycles;
    assert forall i :: 0 <= i < |cycles| ==> all[..i] == cycles[..i];
  }

  // ----- every session

  ghost function SetupOf(player: Player): Setup
    reads player, player.root, player.root.muted, player.root.hasData, player.pool
  {
    Setup(player.root.Filters(), player.root.hasData[..], player.pool.supply.Length)
  }

  /** What is known of a session after some inputs. */
  ghost predicate SoFar(setup: Setup, inputs: seq<Input>, cycles: seq<Cycle>, filters: Filters, channels: seq<ChannelIndex>) {
    IsSetup(setup) && Follows(cycles, inputs, setup) && (forall i :: 0 <= i < |cycles| ==> OnlySoundOffs(cycles[i].queued)) &&
    filters == FiltersAfter(setup.filters, inputs) && channels == QueuedSince(inputs, setup.hasData, setup.size)
  }

  lemma NothingSoFar(setup: Setup, stream: seq<Placed>)
    requires IsSetup(setup)
    ensures SoFar(setup, [], [], setup.filters, []) && Outputs([], stream, []) && Remembered([]) == Stopped
  {
  }

  lemma TypedNext(setup: Setup, inputs: seq<Input>, cycles: seq<Cycle>, filters: Filters, channels: seq<ChannelIndex>, c: Command)
    requires SoFar(setup, inputs, cycles, filters, channels)
    ensures |filters.muted| == |setup.hasData| == CHANNELS && |channels| <= setup.size
    ensures SoFar(setup, inputs + [Typed(c)], cycles, Effect(filters, c), channels + Queues(c, setup.hasData, setup.size - |channels|))
  {
    hide OnlySoundOffs, Effect, Queues;
    assert (inputs + [Typed(c)])[..|inputs|] == inputs;
  }

  lemma AudioNext(setup: Setup, inputs: seq<Input>, cycles: seq<Cycle>, filters: Filters, channels: seq<ChannelIndex>, c: Cycle)
    requires SoFar(setup, inputs, cycles, filters, channels) && c.filters == filters
    requires multiset(c.queued) == multiset(OffMessages(channels)) && OnlySoundOffs(c.queued)
    ensures SoFar(setup, inputs + [Audio(c.state, c.pos, c.nframes)], cycles + [c], filters, [])
  {
    hide OnlySoundOffs, OffMessages;
    assert (inputs + [Audio(c.state, c.pos, c.nframes)])[..|inputs|] == inputs;
    assert (cycles + [c])[..|cycles|] == cycles;
  }

  lemma SoFarParts(setup: Setup, inputs: seq<Input>, cycles: seq<Cycle>, filters: Filters, channels: seq<ChannelIndex>)
    requires SoFar(setup, inputs, cycles, filters, channels)
    ensures IsSetup(setup) && Follows(cycles, inputs, setup) && forall i :: 0 <= i < |cycles| ==> OnlySoundOffs(cycles[i].queued)
  {
  }

  /** Run any mixture of cycles and commands on a loaded song. Whatever came before, each cycle sends exactly what
      its own transport position, the filters, and the all-sound-offs queued since the last cycle call for; and no note
      sounds after any cycle that was not rolling exactly when Rolling is always left silently. */
  method RunSession(player: Player, inputs: seq<Input>) returns (outputs: seq<seq<Emit>>, ghost cycles: seq<Cycle>)
    requires player.Valid() && player.prevState == Stopped && Holding(player, [])
    requires forall i :: 0 <= i < |inputs| && inputs[i].Audio? ==> inputs[i].pos + inputs[i].nframes < TWO_32
    modifies player, player.root.muted, player.root`soloChannel
    modifies player.pool`processIndex, player.pool.available, player.pool.process, player.pool.supply
    ensures player.Valid() && player.root.stream == old(player.root.stream)
    ensures IsSetup(old(SetupOf(player))) && Follows(cycles, inputs, old(SetupOf(player)))
    ensures Outputs(outputs, player.root.stream, cycles)
    ensures AlwaysSilent(player.root.stream, cycles) <==> LeavesSilently(player.root.stream, cycles)
  {
    hide Player.Valid, MidiRoot.Filters, Holding, Outputs, OutputOf, Effect, OffMessages, Queues, OnlySoundOffs, AlwaysSilent, LeavesSilently,
         SoFar, Follows, Remembered, Player.Queued;
    outputs, cycles := [], [];
    SetupIsSetup(player);
    ghost var stream, setup, channels: seq<ChannelIndex> := player.root.stream, SetupOf(player), [];
    NothingSoFar(setup, stream);
    var n := 0;
    ghost var done: seq<Input> := [];
    while n < |inputs|
      invariant n <= |inputs| && done == inputs[..n]
      invariant player.Valid() && player.root.stream == stream
      invariant player.root.hasData[..] == setup.hasData && player.pool.supply.Length == setup.size
      invariant Holding(player, channels) && SoFar(setup, done, cycles, player.root.Filters(), channels)
      invariant player.prevState == Remembered(cycles) && Outputs(outputs, stream, cycles)
    {
      assert inputs[..n + 1] == done + [inputs[n]];
      if inputs[n].Typed? {
        TypedNext(setup, done, cycles, player.root.Filters(), channels, inputs[n].command);
        RunCommand(player, inputs[n].command, channels);
        channels := channels + Queues(inputs[n].command, setup.hasData, setup.size - |channels|);
      } else {
        HeldSoundOffs(player, channels);
        ghost var c := Cycle(inputs[n].state, inputs[n].pos, inputs[n].nframes, player.Queued(), player.root.Filters());
        AudioNext(setup, done, cycles, player.root.Filters(), channels, c);
        var sent := RunCycle(player, inputs[n].state, inputs[n].pos, inputs[n].nframes);
        NextCycle(outputs, stream, cycles, c, sent);
        outputs, cycles, channels := outputs + [sent], cycles + [c], [];
      }
      done := done + [inputs[n]];
      n := n + 1;
    }
    assert inputs[..n] == inputs;
    SoFarParts(setup, done, cycles, player.root.Filters(), channels);
    SilentExactly(stream, cycles);
  }

  lemma SetupIsSetup(player: Player)
    requires player.Valid()
    ensures IsSetup(SetupOf(player))
  {
    LoadedSizes(player.root);
  }

  lemma HeldSoundOffs(player: Player, channels: seq<ChannelIndex>)
    requires Holding(player, channels)
    ensures player.pool.Valid(None, None) && multiset(player.Queued()) == multiset(OffMessages(channels)) && OnlySoundOffs(player.Queued())
  {
    SameSoundOffs(player.Queued(), channels);
  }
}
