/** A muted or soloed-away channel stays silent once its all-sound-off has gone out, under every interleaving. */
module SilentChannels {
  import opened Elements
  import opened Timeline
  import opened ControlPool
  import opened Engine
  import opened Commands
  import opened Runs
  import opened Protocol
  import opened ExactlyOnce

  /** Delivery `d` was the all-sound-off of a mute of channel `c` that has not been undone since. */
  ghost predicate MuteDelivered(s: State, d: nat, c: ChannelIndex)
    requires Shape(s)
  {
    d < |s.log| && s.log[d].ticket < |s.queued| &&
    var q := s.queued[s.log[d].ticket];
    q.channel == c && q.purpose == ForMute && s.log[d].ticket >= s.unmutedAt[c]
  }

  /** Delivery `d` was the all-sound-off for channel `c` of a solo, and every solo since has been on another channel. */
  ghost predicate SoloDelivered(s: State, d: nat, c: ChannelIndex)
    requires Shape(s)
  {
    d < |s.log| && s.log[d].ticket < |s.queued| &&
    var q := s.queued[s.log[d].ticket];
    q.channel == c && q.purpose == ForSolo && s.log[d].ticket >= s.soloOpenedAt[c]
  }

  ghost predicate QuietByMute(s: State, c: ChannelIndex)
    requires Shape(s)
  {
    exists d: nat :: MuteDelivered(s, d, c)
  }

  ghost predicate QuietBySolo(s: State, c: ChannelIndex)
    requires Shape(s)
  {
    exists d: nat :: SoloDelivered(s, d, c)
  }

  ghost predicate NoVoice(v: Voices, c: nat) {
    forall p :: p in v ==> p.0 != c
  }

  // ----- the flags back up the messages

  /** A queued message whose command has not been undone has its flag set. */
  ghost predicate Backed(s: State, t: nat)
    requires Shape(s) && t < |s.queued|
  {
    var q := s.queued[t];
    (q.purpose == ForMute && t >= s.unmutedAt[q.channel] ==> s.muted[q.channel]) &&
    (q.purpose == ForSolo && t >= s.soloOpenedAt[q.channel] ==> s.solo != -1 && s.solo != q.channel)
  }

  /** The command in progress has set its flag before it queues anything. */
  ghost predicate FlagFirst(s: State)
    requires Shape(s)
  {
    !s.cmd.CmdIdle? ==>
      (s.cmd.purpose == ForMute ==> forall i :: 0 <= i < |s.cmd.todo| ==> s.muted[s.cmd.todo[i]]) &&
      (s.cmd.purpose == ForSolo ==> s.solo != -1 && forall i :: 0 <= i < |s.cmd.todo| ==> s.cmd.todo[i] != s.solo)
  }

  ghost predicate FlagsBack(s: State)
    requires Shape(s)
  {
    FlagFirst(s) && forall t: nat :: t < |s.queued| ==> Backed(s, t)
  }

  lemma {:induction false} SilencedExcludes(hasData: seq<bool>, solo: int, n: nat)
    requires n <= |hasData| == CHANNELS
    ensures forall k :: 0 <= k < |Silenced(hasData, solo, n)| ==> Silenced(hasData, solo, n)[k] != solo
  {
    if n > 0 {
      SilencedExcludes(hasData, solo, n - 1);
    }
  }

  lemma CmdKeepsFlagFirst(s: State, c: Command)
    requires PoolSafe(s) && Shape(CmdStep(s, c)) && FlagFirst(s)
    ensures FlagFirst(CmdStep(s, c))
  {
    hide OnePlace, Scans, Silenced, SoundOff, Packed;
    if c.Solo? {
      SilencedExcludes(s.hasData, c.arg - 1, CHANNELS);
    }
  }

  lemma CmdKeepsBacked(s: State, c: Command, t: nat)
    requires PoolSafe(s) && Shape(CmdStep(s, c)) && FlagsBack(s) && t < |CmdStep(s, c).queued|
    ensures Backed(CmdStep(s, c), t)
  {
    hide OnePlace, Scans, Silenced, SoundOff, Packed;
    assert t < |s.queued| ==> Backed(s, t);
  }

  // ----- silence

  /** Quiet channels have no voice, and the process thread is past no check that a quiet channel would fail. */
  ghost predicate Quiet(s: State)
    requires Shape(s)
  {
    (forall c: ChannelIndex :: QuietByMute(s, c) || QuietBySolo(s, c) ==> NoVoice(s.voices, c)) &&
    (s.rt.LoadMuted? ==> !QuietBySolo(s, Channel(s.rt.event))) &&
    (s.rt.SendEvent? && !IsSysex(s.rt.event) ==> !QuietBySolo(s, Channel(s.rt.event)) && !QuietByMute(s, Channel(s.rt.event)))
  }

  lemma QuietIsBlocked(s: State, c: ChannelIndex)
    requires Shape(s) && FlagsBack(s)
    ensures QuietByMute(s, c) ==> s.muted[c]
    ensures QuietBySolo(s, c) ==> s.solo != -1 && s.solo != c
  {
    if QuietByMute(s, c) {
      var d: nat :| MuteDelivered(s, d, c);
      assert Backed(s, s.log[d].ticket);
    }
    if QuietBySolo(s, c) {
      var d: nat :| SoloDelivered(s, d, c);
      assert Backed(s, s.log[d].ticket);
    }
  }

  /** Commands never make a channel quiet; only deliveries do. */
  lemma CmdKeepsLoud(s: State, c: Command, ch: ChannelIndex)
    requires Shape(s) && Shape(CmdStep(s, c)) && Faithful(s)
    ensures QuietByMute(CmdStep(s, c), ch) ==> QuietByMute(s, ch)
    ensures QuietBySolo(CmdStep(s, c), ch) ==> QuietBySolo(s, ch)
  {
    hide Silenced, SoundOff, Packed;
    var s' := CmdStep(s, c);
    CmdKeepsHistory(s, c);
    if QuietByMute(s', ch) {
      var d: nat :| MuteDelivered(s', d, ch);
      assert s'.queued[s.log[d].ticket] == s.queued[s.log[d].ticket];
      assert MuteDelivered(s, d, ch);
    }
    if QuietBySolo(s', ch) {
      var d: nat :| SoloDelivered(s', d, ch);
      assert s'.queued[s.log[d].ticket] == s.queued[s.log[d].ticket];
      assert SoloDelivered(s, d, ch);
    }
  }

  lemma CmdKeepsQuiet(s: State, c: Command)
    requires Shape(s) && Shape(CmdStep(s, c)) && Faithful(s) && Quiet(s)
    ensures Quiet(CmdStep(s, c))
  {
    hide QuietByMute, QuietBySolo, Silenced, SoundOff, Packed, NoVoice, Faithful;
    forall ch: ChannelIndex {
      CmdKeepsLoud(s, c, ch);
    }
  }

  /** A delivery makes its own channel quiet and no other. */
  lemma RtQuiet(s: State, c: RtChoice, ch: ChannelIndex)
    requires Shape(s) && Shape(RtStep(s, c))
    requires Finishing(s.rt) ==> s.ticket[s.rt.m] < |s.queued|
    ensures (QuietByMute(RtStep(s, c), ch) ==> QuietByMute(s, ch) || (Finishing(s.rt) && s.queued[s.ticket[s.rt.m]].channel == ch))
    ensures (QuietBySolo(RtStep(s, c), ch) ==> QuietBySolo(s, ch) || (Finishing(s.rt) && s.queued[s.ticket[s.rt.m]].channel == ch))
  {
    var s' := RtStep(s, c);
    RtKeepsHistory(s, c);
    RtKeepsFlags(s, c);
    hide RtStep, Shape;
    if QuietByMute(s', ch) {
      var d: nat :| MuteDelivered(s', d, ch);
      assert d < |s.log| ==> MuteDelivered(s, d, ch);
    }
    if QuietBySolo(s', ch) {
      var d: nat :| SoloDelivered(s', d, ch);
      assert d < |s.log| ==> SoloDelivered(s, d, ch);
    }
  }

  lemma RtKeepsFlags(s: State, c: RtChoice)
    requires Shape(s)
    ensures var s' := RtStep(s, c);
            s'.muted == s.muted && s'.solo == s.solo && s'.unmutedAt == s.unmutedAt && s'.soloOpenedAt == s.soloOpenedAt
  {
    hide Hear;
  }

  /** A channel message touches the voices of its own channel only. */
  lemma HearOther(v: Voices, d: MidiData, c: ChannelIndex)
    requires NoVoice(v, c) && (IsSysex(d) || Channel(d) != c)
    ensures NoVoice(Hear(v, d), c)
  {
  }

  lemma SoundOffLeavesNoVoice(v: Voices, channel: ChannelIndex, c: ChannelIndex)
    requires NoVoice(v, c) || c == channel
    ensures NoVoice(Hear(v, SoundOff(channel)), c)
  {
    assert IsSoundOff(SoundOff(channel)) && SoundOff(channel)[0] % 16 == channel;
  }

  /** The voices of one channel after a step of the process thread. */
  lemma RtKeepsNoVoice(s: State, c: RtChoice, ch: ChannelIndex)
    requires Shape(s) && Contents(s)
    requires NoVoice(s.voices, ch) || (Finishing(s.rt) && s.queued[s.ticket[s.rt.m]].channel == ch)
    requires s.rt.SendEvent? ==> IsSysex(s.rt.event) || Channel(s.rt.event) != ch
    ensures NoVoice(RtStep(s, c).voices, ch)
  {
    hide InFlight, Hear, NoVoice, Packed, SoundOff;
    if Finishing(s.rt) {
      var channel := s.queued[s.ticket[s.rt.m]].channel;
      CopiedAll(s);
      SoundOffLeavesNoVoice(s.voices, channel, ch);
    } else if s.rt.SendEvent? {
      HearOther(s.voices, s.rt.event, ch);
    } else if s.rt.Playing? && c.StopAll? {
      NoVoices(ch);
    }
  }

  lemma NoVoices(c: nat)
    ensures NoVoice({}, c)
  {
  }

  lemma CopiedAll(s: State)
    requires Shape(s) && Copied(s) && Finishing(s.rt)
    ensures s.rt.copied == SoundOff(s.queued[s.ticket[s.rt.m]].channel)
  {
  }

  lemma RtKeepsQuiet(s: State, c: RtChoice)
    requires Shape(s) && Shape(RtStep(s, c)) && Contents(s) && FlagsBack(s) && Quiet(s)
    ensures Quiet(RtStep(s, c))
  {
    hide QuietByMute, QuietBySolo, NoVoice, InFlight, Packed, SoundOff, Hear, FlagsBack;
    var s' := RtStep(s, c);
    forall ch: ChannelIndex
      ensures QuietByMute(s', ch) || QuietBySolo(s', ch) ==> NoVoice(s'.voices, ch)
    {
      RtQuiet(s, c, ch);
      if QuietByMute(s', ch) || QuietBySolo(s', ch) {
        RtKeepsNoVoice(s, c, ch);
      }
    }
    if s'.rt.LoadMuted? || s'.rt.SendEvent? {
      var ch: ChannelIndex := Channel(s'.rt.event);
      RtQuiet(s, c, ch);
      QuietIsBlocked(s, ch);
    }
  }

  // ----- every run

  lemma {:induction false} RunQuiet(n: nat, hasData: seq<bool>, ticks: seq<Tick>)
    requires n > 0 && |hasData| == CHANNELS
    ensures var s := Run(n, hasData, ticks); FlagsBack(s) && Quiet(s)
    decreases |ticks|
  {
    var s := Run(n, hasData, ticks);
    PoolParts(s);
    if ticks == [] {
      assert s == Initial(n, hasData);
    } else {
      hide Quiet, DeliverySafe, CmdStep, RtStep, PoolSafe, FlagsBack;
      var before, t := Run(n, hasData, ticks[..|ticks| - 1]), ticks[|ticks| - 1];
      RunQuiet(n, hasData, ticks[..|ticks| - 1]);
      RunDelivers(n, hasData, ticks[..|ticks| - 1]);
      PoolParts(before);
      DeliveryParts(before);
      match t
      case CmdTick(c) =>
        CmdKeepsFlags(before, c);
        CmdKeepsQuiet(before, c);
      case RtTick(c) =>
        RtKeepsFlagsBack(before, c);
        RtKeepsQuiet(before, c);
    }
  }

  lemma DeliveryParts(s: State)
    requires Shape(s) && DeliverySafe(s)
    ensures Contents(s) && Faithful(s)
  {
  }

  lemma CmdKeepsFlags(s: State, c: Command)
    requires PoolSafe(s) && Shape(CmdStep(s, c)) && FlagsBack(s)
    ensures FlagsBack(CmdStep(s, c))
  {
    hide CmdStep, FlagFirst, Backed, OnePlace, Scans;
    CmdKeepsFlagFirst(s, c);
    forall t: nat | t < |CmdStep(s, c).queued| ensures Backed(CmdStep(s, c), t) {
      CmdKeepsBacked(s, c, t);
    }
  }

  lemma RtKeepsFlagsBack(s: State, c: RtChoice)
    requires Shape(s) && Shape(RtStep(s, c)) && FlagsBack(s)
    ensures FlagsBack(RtStep(s, c))
  {
    hide RtStep;
    RtKeepsFlags(s, c);
    RtKeepsHistory(s, c);
    var s' := RtStep(s, c);
    assert FlagFirst(s');
    forall t: nat | t < |s'.queued| ensures Backed(s', t) {
      assert Backed(s, t);
    }
  }

  /** In every run: once the all-sound-off of a mute has been delivered, and until an unmute, the channel is muted,
      no note of it sounds, and the process thread is not about to send any message on it. The same holds after
      the all-sound-off of a solo, until solo is turned off or moved to that very channel. */
  lemma {:induction false} SilencedStaysSilent(n: nat, hasData: seq<bool>, ticks: seq<Tick>, c: ChannelIndex)
    requires n > 0 && |hasData| == CHANNELS
    ensures var s := Run(n, hasData, ticks);
            QuietByMute(s, c) || QuietBySolo(s, c) ==>
              Blocked(Filters(true, s.solo, s.muted), c) && NoVoice(s.voices, c) &&
              !(s.rt.SendEvent? && !IsSysex(s.rt.event) && Channel(s.rt.event) == c)
  {
    hide FlagsBack, QuietByMute, QuietBySolo, NoVoice, Next;
    var s := Run(n, hasData, ticks);
    PoolParts(s);
    RunQuiet(n, hasData, ticks);
    QuietIsBlocked(s, c);
  }

  lemma CmdLeavesLastChannel(s: State, c: Command)
    requires Shape(s) && !s.muted[15] && s.solo < 15
    ensures var s' := CmdStep(s, c); |s'.muted| == CHANNELS && !s'.muted[15] && s'.solo < 15
  {
    hide Silenced, SoundOff, Packed;
  }

  /** Channel index 15 is out of the commands' reach: no run mutes it or solos it, whatever arguments are given. */
  lemma {:induction false} LastChannelNeverMuted(n: nat, hasData: seq<bool>, ticks: seq<Tick>)
    requires n > 0 && |hasData| == CHANNELS
    ensures var s := Run(n, hasData, ticks); !s.muted[15] && s.solo < 15
    decreases |ticks|
  {
    hide CmdStep, RtStep, PoolSafe;
    PoolParts(Run(n, hasData, ticks));
    if ticks != [] {
      var before, t := Run(n, hasData, ticks[..|ticks| - 1]), ticks[|ticks| - 1];
      PoolParts(before);
      LastChannelNeverMuted(n, hasData, ticks[..|ticks| - 1]);
      match t
      case CmdTick(c) =>
        CmdLeavesLastChannel(before, c);
      case RtTick(c) =>
        RtKeepsFlags(before, c);
    }
  }
}
