/** The real-time process callback (jackclient.c): seek, window, filter and send, cycle by cycle. */
module Engine {
  import opened Common
  import opened Elements
  import opened Timeline
  import opened Score
  import opened ControlPool

  datatype TransportState = Stopped | Rolling | Looping | Starting

  // ----- what one cycle sends, without any player state but the previous transport state

  /** Messages sent at the start of a cycle, in order. */
  function AtStart(messages: seq<Bytes>): seq<Emit> {
    seq(|messages|, i requires 0 <= i < |messages| => Emit(0, messages[i]))
  }

  /** The all-sound-off controller message for one channel. */
  function SoundOff(channel: ChannelIndex): MidiData {
    [0xB0 + channel, 120, 0]
  }

  /** All-sound-off for the first n channels. */
  function SoundOffs(n: nat): (r: seq<Bytes>)
    requires n <= CHANNELS
  {
    if n == 0 then [] else SoundOffs(n - 1) + [SoundOff(n - 1)]
  }

  /** All channels are silenced when the transport goes from rolling to stopped. */
  function StopMessages(prev: TransportState, state: TransportState): seq<Emit> {
    AtStart(if prev.Rolling? && state.Stopped? then SoundOffs(CHANNELS) else [])
  }

  /** Scheduled messages go out only while rolling. */
  function Scheduled(stream: seq<Placed>, f: Filters, state: TransportState, pos: nat, nframes: nat): seq<Emit> {
    if state.Rolling? then Window(stream, f, pos, pos, pos + nframes) else []
  }

  /** Everything one cycle sends: queued control messages, all-sound-off when rolling stops, and the
      scheduled messages of frames pos to pos + nframes - 1 when rolling. */
  function CycleOutput(stream: seq<Placed>, f: Filters, prev: TransportState, state: TransportState,
                       queued: seq<Bytes>, pos: nat, nframes: nat): seq<Emit>
  {
    AtStart(queued) + StopMessages(prev, state) + Scheduled(stream, f, state, pos, nframes)
  }

  lemma AllAtStart(messages: seq<Bytes>, later: seq<Emit>, nframes: nat)
    requires TimesOrdered(later, 0, nframes) && nframes > 0
    ensures TimesOrdered(AtStart(messages) + later, 0, nframes)
  {
  }

  lemma NothingScheduled(nframes: nat)
    ensures TimesOrdered([], 0, nframes)
  {
  }

  /** Offsets never decrease and, in a cycle with frames, lie inside the cycle. */
  lemma CycleOrdered(stream: seq<Placed>, f: Filters, prev: TransportState, state: TransportState,
                     queued: seq<Bytes>, pos: nat, nframes: nat)
    requires nframes > 0
    ensures TimesOrdered(CycleOutput(stream, f, prev, state, queued, pos, nframes), 0, nframes)
  {
    hide TimesOrdered, Window, AtStart, SoundOffs;
    WindowOrdered(stream, f, pos, pos, pos + nframes);
    NothingScheduled(nframes);
    var scheduled := Scheduled(stream, f, state, pos, nframes);
    AllAtStart(if prev.Rolling? && state.Stopped? then SoundOffs(CHANNELS) else [], scheduled, nframes);
    AllAtStart(queued, StopMessages(prev, state) + scheduled, nframes);
    assert CycleOutput(stream, f, prev, state, queued, pos, nframes) == AtStart(queued) + (StopMessages(prev, state) + scheduled);
  }

  /** What a cycle sends, message by message: first the queued messages at offset 0; then, only in the step from Rolling to
      Stopped, sixteen all-sound-offs, one for each channel in ascending order; then, only when rolling, the window. */
  ghost predicate IsCycle(output: seq<Emit>, queued: seq<Bytes>, prev: TransportState, state: TransportState, window: seq<Emit>) {
    var n := |queued|;
    n <= |output| && (forall i :: 0 <= i < n ==> output[i] == Emit(0, queued[i])) &&
    (if state == Rolling then
       output[n..] == window
     else if prev == Rolling && state == Stopped then
       |output| == n + 16 && forall i :: n <= i < |output| ==> output[i] == Emit(0, [0xB0 + (i - n), 120, 0])
     else
       |output| == n)
  }

  lemma CycleWritten(stream: seq<Placed>, f: Filters, prev: TransportState, state: TransportState,
                     queued: seq<Bytes>, pos: nat, nframes: nat)
    ensures IsCycle(CycleOutput(stream, f, prev, state, queued, pos, nframes), queued, prev, state, Window(stream, f, pos, pos, pos + nframes))
  {
    hide Window;
    if prev == Rolling && state == Stopped {
      SoundOffsWritten(16);
    }
  }

  lemma {:induction false} SoundOffsWritten(n: nat)
    requires n <= CHANNELS
    ensures |SoundOffs(n)| == n && forall i :: 0 <= i < n ==> SoundOffs(n)[i] == [0xB0 + i, 120, 0]
  {
    if n > 0 {
      SoundOffsWritten(n - 1);
    }
  }

  // ----- the player

  class Player {
    const root: MidiRoot
    const pool: Pool
    var currentTime: TimeRecord?
    var expectedFrame: Word
    var prevState: TransportState
    /** The position of `currentTime` in the root's list. */
    ghost var cursor: nat

    /** A non-null cursor is the first record of the whole list at or after the expected frame. */
    ghost predicate CursorValid()
      reads this, root
    {
      currentTime != null ==>
        cursor < |root.list| && root.list[cursor] == currentTime &&
        expectedFrame <= currentTime.frame &&
        forall j :: 0 <= j < cursor ==> root.list[j].frame < expectedFrame
    }

    ghost predicate Valid()
      reads this, root, root.records, pool, pool.available, pool.process
    {
      root.Loaded() && pool.Valid(None, None) && CursorValid()
    }

    constructor (root: MidiRoot, pool: Pool)
      requires root.Loaded() && pool.Valid(None, None)
      ensures Valid() && this.root == root && this.pool == pool && prevState == Stopped
    {
      this.root, this.pool := root, pool;
      currentTime := null;
      expectedFrame := TWO_32 - 1;
      prevState := Stopped;
      cursor := 0;
    }

    /** The control messages queued at this moment. */
    ghost function Queued(): seq<Bytes>
      reads this, pool, pool.available, pool.process, pool.supply
      requires pool.Valid(None, None)
    {
      Waiting(pool.process[..], pool.supply[..])
    }

    /** Send and give back every queued control message. */
    method SendControlMessages() returns (buffer: seq<Emit>)
      requires pool.Valid(None, None)
      modifies pool`processIndex, pool.available, pool.process
      ensures pool.Valid(None, None) && forall i :: 0 <= i < pool.process.Length ==> pool.process[i] == None
      ensures buffer == AtStart(old(Queued()))
    {
      hide Waiting, OnePlace, AtStart;
      buffer := [];
      ghost var queued := Queued();
      pool.ProcessInit();
      var cm: Slot := pool.ProcessNext(None);
      while cm != None
        invariant pool.Valid(None, cm)
        invariant cm.Some? ==> cm.value < pool.supply.Length
        invariant pool.processIndex <= pool.process.Length
        invariant cm.None? ==> pool.processIndex == pool.process.Length
        invariant forall j :: 0 <= j < pool.processIndex ==> pool.process[j] == None
        invariant AtStart(queued) == buffer + AtStart((if cm.Some? then [pool.supply[cm.value]] else []) + Waiting(pool.process[..], pool.supply[..]))
        decreases cm.Some?, pool.process.Length - pool.processIndex
      {
        AtStartNext(pool.supply[cm.value], Waiting(pool.process[..], pool.supply[..]));
        buffer := buffer + [Emit(0, pool.supply[cm.value])];
        pool.Return(cm.value, None);
        cm := pool.ProcessNext(None);
      }
      NothingWaiting(pool.process[..], pool.supply[..]);
      NothingAtStart();
      assert [] + Waiting(pool.process[..], pool.supply[..]) == [];
    }

    /** The first record at or after a frame, found from the entry point of its second. */
    method Seek(pos: Word)
      requires root.Loaded()
      modifies this`currentTime, this`cursor
      ensures currentTime == null ==> forall i :: 0 <= i < |root.list| ==> root.list[i].frame < pos
      ensures currentTime != null ==>
                cursor < |root.list| && root.list[cursor] == currentTime && pos <= currentTime.frame &&
                forall j :: 0 <= j < cursor ==> root.list[j].frame < pos
    {
      hide MidiRoot.Loaded, MidiRoot.LookupEntryPoint;
      LoadedSizes(root);
      var time := root.LookupEntryPoint(pos);
      ghost var k := EntryPointPosition(root, pos);
      while time != null && time.frame < pos
        invariant k <= |root.list|
        invariant time == if k < |root.list| then root.list[k] else null
        invariant forall j :: 0 <= j < k ==> root.list[j].frame < pos
        decreases |root.list| - k
      {
        LoadedRecord(root, k);
        time := time.next;
        k := k + 1;
      }
      currentTime, cursor := time, k;
    }

    /** Send the audible events of one record. */
    method SendRecord(time: TimeRecord, timeInCycle: nat) returns (buffer: seq<Emit>)
      requires root.muted.Length == CHANNELS
      ensures buffer == Sent(root.Filters(), time.events, timeInCycle)
    {
      buffer := [];
      ghost var f := root.Filters();
      for i := 0 to |time.events|
        invariant buffer == Sent(f, time.events[..i], timeInCycle)
      {
        SentNext(f, time.events, i, timeInCycle);
        var data := time.events[i].data;
        if data[0] == 0xF0 {
          if !root.sendSysex {
            continue;
          }
        } else {
          var channel := data[0] % 16;
          if root.soloChannel != -1 && channel != root.soloChannel {
            continue;
          }
          if root.muted[channel] {
            continue;
          }
          if data[0] - data[0] % 16 == 0x80 && channel == 9 {
            continue;
          }
        }
        buffer := buffer + [Emit(timeInCycle, data)];
      }
      assert time.events[..|time.events|] == time.events;
    }

    /** Send every record before `expectedFrame`, starting at the cursor. */
    method SendRecords(pos: Word) returns (buffer: seq<Emit>)
      requires root.Loaded() && pos <= expectedFrame && currentTime != null
      requires cursor < |root.list| && root.list[cursor] == currentTime && pos <= currentTime.frame
      requires forall j :: 0 <= j < cursor ==> root.list[j].frame < pos
      modifies this`currentTime, this`cursor
      ensures CursorValid()
      ensures buffer == Window(root.stream, root.Filters(), pos, pos, expectedFrame)
    {
      hide MidiRoot.Loaded, Window, MidiRoot.Filters, Sent, EventsAt;
      LoadedSizes(root);
      buffer := [];
      ghost var f := root.Filters();
      ghost var lo: Word := pos;
      var time, k := currentTime, cursor;
      NothingYet(root.stream, f, pos);
      while time != null && time.frame < expectedFrame
        invariant k <= |root.list| && time == if k < |root.list| then root.list[k] else null
        invariant pos <= lo <= expectedFrame
        invariant forall j :: 0 <= j < k ==> root.list[j].frame < lo
        invariant time != null ==> lo <= time.frame
        invariant buffer == Window(root.stream, f, pos, pos, lo)
        decreases |root.list| - k
      {
        var now := SendRecord(time, time.frame - pos);
        WindowNext(root, f, k, pos, lo);
        LoadedRecord(root, k);
        buffer := buffer + now;
        lo := time.frame + 1;
        time := time.next;
        k := k + 1;
      }
      WindowEnd(root, f, k, pos, lo, expectedFrame);
      currentTime, cursor := time, k;
    }

    /** The rolling part of a cycle: seek if the cursor does not fit the position, then send the cycle's records. */
    method Roll(pos: Word, nframes: nat) returns (buffer: seq<Emit>)
      requires root.Loaded() && CursorValid() && pos + nframes < TWO_32
      modifies this`currentTime, this`cursor, this`expectedFrame
      ensures CursorValid()
      ensures buffer == Window(root.stream, root.Filters(), pos, pos, pos + nframes)
    {
      hide MidiRoot.Loaded, Window, MidiRoot.Filters;
      buffer := [];
      NothingYet(root.stream, root.Filters(), pos);
      if currentTime == null || expectedFrame != pos {
        Seek(pos);
      }
      if currentTime == null {
        SilentWindow(root, root.Filters(), pos, pos + nframes);
        return;
      }
      expectedFrame := U32(pos + nframes);
      if currentTime.frame >= expectedFrame {
        WindowEnd(root, root.Filters(), cursor, pos, pos, expectedFrame);
        return;
      }
      buffer := SendRecords(pos);
    }

    /** One audio cycle. */
    method Process(state: TransportState, pos: Word, nframes: nat) returns (buffer: seq<Emit>)
      requires Valid() && pos + nframes < TWO_32
      modifies this, pool`processIndex, pool.available, pool.process
      ensures Valid() && prevState == state
      ensures buffer == CycleOutput(root.stream, root.Filters(), old(prevState), state, old(Queued()), pos, nframes)
      ensures IsCycle(buffer, old(Queued()), old(prevState), state, Window(root.stream, root.Filters(), pos, pos, pos + nframes))
      ensures forall i :: 0 <= i < pool.process.Length ==> pool.process[i] == None
    {
      hide MidiRoot.Loaded, Window, MidiRoot.Filters, AtStart, Pool.Valid, Waiting, SoundOffs, IsCycle;
      CycleWritten(root.stream, root.Filters(), prevState, state, Queued(), pos, nframes);
      buffer := SendControlMessages();
      NothingAtStart();
      if prevState == Rolling && state == Stopped {
        buffer := buffer + AtStart(SoundOffs(CHANNELS));
      }
      prevState := state;
      if state == Rolling {
        var played := Roll(pos, nframes);
        buffer := buffer + played;
      }
    }
  }

  lemma SentNext(f: Filters, events: seq<Event>, i: nat, time: nat)
    requires i < |events|
    ensures Sent(f, events[..i + 1], time) == Sent(f, events[..i], time) + (if Audible(f, events[i].data) then [Emit(time, events[i].data)] else [])
  {
    assert events[..i + 1][..i] == events[..i];
  }

  lemma AtStartNext(m: Bytes, rest: seq<Bytes>)
    ensures AtStart([m] + rest) == [Emit(0, m)] + AtStart(rest)
  {
  }

  lemma NothingAtStart()
    ensures AtStart([]) == []
  {
  }

  lemma NothingYet(stream: seq<Placed>, f: Filters, pos: nat)
    ensures Window(stream, f, pos, pos, pos) == []
  {
  }

  /** Between two neighbouring records nothing is placed. */
  lemma NothingBetween(stream: seq<Placed>, frames: seq<Word>, k: nat, lo: nat, hi: nat)
    requires Ascending(frames) && CoversStream(stream, frames) && k <= |frames|
    requires forall j :: 0 <= j < k ==> frames[j] < lo
    requires k < |frames| ==> hi <= frames[k]
    ensures forall i :: 0 <= i < |stream| ==> !(lo <= stream[i].frame < hi)
  {
    forall i | 0 <= i < |stream| ensures !(lo <= stream[i].frame < hi) {
      assert stream[i].frame in frames;
      var j :| 0 <= j < |frames| && frames[j] == stream[i].frame;
      assert k < j ==> frames[k] < frames[j];
    }
  }

  /** Once the cursor is past the end of a cycle the window is complete. */
  lemma WindowEnd(root: MidiRoot, f: Filters, k: nat, pos: nat, lo: nat, hi: nat)
    requires root.Loaded() && k <= |root.list| && pos <= lo <= hi
    requires forall j :: 0 <= j < k ==> root.list[j].frame < lo
    requires k < |root.list| ==> hi <= root.list[k].frame
    ensures Window(root.stream, f, pos, pos, hi) == Window(root.stream, f, pos, pos, lo)
  {
    hide MidiRoot.Loaded, Window, Ascending, CoversStream;
    LoadedFrames(root);
    NothingBetween(root.stream, FramesOf(root.list), k, lo, hi);
    WindowGap(root.stream, f, pos, pos, lo, hi);
  }

  /** The record at the cursor continues the window from wherever it had got to. */
  lemma WindowNext(root: MidiRoot, f: Filters, k: nat, pos: nat, lo: nat)
    requires root.Loaded() && k < |root.list| && pos <= lo <= root.list[k].frame
    requires forall j :: 0 <= j < k ==> root.list[j].frame < lo
    ensures var frame := root.list[k].frame;
            Window(root.stream, f, pos, pos, frame + 1) ==
            Window(root.stream, f, pos, pos, lo) + Sent(f, root.list[k].events, frame - pos)
    ensures forall j :: 0 <= j < k + 1 ==> root.list[j].frame < root.list[k].frame + 1
    ensures root.list[k].next != null ==> root.list[k].frame + 1 <= root.list[k].next.frame
  {
    hide MidiRoot.Loaded, Sent, EventsAt;
    var frame := root.list[k].frame;
    WindowEnd(root, f, k, pos, lo, frame);
    LoadedRecord(root, k);
    LoadedFrames(root);
    assert k + 1 < |root.list| ==> FramesOf(root.list)[k] < FramesOf(root.list)[k + 1];
  }

  /** A position after every record has nothing to send. */
  lemma SilentWindow(root: MidiRoot, f: Filters, pos: nat, hi: nat)
    requires root.Loaded() && pos <= hi
    requires forall i :: 0 <= i < |root.list| ==> root.list[i].frame < pos
    ensures Window(root.stream, f, pos, pos, hi) == []
  {
    hide MidiRoot.Loaded;
    WindowEnd(root, f, |root.list|, pos, pos, hi);
  }
}
