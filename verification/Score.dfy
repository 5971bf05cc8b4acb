/** The loaded song: frame records, seek points and the linked list (jpmidi.c). */
module Score {
  import opened Common
  import opened Elements
  import opened TempoMap
  import opened Timeline

  // ----- the tree's comparison function

  /** jpmidi_time_compare: the 64-bit difference of two frames cut down to a signed 32-bit integer. */
  function TimeCompare(a: Word, b: Word): int {
    Int32(a - b)
  }

  /** The comparison has the sign of the difference exactly when the frames are less than 2^31 apart
      (or b is exactly 2^31 above a); equality is always recognised. */
  lemma CompareIsOrder(a: Word, b: Word)
    ensures (TimeCompare(a, b) < 0 <==> a < b) && (TimeCompare(a, b) > 0 <==> a > b) <==> -TWO_31 <= a - b < TWO_31
    ensures TimeCompare(a, b) == 0 <==> a == b
  {
    assert (a - b) % TWO_32 == if a < b then a - b + TWO_32 else a - b;
  }

  // ----- records

  /** All events of one frame (struct jpmidi_time). */
  class TimeRecord {
    const smfTime: Word
    const frame: Word
    var events: seq<Event>
    var next: TimeRecord?

    constructor (smfTime: Word, frame: Word)
      ensures this.smfTime == smfTime && this.frame == frame && events == [] && next == null
    {
      this.smfTime := smfTime;
      this.frame := frame;
      events := [];
      next := null;
    }
  }

  /** The largest frame of the placed events, or 0 when there are none. */
  ghost function LastFrame(stream: seq<Placed>): Word {
    if stream == [] then 0 else
    var front, last := stream[..|stream| - 1], stream[|stream| - 1].frame;
    if LastFrame(front) < last then last else LastFrame(front)
  }

  lemma {:induction false} LastFrameIsMax(stream: seq<Placed>)
    ensures forall f: Word :: Occupied(stream, f) ==> f <= LastFrame(stream)
    ensures if stream == [] then LastFrame(stream) == 0 else Occupied(stream, LastFrame(stream))
  {
    if stream != [] {
      var front, last := stream[..|stream| - 1], stream[|stream| - 1];
      LastFrameIsMax(front);
      assert front + [last] == stream;
      StreamGrows(front, last);
    }
  }

  ghost predicate Occupied(stream: seq<Placed>, frame: int) {
    exists i :: 0 <= i < |stream| && stream[i].frame == frame
  }

  ghost predicate Precedes(frame: Word, frames: set<Word>) {
    forall f :: f in frames ==> frame < f
  }

  /** The frame of an entry point: a whole second before the last frame. */
  ghost predicate IsEntryFrame(frame: int, sampleRate: nat, lastFrame: nat)
    requires sampleRate > 0
  {
    0 <= frame < lastFrame && frame % sampleRate == 0
  }

  /** struct jpmidi_root. GLib's tree is a map from frames to records, visited in ascending order of frames. */
  class MidiRoot {
    const sampleRate: nat
    var timeBase: nat
    var tempoMpq: nat
    var xtempoFrame: Word
    var xtempoTick: Word
    var lastFrame: Word
    var data: map<Word, TimeRecord>
    var head: TimeRecord?
    var tail: TimeRecord?
    var sendSysex: bool
    var soloChannel: int
    const muted: array<bool>
    const hasData: array<bool>
    ghost var stream: seq<Placed>
    ghost var list: seq<TimeRecord>
    ghost var records: set<TimeRecord>

    ghost function TempoNow(): TempoState
      reads this
    {
      TempoState(sampleRate, timeBase, tempoMpq, xtempoFrame, xtempoTick)
    }

    function Filters(): Filters
      reads this, muted
    {
      Timeline.Filters(sendSysex, soloChannel, muted[..])
    }

    /** Each record sits under its own frame and holds exactly the events placed there, in placing order. */
    ghost predicate RecordsValid()
      reads this`data, this`records, this`stream, this`lastFrame, records`events
    {
      Indexed() &&
      (forall f :: f in data ==> EventsUnder(f) == EventsAt(stream, f)) &&
      (forall f: Word :: Occupied(stream, f) ==> f in data) &&
      lastFrame == LastFrame(stream)
    }

    /** Before entry points are added every record holds an event. */
    ghost predicate NoEmptyRecords()
      reads this`data, this`stream
    {
      forall f :: f in data ==> Occupied(stream, f)
    }

    /** There is a record for every whole second before the last frame, and the other records hold events. */
    ghost predicate HasEntryPoints()
      reads this`data, this`stream, this`lastFrame
      requires sampleRate > 0
    {
      forall f: Word :: f in data <==> Occupied(stream, f) || IsEntryFrame(f, sampleRate, lastFrame)
    }

    /** The list is linked through `next` from head to tail and its frames strictly ascend. */
    ghost predicate Chained()
      reads this`data, this`records, this`head, this`tail, this`list, records`next
    {
      (forall i :: 0 <= i < |list| ==> list[i].frame in data && data[list[i].frame] == list[i]) &&
      (forall i, j :: 0 <= i < j < |list| ==> list[i].frame < list[j].frame) &&
      (forall i :: 0 <= i < |list| ==> list[i] in records && list[i].next == if i + 1 < |list| then list[i + 1] else null) &&
      head == (if list == [] then null else list[0]) &&
      tail == (if list == [] then null else list[|list| - 1])
    }

    /** The linked list visits every record once, in strictly ascending order of frames. */
    ghost predicate Threaded()
      reads this, records
    {
      Chained() && forall f :: f in data ==> data[f] in list
    }

    ghost predicate Loaded()
      reads this, records
    {
      Sizes() && RecordsValid() && HasEntryPoints() && Threaded()
    }

    constructor (sampleRate: nat)
      requires sampleRate > 0
      ensures Sizes() && RecordsValid() && NoEmptyRecords() && fresh(muted) && fresh(hasData) && records == {}
      ensures stream == [] && TempoNow() == InitialTempo(sampleRate)
      ensures Filters() == AllOpen() && forall c :: 0 <= c < 16 ==> !hasData[c]
      ensures this.sampleRate == sampleRate
    {
      this.sampleRate := sampleRate;
      timeBase := 0;
      tempoMpq := DEFAULT_MPQ;
      xtempoFrame, xtempoTick, lastFrame := 0, 0, 0;
      data := map[];
      head, tail := null, null;
      sendSysex := true;
      soloChannel := -1;
      muted := new bool[CHANNELS](i => false);
      hasData := new bool[CHANNELS](i => false);
      stream, list, records := [], [], {};
    }

    ghost predicate Sizes() {
      muted.Length == CHANNELS && hasData.Length == CHANNELS && muted != hasData && sampleRate > 0
    }

    /** The frame index: each record sits under its own frame. */
    ghost predicate Indexed()
      reads this`data, this`records
    {
      forall f :: f in data ==> data[f] in records && data[f].frame == f
    }

    ghost function EventsUnder(frame: Word): seq<Event>
      reads this`data, this`records, records`events
      requires Indexed()
    {
      if frame in data then data[frame].events else []
    }

    /** The record for a tick, made if there is none yet. */
    method GetTime(smfTime: Word) returns (time: TimeRecord)
      requires Indexed() && timeBase > 0
      modifies this`data, this`lastFrame, this`records
      ensures Indexed() && fresh(records - old(records)) && old(records) <= records
      ensures time.frame == FrameAt(TempoNow(), smfTime)
      ensures xtempoTick <= smfTime && sampleRate * tempoMpq * (smfTime - xtempoTick) < (0x1_0000_0000 - xtempoFrame) * (1000000 * timeBase) ==>
                var n := time.frame - xtempoFrame;
                0 <= n && n * (1000000 * timeBase) <= sampleRate * tempoMpq * (smfTime - xtempoTick) < (n + 1) * (1000000 * timeBase)
      ensures data == old(data)[time.frame := time]
      ensures time.frame in old(data) ==> time == old(data)[time.frame] && lastFrame == old(lastFrame)
      ensures time.frame !in old(data) ==> fresh(time) && time.events == [] && time.smfTime == smfTime
      ensures time.frame !in old(data) ==> lastFrame == if old(lastFrame) < time.frame then time.frame else old(lastFrame)
    {
      var frame := FrameAt(TempoState(sampleRate, timeBase, tempoMpq, xtempoFrame, xtempoTick), smfTime);
      NowEquation(smfTime, frame);
      hide FrameAt;
      if frame in data {
        time := data[frame];
      } else {
        if lastFrame < frame {
          lastFrame := frame;
        }
        time := new TimeRecord(smfTime, frame);
        data := data[frame := time];
        records := records + {time};
      }
    }

    lemma NowEquation(smfTime: Word, frame: Word)
      requires timeBase > 0 && frame == FrameAt(TempoNow(), smfTime)
      ensures xtempoTick <= smfTime && sampleRate * tempoMpq * (smfTime - xtempoTick) < (0x1_0000_0000 - xtempoFrame) * (1000000 * timeBase) ==>
                var n := frame - xtempoFrame;
                0 <= n && n * (1000000 * timeBase) <= sampleRate * tempoMpq * (smfTime - xtempoTick) < (n + 1) * (1000000 * timeBase)
    {
      hide FrameAt;
      if xtempoTick <= smfTime && sampleRate * tempoMpq * (smfTime - xtempoTick) < (0x1_0000_0000 - xtempoFrame) * (1000000 * timeBase) {
        FrameEquation(TempoNow(), smfTime);
      }
    }

    /** Append one event to the record for a tick. */
    method AddEvent(smfTime: Word, event: Event)
      requires Indexed() && timeBase > 0
      modifies this`data, this`lastFrame, this`records, records
      ensures Indexed() && fresh(records - old(records))
      ensures var frame := FrameAt(TempoNow(), smfTime);
              data.Keys == old(data).Keys + {frame} &&
              (forall f :: f in data ==> EventsUnder(f) == old(EventsUnder(f)) + (if f == frame then [event] else [])) &&
              lastFrame == if frame !in old(data) && old(lastFrame) < frame then frame else old(lastFrame)
    {
      hide FrameAt;
      var time := GetTime(smfTime);
      time.events := time.events + [event];
      forall f | f in data
        ensures EventsUnder(f) == old(EventsUnder(f)) + (if f == time.frame then [event] else [])
      {
        if f != time.frame {
          assert data[f] != time;
        }
      }
    }

    /** Store one event under its tick. */
    method Store(smfTime: Word, event: Event)
      requires Sizes() && RecordsValid() && NoEmptyRecords() && timeBase > 0
      modifies this`data, this`lastFrame, this`records, this`stream, records
      ensures Sizes() && RecordsValid() && NoEmptyRecords() && fresh(records - old(records))
      ensures stream == old(stream) + [Placed(FrameAt(TempoNow(), smfTime), event)]
    {
      hide EventsAt, LastFrame, FrameAt, Occupied;
      AddEvent(smfTime, event);
      ghost var p := Placed(FrameAt(TempoNow(), smfTime), event);
      StreamGrows(stream, p);
      NothingAt(stream);
      LastFrameIsMax(stream);
      stream := stream + [p];
    }

    /** Turn one file element into tempo changes and stored events. */
    method ProcessElement(el: Element)
      requires Sizes() && RecordsValid() && NoEmptyRecords()
      requires if el.Root? then el.timeBase > 0 else timeBase > 0
      requires el.HasChannel() ==> el.channel < CHANNELS
      modifies this`timeBase, this`tempoMpq, this`xtempoFrame, this`xtempoTick
      modifies this`data, this`lastFrame, this`records, this`stream, records, hasData
      ensures Sizes() && RecordsValid() && NoEmptyRecords() && fresh(records - old(records))
      ensures TempoNow() == Advance(old(TempoNow()), el)
      ensures stream == old(stream) + EventsOf(old(TempoNow()), el)
      ensures forall c :: 0 <= c < CHANNELS ==> hasData[c] == (old(hasData[c]) || (el.HasChannel() && el.channel == c))
    {
      hide EventsAt, LastFrame, FrameAt, Occupied, Status, RecordsValid, NoEmptyRecords;
      if el.Root? {
        timeBase := el.timeBase;
      } else if el.Tempo? {
        xtempoFrame := FrameAt(TempoState(sampleRate, timeBase, tempoMpq, xtempoFrame, xtempoTick), el.time);
        xtempoTick := el.time;
        tempoMpq := el.microTempo;
      } else if el.Note? {
        hasData[el.channel] := true;
        Store(el.time, Event(OnBytes(el), el));
        Store(OffTick(el), Event(OffBytes(el), el));
      } else if el.HasChannel() {
        hasData[el.channel] := true;
        Store(el.time, Event(OnBytes(el), el));
      } else if el.Sysex? {
        Store(el.time, Event(OnBytes(el), el));
      }
    }

    /** The records are the occupied frames and the whole seconds of the song before `frame`. */
    ghost predicate EntryPointsBelow(frame: nat)
      reads this`data, this`stream, this`lastFrame
      requires sampleRate > 0
    {
      forall f: Word :: f in data <==> Occupied(stream, f) || (IsEntryFrame(f, sampleRate, lastFrame) && f < frame)
    }

    /** Make sure that one whole second has a record. */
    method AddEntryPoint(epFrame: Word)
      requires sampleRate > 0 && RecordsValid() && EntryPointsBelow(epFrame) && IsEntryFrame(epFrame, sampleRate, lastFrame)
      modifies this`data, this`records
      ensures RecordsValid() && EntryPointsBelow(epFrame + 1) && fresh(records - old(records))
    {
      hide EventsAt, Occupied, LastFrame, IsEntryFrame;
      if epFrame !in data {
        NothingAt(stream);
        var time := new TimeRecord(0, epFrame);
        data := data[epFrame := time];
        records := records + {time};
      }
    }

    /** Add an empty record for every second of the song that has none. */
    method AddEntryPoints()
      requires Sizes() && RecordsValid() && NoEmptyRecords() && lastFrame < TWO_31 && sampleRate <= TWO_31
      modifies this`data, this`records
      ensures Sizes() && RecordsValid() && HasEntryPoints() && fresh(records - old(records))
    {
      hide RecordsValid, Occupied, NoEmptyRecords, EntryPointsBelow, HasEntryPoints;
      NoEntryPointsYet();
      var epFrame: Word := 0;
      while epFrame < lastFrame
        invariant RecordsValid() && EntryPointsBelow(epFrame) && fresh(records - old(records))
        invariant epFrame <= lastFrame + sampleRate && epFrame % sampleRate == 0
        decreases lastFrame - epFrame
      {
        AddEntryPoint(epFrame);
        UntilNextSecond(epFrame);
        epFrame := epFrame + sampleRate;
      }
      AllEntryPoints(epFrame);
    }

    lemma NoEntryPointsYet()
      requires sampleRate > 0 && RecordsValid() && NoEmptyRecords()
      ensures EntryPointsBelow(0)
    {
    }

    lemma UntilNextSecond(frame: nat)
      requires sampleRate > 0 && frame % sampleRate == 0 && EntryPointsBelow(frame + 1)
      ensures (frame + sampleRate) % sampleRate == 0 && EntryPointsBelow(frame + sampleRate)
    {
      hide Occupied;
      NextSecond(frame, sampleRate);
    }

    lemma AllEntryPoints(frame: nat)
      requires sampleRate > 0 && lastFrame <= frame && EntryPointsBelow(frame)
      ensures HasEntryPoints()
    {
    }

    /** jpmidi_root_data_traverse: append one record to the linked list. */
    method Traverse(curr: TimeRecord)
      requires Indexed() && Chained() && curr.frame in data && data[curr.frame] == curr
      requires forall i :: 0 <= i < |list| ==> list[i].frame < curr.frame
      modifies this`head, this`tail, this`list, records`next
      ensures Chained() && list == old(list) + [curr]
    {
      if head == null {
        head := curr;
      }
      if tail != null {
        tail.next := curr;
      }
      curr.next := null;
      tail := curr;
      list := list + [curr];
    }

    /** The list holds the records whose frames are not in `rest`, and they precede those in `rest`. */
    ghost predicate LinkedUpTo(rest: set<Word>)
      reads this`data, this`list
    {
      rest <= data.Keys &&
      (forall f :: f in data && f !in rest ==> data[f] in list) &&
      (forall i :: 0 <= i < |list| ==> Precedes(list[i].frame, rest))
    }

    /** Visit the record with the smallest remaining frame. */
    method LinkNext(rest: set<Word>) returns (left: set<Word>)
      requires rest != {} && Indexed() && Chained() && LinkedUpTo(rest)
      modifies this`head, this`tail, this`list, records`next
      ensures Chained() && LinkedUpTo(left) && left < rest
    {
      hide Chained;
      ghost var least := LeastOf(rest);
      var f :| f in rest && forall g :: g in rest ==> f <= g;
      assert forall i :: 0 <= i < |list| ==> list[i].frame < f;
      Traverse(data[f]);
      left := rest - {f};
    }

    /** Link all records in ascending order of frames. */
    method LinkRecords()
      requires Sizes() && RecordsValid() && HasEntryPoints()
      modifies this`head, this`tail, this`list, records`next
      ensures Loaded()
    {
      hide RecordsValid, HasEntryPoints, Chained, Indexed;
      ValidIsIndexed();
      head, tail, list := null, null, [];
      NothingChained();
      var rest := data.Keys;
      while rest != {}
        invariant Indexed() && Chained() && LinkedUpTo(rest)
      {
        rest := LinkNext(rest);
      }
    }

    lemma ValidIsIndexed()
      requires RecordsValid()
      ensures Indexed()
    {
    }

    lemma NothingChained()
      requires head == null && tail == null && list == []
      ensures Chained()
    {
    }

    /** jpmidi_solo_channel: 0 turns solo off; 16 is refused. */
    method SoloChannel(chan: int) returns (error: bool)
      modifies this`soloChannel
      ensures error <==> chan < 0 || chan > 15
      ensures soloChannel == if error then old(soloChannel) else chan - 1
    {
      if chan < 0 || chan > 15 {
        return true;
      }
      soloChannel := chan - 1;
      return false;
    }

    /** jpmidi_mute_channel and jpmidi_unmute_channel: 16 is refused; 0 would index before the array. */
    method SetMuted(chan: int, isMuted: bool) returns (error: bool)
      requires muted.Length == CHANNELS && chan != 0
      modifies muted
      ensures error <==> chan < 0 || chan > 15
      ensures muted[..] == if error then old(muted[..]) else old(muted[..])[chan - 1 := isMuted]
    {
      if chan < 0 || chan > 15 {
        return true;
      }
      muted[chan - 1] := isMuted;
      return false;
    }

    /** The record of the whole second at or before a frame, if there is one. */
    function LookupEntryPoint(frame: Word): TimeRecord?
      reads this
      requires sampleRate > 0
    {
      SecondIsBefore(frame, sampleRate);
      var seekFrame: Word := frame / sampleRate * sampleRate;
      if seekFrame in data then data[seekFrame] else null
    }
  }

  lemma DivModUnique(x: nat, d: nat, q: nat, r: nat)
    requires x == d * q + r && r < d
    ensures x / d == q && x % d == r
  {
    var q' := x / d;
    assert x == d * q' + x % d;
    assert d * (q' + 1) == d * q' + d && d * (q + 1) == d * q + d;
    LessByFactor(d, q, q' + 1);
    LessByFactor(d, q', q + 1);
  }

  /** Rounding down to a whole second. */
  lemma SecondIsBefore(frame: nat, sampleRate: nat)
    requires sampleRate > 0
    ensures 0 <= frame / sampleRate * sampleRate <= frame < frame / sampleRate * sampleRate + sampleRate
    ensures frame / sampleRate * sampleRate % sampleRate == 0
  {
    var q := frame / sampleRate;
    assert q * sampleRate == sampleRate * q;
    DivModUnique(q * sampleRate, sampleRate, q, 0);
  }

  /** Whole seconds are one sample rate apart. */
  lemma NextSecond(frame: nat, d: nat)
    requires d > 0 && frame % d == 0
    ensures (frame + d) % d == 0
    ensures forall f: nat :: frame < f < frame + d ==> f % d != 0
  {
    var q := frame / d;
    assert frame == d * q;
    assert d * (q + 1) == d * q + d;
    DivModUnique(frame + d, d, q + 1, 0);
    forall f: nat | frame < f < frame + d ensures f % d != 0 {
      DivModUnique(f, d, q, f - frame);
    }
  }

  lemma {:induction false} LeastOf(s: set<Word>) returns (least: Word)
    requires s != {}
    ensures least in s && forall g :: g in s ==> least <= g
    decreases |s|
  {
    var x :| x in s;
    least := x;
    var others := s - {x};
    assert forall g :: g in s ==> g == x || g in others;
    if others != {} {
      var y := LeastOf(others);
      least := if x <= y then x else y;
    }
  }

  lemma NothingAt(stream: seq<Placed>)
    ensures forall f: Word :: !Occupied(stream, f) ==> EventsAt(stream, f) == []
  {
    forall f: Word | !Occupied(stream, f) ensures EventsAt(stream, f) == [] {
      NoEventsAt(stream, f);
    }
  }

  lemma StreamGrows(stream: seq<Placed>, p: Placed)
    ensures forall f: Word :: EventsAt(stream + [p], f) == if p.frame == f then EventsAt(stream, f) + [p.event] else EventsAt(stream, f)
    ensures LastFrame(stream + [p]) == if LastFrame(stream) < p.frame then p.frame else LastFrame(stream)
    ensures forall f: Word :: Occupied(stream + [p], f) <==> Occupied(stream, f) || f == p.frame
  {
    assert (stream + [p])[..|stream|] == stream;
    forall f: Word | Occupied(stream, f) ensures Occupied(stream + [p], f) {
      var i :| 0 <= i < |stream| && stream[i].frame == f;
      assert (stream + [p])[i].frame == f;
    }
    assert (stream + [p])[|stream|] == p;
  }

  // ----- what a loaded song offers to the player

  ghost predicate Ascending(frames: seq<Word>) {
    forall i, j :: 0 <= i < j < |frames| ==> frames[i] < frames[j]
  }

  /** Every placed event has its frame among `frames`. */
  ghost predicate CoversStream(stream: seq<Placed>, frames: seq<Word>) {
    forall i :: 0 <= i < |stream| ==> stream[i].frame in frames
  }

  ghost function FramesOf(list: seq<TimeRecord>): (r: seq<Word>)
    ensures |r| == |list| && forall i :: 0 <= i < |list| ==> r[i] == list[i].frame
  {
    seq(|list|, i requires 0 <= i < |list| => list[i].frame)
  }

  lemma LoadedSizes(root: MidiRoot)
    requires root.Loaded()
    ensures root.sampleRate > 0 && root.muted.Length == root.hasData.Length == CHANNELS
  {
  }

  /** The list holds the records of exactly the frames that matter, in ascending order. */
  lemma LoadedFrames(root: MidiRoot)
    requires root.Loaded()
    ensures Ascending(FramesOf(root.list)) && CoversStream(root.stream, FramesOf(root.list))
  {
    var frames := FramesOf(root.list);
    forall i | 0 <= i < |root.stream| ensures root.stream[i].frame in frames {
      var frame := root.stream[i].frame;
      assert Occupied(root.stream, frame);
      var j :| 0 <= j < |root.list| && root.list[j] == root.data[frame];
      assert frames[j] == frame;
    }
  }

  lemma LoadedRecord(root: MidiRoot, k: nat)
    requires root.Loaded() && k < |root.list|
    ensures root.list[k].next == if k + 1 < |root.list| then root.list[k + 1] else null
    ensures root.list[k].events == EventsAt(root.stream, root.list[k].frame)
  {
    assert root.EventsUnder(root.list[k].frame) == root.list[k].events;
  }

  /** Where the entry point of a frame stands in the list: no record at or after the frame is before it.
      When there is no entry point every record lies before the frame. */
  lemma EntryPointPosition(root: MidiRoot, pos: Word) returns (k: nat)
    requires root.Loaded()
    ensures k <= |root.list|
    ensures root.LookupEntryPoint(pos) == if k < |root.list| then root.list[k] else null
    ensures forall j :: 0 <= j < k ==> root.list[j].frame < pos
  {
    SecondIsBefore(pos, root.sampleRate);
    var seek: Word := pos / root.sampleRate * root.sampleRate;
    if seek in root.data {
      assert root.data[seek] in root.list;
      k :| 0 <= k < |root.list| && root.list[k] == root.data[seek];
    } else {
      k := |root.list|;
      LastFrameIsMax(root.stream);
      assert root.lastFrame <= seek;
    }
  }
}
