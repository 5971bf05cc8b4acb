/** How elements become placed events: the running tempo state of jpmidi.c and what it computes. */
module TempoMap {
  import opened Common
  import opened Elements

  /** The tempo part of struct jpmidi_root; samples per tick is sampleRate * mpq / (1000000 * timeBase). */
  datatype TempoState = TempoState(sampleRate: nat, timeBase: nat, mpq: nat, xFrame: Word, xTick: Word)

  const DEFAULT_MPQ := 500000

  /** The state jpmidi_root_new starts from; the time base arrives with the root element. */
  function InitialTempo(sampleRate: nat): TempoState {
    TempoState(sampleRate, 0, DEFAULT_MPQ, 0, 0)
  }

  /** Microseconds times ticks per quarter: the denominator of samples per tick. */
  function Denominator(ts: TempoState): nat {
    1000000 * ts.timeBase
  }

  /** `dt` ticks in units of 1/Denominator frames, without rounding. */
  function Scaled(ts: TempoState, dt: nat): nat {
    ts.sampleRate * ts.mpq * dt
  }

  /** The truncating conversion of a scaled position to frames. */
  function WholeFrames(scaled: nat, d: nat): nat
    requires d > 0
  {
    scaled / d
  }

  /** The frame of a tick under the current tempo, in 32-bit unsigned arithmetic. */
  function FrameAt(ts: TempoState, tick: Word): Word
    requires ts.timeBase > 0
  {
    U32(ts.xFrame + WholeFrames(Scaled(ts, U32(tick - ts.xTick)), Denominator(ts)))
  }

  /** The tempo state after one element. */
  function Advance(ts: TempoState, el: Element): TempoState
    requires el.Root? || ts.timeBase > 0
  {
    match el
    case Root(_, timeBase) => ts.(timeBase := timeBase)
    case Tempo(time, microTempo) => ts.(xFrame := FrameAt(ts, time), xTick := time, mpq := microTempo)
    case _ => ts
  }

  /** The tick at which a note's note-off is scheduled. */
  function OffTick(el: Element): Word
    requires el.Note?
  {
    U32(el.time + el.length)
  }

  /** The bytes sent for an element (its note-on bytes when it is a note). */
  function OnBytes(el: Element): MidiData
    requires el.HasChannel() || el.Sysex?
  {
    match el
    case Note(_, ch, key, vel, _, _) => [Status(0x90, ch), key, vel]
    case KeyTouch(_, ch, key, vel) => [Status(0xA0, ch), key, vel]
    case Control(_, ch, control, setting) => [Status(0xB0, ch), control, setting]
    case Program(_, ch, program) => [Status(0xC0, ch), program]
    case Pressure(_, ch, vel) => [Status(0xD0, ch), vel]
    case Pitch(_, ch, bend) => [Status(0xE0, ch), (bend + 0x2000) % 64, (bend + 0x2000) / 128 % 256]
    case Sysex(_, _, data) => [0xF0] + data
  }

  function OffBytes(el: Element): MidiData
    requires el.Note?
  {
    [Status(0x80, el.channel), el.key, el.offVelocity]
  }

  /** The events stored for one element under tempo state `ts`, in the order they are stored. */
  function EventsOf(ts: TempoState, el: Element): seq<Placed>
    requires el.Root? || ts.timeBase > 0
  {
    if el.Note? then
      [Placed(FrameAt(ts, el.time), Event(OnBytes(el), el)), Placed(FrameAt(ts, OffTick(el)), Event(OffBytes(el), el))]
    else if el.HasChannel() || el.Sysex? then
      [Placed(FrameAt(ts, el.time), Event(OnBytes(el), el))]
    else
      []
  }

  /** The root element is the only one that may set the time base, and it sets a positive one. */
  ghost predicate Processable(ts: TempoState, els: seq<Element>) {
    (forall i :: 0 <= i < |els| && els[i].Root? ==> els[i].timeBase > 0) &&
    (els != [] ==> ts.timeBase > 0 || els[0].Root?)
  }

  /** The tempo state after a sequence of elements, oldest first. */
  function TempoAfter(ts: TempoState, els: seq<Element>): (r: TempoState)
    requires Processable(ts, els)
    ensures els != [] || ts.timeBase > 0 ==> r.timeBase > 0
    ensures r.sampleRate == ts.sampleRate
    decreases |els|
  {
    if els == [] then ts else
    var front := els[..|els| - 1];
    assert front != [] ==> front[0] == els[0];
    Advance(TempoAfter(ts, front), els[|els| - 1])
  }

  /** Every event stored while processing a sequence of elements, in processing order. */
  function Placements(ts: TempoState, els: seq<Element>): seq<Placed>
    requires Processable(ts, els)
    decreases |els|
  {
    if els == [] then [] else
    var front := els[..|els| - 1];
    assert front != [] ==> front[0] == els[0];
    Placements(ts, front) + EventsOf(TempoAfter(ts, front), els[|els| - 1])
  }

  // ----- the tempo map as a stateless function of the tick

  /** Tempo-map entries in order of time; none of them is a root element. */
  ghost predicate IsTempoMap(maps: seq<Element>) {
    (forall i :: 0 <= i < |maps| ==> !maps[i].Root?) &&
    (forall i, j :: 0 <= i < j < |maps| ==> maps[i].time <= maps[j].time)
  }

  /** How many leading map entries are at or before a tick. */
  function MapPrefix(maps: seq<Element>, tick: Word): (n: nat)
    ensures n <= |maps|
    ensures forall i :: 0 <= i < n ==> maps[i].time <= tick
    ensures n < |maps| ==> tick < maps[n].time
    ensures forall i :: n <= i < |maps| && IsTempoMap(maps) ==> tick < maps[i].time
  {
    if maps == [] || tick < maps[0].time then 0 else
    var n := MapPrefix(maps[1..], tick);
    assert forall i :: 0 < i < n + 1 ==> maps[i] == maps[1..][i - 1];
    1 + n
  }

  /** The tempo in force at a tick. */
  function TempoAt(ts: TempoState, maps: seq<Element>, tick: Word): (r: TempoState)
    requires ts.timeBase > 0 && IsTempoMap(maps)
    ensures r.timeBase > 0
  {
    TempoAfter(ts, maps[..MapPrefix(maps, tick)])
  }

  /** The frame the tempo map gives for a tick. */
  function TempoFrame(ts: TempoState, maps: seq<Element>, tick: Word): Word
    requires ts.timeBase > 0 && IsTempoMap(maps)
  {
    FrameAt(TempoAt(ts, maps, tick), tick)
  }

  // ----- exact positions and the error bound

  function ScaledFrames(frame: nat, d: nat): nat {
    d * frame
  }

  /** The scaled exact position is not before the frame and at most k frames after it. */
  ghost predicate LagsAtMost(frame: nat, exact: nat, d: nat, k: nat) {
    d * frame <= exact <= d * frame + k * d
  }

  /** The scaled exact position is not before the frame and less than k frames after it. */
  ghost predicate LagsLessThan(frame: nat, exact: nat, d: nat, k: nat) {
    d * frame <= exact < d * frame + k * d
  }

  /** The scaled exact position is below frame 2^32. */
  ghost predicate Fits(exact: nat, d: nat) {
    exact < TWO_32 * d
  }

  function TempoChanges(els: seq<Element>): nat {
    if els == [] then 0 else TempoChanges(els[..|els| - 1]) + (if els[|els| - 1].Tempo? then 1 else 0)
  }

  /** The exact position of the last tempo change, in units of 1/Denominator frames. */
  function ExactAtChange(ts: TempoState, els: seq<Element>): nat
    requires ts.timeBase > 0 && IsTempoMap(els)
    decreases |els|, 0
  {
    if els == [] then ScaledFrames(ts.xFrame, Denominator(ts)) else
    var front, last := els[..|els| - 1], els[|els| - 1];
    if last.Tempo? then ExactAt(ts, front, last.time) else ExactAtChange(ts, front)
  }

  /** The exact position of a tick: the piecewise-linear tempo map without any truncation. */
  function ExactAt(ts: TempoState, els: seq<Element>, tick: Word): nat
    requires ts.timeBase > 0 && IsTempoMap(els)
    decreases |els|, 1
  {
    var now := TempoAfter(ts, els);
    ExactAtChange(ts, els) + Scaled(now, if tick < now.xTick then 0 else tick - now.xTick)
  }

  ghost predicate TimesWithin(els: seq<Element>, low: nat, high: nat) {
    low <= high && forall i :: 0 <= i < |els| ==> low <= els[i].time <= high
  }

  /** Tempo changes keep the time base, and the last change is one of the ticks seen. */
  lemma {:induction false} TempoShape(ts: TempoState, els: seq<Element>, tick: Word)
    requires ts.timeBase > 0 && IsTempoMap(els) && TimesWithin(els, ts.xTick, tick)
    ensures TempoAfter(ts, els).timeBase == ts.timeBase
    ensures Denominator(TempoAfter(ts, els)) == Denominator(ts) > 0
    ensures ts.xTick <= TempoAfter(ts, els).xTick <= tick
    decreases |els|
  {
    if els != [] {
      TempoShape(ts, els[..|els| - 1], tick);
    }
  }

  lemma LessByFactor(d: nat, a: nat, b: nat)
    requires d * a < d * b
    ensures a < b
  {
  }

  /** One truncation adds less than one frame of lag, and a fitting position does not wrap around. */
  lemma FloorStep(d: nat, xFrame: nat, s: nat, exact: nat, k: nat)
    requires d > 0 && LagsAtMost(xFrame, exact, d, k) && Fits(exact + s, d)
    ensures xFrame + WholeFrames(s, d) < TWO_32
    ensures LagsLessThan(xFrame + WholeFrames(s, d), exact + s, d, k + 1)
    ensures LagsAtMost(xFrame + WholeFrames(s, d), exact + s, d, k + 1)
  {
    var q := s / d;
    assert d * q <= s < d * q + d;
    assert d * (xFrame + q) == d * xFrame + d * q;
    assert (k + 1) * d == k * d + d;
    LessByFactor(d, xFrame + q, TWO_32);
  }

  lemma NoLag(frame: nat, d: nat)
    ensures LagsAtMost(frame, ScaledFrames(frame, d), d, 0)
  {
  }

  lemma WholeFramesMonotone(x: nat, y: nat, d: nat)
    requires d > 0 && x <= y
    ensures WholeFrames(x, d) <= WholeFrames(y, d)
  {
    assert d * (y / d + 1) == d * (y / d) + d;
    LessByFactor(d, x / d, y / d + 1);
  }

  lemma ScaledMonotone(ts: TempoState, a: nat, b: nat)
    requires a <= b
    ensures Scaled(ts, a) <= Scaled(ts, b)
  {
    var rate := ts.sampleRate * ts.mpq;
    assert rate * b == rate * a + rate * (b - a);
  }

  lemma FitsBelow(a: nat, b: nat, d: nat)
    requires a <= b && Fits(b, d)
    ensures Fits(a, d)
  {
  }

  /** After k tempo changes the recorded frame of the last change lags the exact position by at most k frames. */
  lemma {:induction false} ChangeErrorBound(ts: TempoState, els: seq<Element>)
    requires ts.timeBase > 0 && IsTempoMap(els)
    requires TimesWithin(els, ts.xTick, TWO_32)
    requires Fits(ExactAtChange(ts, els), Denominator(ts))
    ensures LagsAtMost(TempoAfter(ts, els).xFrame, ExactAtChange(ts, els), Denominator(ts), TempoChanges(els))
    decreases |els|, 0
  {
    hide Scaled, ScaledFrames, Denominator, WholeFrames, LagsAtMost, LagsLessThan, Fits, FrameAt;
    if els == [] {
      NoLag(ts.xFrame, Denominator(ts));
    } else {
      var front, last := els[..|els| - 1], els[|els| - 1];
      if last.Tempo? {
        PositionBound(ts, front, last.time);
      } else {
        ChangeErrorBound(ts, front);
      }
    }
  }

  lemma FrameNoWrap(ts: TempoState, tick: Word)
    requires ts.timeBase > 0 && ts.xTick <= tick
    requires ts.xFrame + WholeFrames(Scaled(ts, tick - ts.xTick), Denominator(ts)) < TWO_32
    ensures FrameAt(ts, tick) == ts.xFrame + WholeFrames(Scaled(ts, tick - ts.xTick), Denominator(ts))
  {
    hide Scaled, WholeFrames, Denominator;
  }

  /** One position of the tempo map: no wrap-around, never late, and less than k+1 frames early. */
  lemma {:induction false} PositionBound(ts: TempoState, els: seq<Element>, tick: Word)
    requires ts.timeBase > 0 && IsTempoMap(els)
    requires TimesWithin(els, ts.xTick, tick)
    requires Fits(ExactAt(ts, els, tick), Denominator(ts))
    ensures var now := TempoAfter(ts, els);
            now.xTick <= tick &&
            FrameAt(now, tick) == now.xFrame + WholeFrames(Scaled(now, tick - now.xTick), Denominator(ts))
    ensures LagsLessThan(FrameAt(TempoAfter(ts, els), tick), ExactAt(ts, els, tick), Denominator(ts), TempoChanges(els) + 1)
    ensures LagsAtMost(FrameAt(TempoAfter(ts, els), tick), ExactAt(ts, els, tick), Denominator(ts), TempoChanges(els) + 1)
    decreases |els|, 1
  {
    hide Scaled, ScaledFrames, Denominator, WholeFrames, LagsAtMost, LagsLessThan, Fits, FrameAt, TempoAfter, ExactAtChange;
    TempoShape(ts, els, tick);
    var now, d, e := TempoAfter(ts, els), Denominator(ts), ExactAtChange(ts, els);
    FitsBelow(e, ExactAt(ts, els, tick), d);
    ChangeErrorBound(ts, els);
    FloorStep(d, now.xFrame, Scaled(now, tick - now.xTick), e, TempoChanges(els));
    FrameNoWrap(now, tick);
  }

  /** Within one tempo segment both the exact and the recorded position grow with the tick. */
  lemma SegmentMonotone(ts: TempoState, els: seq<Element>, t1: Word, t2: Word)
    requires ts.timeBase > 0 && IsTempoMap(els)
    requires TimesWithin(els, ts.xTick, t1) && t1 <= t2
    requires Fits(ExactAt(ts, els, t2), Denominator(ts))
    ensures Fits(ExactAt(ts, els, t1), Denominator(ts))
    ensures FrameAt(TempoAfter(ts, els), t1) <= FrameAt(TempoAfter(ts, els), t2)
  {
    hide Scaled, ScaledFrames, Denominator, WholeFrames, LagsAtMost, LagsLessThan, Fits;
    var now := TempoAfter(ts, els);
    PositionBound(ts, els, t2);
    TempoShape(ts, els, t1);
    ScaledMonotone(now, t1 - now.xTick, t2 - now.xTick);
    FitsBelow(ExactAt(ts, els, t1), ExactAt(ts, els, t2), Denominator(ts));
    PositionBound(ts, els, t1);
    WholeFramesMonotone(Scaled(now, t1 - now.xTick), Scaled(now, t2 - now.xTick), Denominator(ts));
  }

  /** A tempo change starts its segment at the frame where the previous segment left off. */
  lemma ChangeContinues(ts: TempoState, els: seq<Element>, t2: Word)
    requires ts.timeBase > 0 && IsTempoMap(els) && els != [] && els[|els| - 1].Tempo?
    requires TimesWithin(els, ts.xTick, t2)
    requires Fits(ExactAt(ts, els, t2), Denominator(ts))
    ensures var front, m := els[..|els| - 1], els[|els| - 1];
            Fits(ExactAt(ts, front, m.time), Denominator(ts)) &&
            FrameAt(TempoAfter(ts, front), m.time) <= FrameAt(TempoAfter(ts, els), t2)
  {
    hide Scaled, ScaledFrames, Denominator, WholeFrames, LagsAtMost, LagsLessThan, Fits;
    TempoShape(ts, els, t2);
    PositionBound(ts, els, t2);
    FitsBelow(ExactAtChange(ts, els), ExactAt(ts, els, t2), Denominator(ts));
  }

  /** The last entry before a position is no later than the position, whether it changes the tempo or not. */
  lemma EntryContinues(ts: TempoState, maps: seq<Element>, n: nat, t: Word)
    requires ts.timeBase > 0 && IsTempoMap(maps) && 0 < n <= |maps| && TimesWithin(maps, ts.xTick, TWO_32)
    requires ts.xTick <= t && forall i :: 0 <= i < n ==> maps[i].time <= t
    requires Fits(ExactAt(ts, maps[..n], t), Denominator(ts))
    ensures var m := maps[n - 1];
            Fits(ExactAt(ts, maps[..n - 1], m.time), Denominator(ts)) &&
            FrameAt(TempoAfter(ts, maps[..n - 1]), m.time) <= FrameAt(TempoAfter(ts, maps[..n]), t)
  {
    hide Scaled, ScaledFrames, Denominator, WholeFrames, LagsAtMost, LagsLessThan, Fits, FrameAt;
    assert maps[..n][..n - 1] == maps[..n - 1];
    if maps[n - 1].Tempo? {
      ChangeContinues(ts, maps[..n], t);
    } else {
      assert TempoAfter(ts, maps[..n - 1]) == TempoAfter(ts, maps[..n]);
      SegmentMonotone(ts, maps[..n - 1], maps[n - 1].time, t);
    }
  }

  /** Positions later in the map have frames at least as large, across any number of tempo changes. */
  lemma {:induction false} PositionsMonotone(ts: TempoState, maps: seq<Element>, n1: nat, t1: Word, n2: nat, t2: Word)
    requires ts.timeBase > 0 && IsTempoMap(maps) && n1 <= n2 <= |maps|
    requires TimesWithin(maps, ts.xTick, TWO_32)
    requires forall i :: 0 <= i < n1 ==> maps[i].time <= t1
    requires forall i :: n1 <= i < n2 ==> t1 <= maps[i].time <= t2
    requires ts.xTick <= t1 <= t2
    requires Fits(ExactAt(ts, maps[..n2], t2), Denominator(ts))
    ensures FrameAt(TempoAfter(ts, maps[..n1]), t1) <= FrameAt(TempoAfter(ts, maps[..n2]), t2)
    decreases n2
  {
    hide Scaled, ScaledFrames, Denominator, WholeFrames, LagsAtMost, LagsLessThan, Fits, FrameAt, TempoAfter, ExactAt;
    if n1 == n2 {
      SegmentMonotone(ts, maps[..n2], t1, t2);
    } else {
      var m := maps[n2 - 1];
      EntryContinues(ts, maps, n2, t2);
      PositionsMonotone(ts, maps, n1, t1, n2 - 1, m.time);
    }
  }

  /** Tick-to-frame is monotone over the whole tempo map. */
  lemma {:induction false} TempoFrameMonotone(ts: TempoState, maps: seq<Element>, t1: Word, t2: Word)
    requires ts.timeBase > 0 && IsTempoMap(maps)
    requires TimesWithin(maps, ts.xTick, TWO_32)
    requires ts.xTick <= t1 <= t2
    requires Fits(ExactAt(ts, maps[..MapPrefix(maps, t2)], t2), Denominator(ts))
    ensures TempoFrame(ts, maps, t1) <= TempoFrame(ts, maps, t2)
  {
    hide Scaled, ScaledFrames, Denominator, WholeFrames, LagsAtMost, LagsLessThan, Fits;
    var n1, n2 := MapPrefix(maps, t1), MapPrefix(maps, t2);
    assert n2 < |maps| ==> t1 < maps[n2].time;
    PositionsMonotone(ts, maps, n1, t1, n2, t2);
  }

  // ----- note-offs

  lemma ZeroScaled(ts: TempoState)
    ensures Scaled(ts, 0) == 0
  {
  }

  lemma ZeroFrames(d: nat)
    requires d > 0
    ensures WholeFrames(0, d) == 0
  {
  }

  lemma FrameAtChange(ts: TempoState)
    requires ts.timeBase > 0
    ensures FrameAt(ts, ts.xTick) == ts.xFrame
  {
    hide Scaled, WholeFrames;
    ZeroScaled(ts);
    ZeroFrames(Denominator(ts));
  }

  lemma {:induction false} ChangesAtTick(ts: TempoState, maps: seq<Element>, n1: nat, n2: nat, tick: Word)
    requires ts.timeBase > 0 && IsTempoMap(maps) && n1 <= n2 <= |maps|
    requires forall i :: n1 <= i < n2 && maps[i].Tempo? ==> maps[i].time == tick
    ensures FrameAt(TempoAfter(ts, maps[..n1]), tick) == FrameAt(TempoAfter(ts, maps[..n2]), tick)
    decreases n2
  {
    hide FrameAt;
    if n1 < n2 {
      ChangesAtTick(ts, maps, n1, n2 - 1, tick);
      assert maps[..n2][..n2 - 1] == maps[..n2 - 1];
      FrameAtChange(TempoAfter(ts, maps[..n2]));
    }
  }

  /** A note-off is placed with the tempo of its note-on; that is the tempo map's frame for the
      note-off tick whenever no tempo change lies strictly between the two ticks. */
  lemma {:induction false} NoteOffFrameAgrees(ts: TempoState, maps: seq<Element>, el: Element)
    requires ts.timeBase > 0 && IsTempoMap(maps) && el.Note? && el.time <= OffTick(el)
    requires forall i :: 0 <= i < |maps| && maps[i].Tempo? ==> !(el.time < maps[i].time < OffTick(el))
    ensures EventsOf(TempoAt(ts, maps, el.time), el)[1].frame == TempoFrame(ts, maps, OffTick(el))
  {
    var n1, n2 := MapPrefix(maps, el.time), MapPrefix(maps, OffTick(el));
    assert n2 < |maps| ==> el.time < maps[n2].time;
    ChangesAtTick(ts, maps, n1, n2, OffTick(el));
  }

  /** A note's note-on is never placed after its note-off. */
  lemma NoteFramesOrdered(ts: TempoState, maps: seq<Element>, el: Element)
    requires ts.timeBase > 0 && IsTempoMap(maps) && el.Note? && ts.xTick <= el.time <= OffTick(el)
    requires TimesWithin(maps, ts.xTick, TWO_32)
    requires Fits(ExactAt(ts, maps[..MapPrefix(maps, el.time)], OffTick(el)), Denominator(ts))
    ensures var events := EventsOf(TempoAt(ts, maps, el.time), el);
            |events| == 2 && events[0].frame == TempoFrame(ts, maps, el.time) && events[0].frame <= events[1].frame
  {
    hide FrameAt, Scaled, ScaledFrames, Denominator, WholeFrames, Fits;
    SegmentMonotone(ts, maps[..MapPrefix(maps, el.time)], el.time, OffTick(el));
  }

  /** A tempo change inside a note moves its note-off away from the tempo map's frame. */
  lemma NoteOffFrameDiffers()
    ensures var ts := TempoState(48000, 96, 500000, 0, 0);
            var maps := [Tempo(50, 250000)];
            var el := Note(0, 0, 60, 64, 100, 0);
            EventsOf(TempoAt(ts, maps, el.time), el)[1].frame == 25000 && TempoFrame(ts, maps, OffTick(el)) == 18750
  {
    hide FrameAt, OnBytes, OffBytes;
    var ts, later := TempoState(48000, 96, 500000, 0, 0), TempoState(48000, 96, 250000, 12500, 50);
    var maps := [Tempo(50, 250000)];
    FramesOfExample();
    assert maps[..0] == [] && maps[..1] == maps;
    assert MapPrefix(maps, 0) == 0;
    PrefixOfExample();
    assert TempoAt(ts, maps, 0) == ts;
    assert TempoAfter(ts, []) == ts;
    assert TempoAt(ts, maps, 100) == later;
  }

  lemma Scale(d: nat, a: nat, b: nat)
    ensures d * (a - b) == d * a - d * b
    ensures d > 0 && d * a < d * b ==> a < b
  {
  }

  // ----- a tempo map from the middle on

  lemma {:induction false} SplitTempo(ts: TempoState, a: seq<Element>, b: seq<Element>)
    requires ts.timeBase > 0 && IsTempoMap(a + b)
    ensures IsTempoMap(a) && IsTempoMap(b)
    ensures TempoAfter(ts, a + b) == TempoAfter(TempoAfter(ts, a), b)
    ensures Denominator(TempoAfter(ts, a)) == Denominator(ts)
    decreases |a| + |b|
  {
    hide FrameAt;
    MapParts(a, b);
    if b != [] {
      var front := b[..|b| - 1];
      assert (a + b)[..|a + b| - 1] == a + front;
      SplitTempo(ts, a, front);
    } else {
      assert a + b == a;
      if a != [] {
        var front := a[..|a| - 1];
        assert front + [] == front;
        SplitTempo(ts, front, []);
      }
    }
  }

  lemma MapParts(a: seq<Element>, b: seq<Element>)
    requires IsTempoMap(a + b)
    ensures IsTempoMap(a) && IsTempoMap(b) && (b != [] ==> IsTempoMap(a + b[..|b| - 1]))
  {
    assert forall i :: 0 <= i < |a| ==> (a + b)[i] == a[i];
    assert forall i :: 0 <= i < |b| ==> (a + b)[|a| + i] == b[i];
    if b != [] {
      assert a + b[..|b| - 1] == (a + b)[..|a + b| - 1];
    }
  }

  /** Exact positions after a split differ only by the rounding before it. */
  lemma {:induction false} SplitExactChange(ts: TempoState, a: seq<Element>, b: seq<Element>)
    requires ts.timeBase > 0 && IsTempoMap(a + b)
    ensures IsTempoMap(a) && IsTempoMap(b)
    ensures var now := TempoAfter(ts, a);
            ExactAtChange(ts, a + b) + ScaledFrames(now.xFrame, Denominator(ts)) == ExactAtChange(ts, a) + ExactAtChange(now, b)
    decreases |b|, 0
  {
    hide FrameAt, Scaled, ScaledFrames, ExactAt;
    MapParts(a, b);
    SplitTempo(ts, a, b);
    if b == [] {
      assert a + b == a;
    } else {
      var front, last := b[..|b| - 1], b[|b| - 1];
      assert (a + b)[..|a + b| - 1] == a + front;
      if last.Tempo? {
        SplitExact(ts, a, front, last.time);
      } else {
        SplitExactChange(ts, a, front);
      }
    }
  }

  lemma {:induction false} SplitExact(ts: TempoState, a: seq<Element>, b: seq<Element>, tick: Word)
    requires ts.timeBase > 0 && IsTempoMap(a + b)
    ensures IsTempoMap(a) && IsTempoMap(b)
    ensures var now := TempoAfter(ts, a);
            ExactAt(ts, a + b, tick) + ScaledFrames(now.xFrame, Denominator(ts)) == ExactAtChange(ts, a) + ExactAt(now, b, tick)
    decreases |b|, 1
  {
    hide FrameAt, Scaled, ScaledFrames, TempoAfter, IsTempoMap;
    SplitTempo(ts, a, b);
    SplitExactChange(ts, a, b);
  }

  /** A position that fits still fits when it is counted from the rounded start of a later segment. */
  lemma SplitFits(ts: TempoState, a: seq<Element>, b: seq<Element>, tick: Word)
    requires ts.timeBase > 0 && IsTempoMap(a + b) && IsTempoMap(a) && IsTempoMap(b)
    requires TimesWithin(a, ts.xTick, TWO_32) && Fits(ExactAt(ts, a + b, tick), Denominator(ts))
    requires Fits(ExactAtChange(ts, a), Denominator(ts))
    ensures Fits(ExactAt(TempoAfter(ts, a), b, tick), Denominator(ts))
  {
    hide FrameAt, ExactAt, TempoAfter, IsTempoMap, TimesWithin, Denominator, ExactAtChange;
    SplitExact(ts, a, b, tick);
    ChangeErrorBound(ts, a);
  }

  lemma SplitTimes(ts: TempoState, maps: seq<Element>, n1: nat, n2: nat, tick: Word)
    requires ts.timeBase > 0 && IsTempoMap(maps) && n1 <= n2 <= |maps| && TimesWithin(maps, ts.xTick, TWO_32) && ts.xTick <= tick
    requires forall i :: 0 <= i < n2 ==> maps[i].time <= tick
    ensures maps[..n1] + maps[n1..n2] == maps[..n2] && IsTempoMap(maps[..n1]) && IsTempoMap(maps[n1..n2]) && IsTempoMap(maps[..n2])
    ensures TimesWithin(maps[..n1], ts.xTick, tick)
    ensures TimesWithin(maps[n1..n2], TempoAfter(ts, maps[..n1]).xTick, tick)
  {
    hide TempoAfter;
    SliceOfMap(maps, n1, n2);
    var on := maps[..n1];
    TempoShape(ts, on, tick);
    forall i | n1 <= i < n2 ensures TempoAfter(ts, on).xTick <= maps[i].time {
      TempoShape(ts, on, maps[i].time);
    }
  }

  lemma SliceOfMap(maps: seq<Element>, n1: nat, n2: nat)
    requires IsTempoMap(maps) && n1 <= n2 <= |maps|
    ensures maps[..n1] + maps[n1..n2] == maps[..n2] && IsTempoMap(maps[..n1]) && IsTempoMap(maps[n1..n2]) && IsTempoMap(maps[..n2])
  {
    hide IsTempoMap;
    SliceIsMap(maps, 0, n1, maps[..n1]);
    SliceIsMap(maps, n1, n2, maps[n1..n2]);
    SliceIsMap(maps, 0, n2, maps[..n2]);
  }

  lemma SliceIsMap(maps: seq<Element>, low: nat, high: nat, slice: seq<Element>)
    requires IsTempoMap(maps) && low <= high <= |maps| && |slice| == high - low
    requires forall i :: 0 <= i < |slice| ==> slice[i] == maps[low + i]
    ensures IsTempoMap(slice)
  {
    forall i, j | 0 <= i < j < |slice| ensures slice[i].time <= slice[j].time {
      assert slice[i] == maps[low + i] && slice[j] == maps[low + j];
    }
  }

  /** Two frames are `gap` apart (in units of 1/d frames), up to less than one frame on one side and less than k+1 on the
      other; and when the gap is at least that much in either direction, the frames differ in that direction. */
  ghost predicate ApartBy(placed: nat, mapped: nat, d: nat, gap: int, k: nat) {
    gap - d < d * (placed - mapped) < gap + (k + 1) * d &&
    (gap >= d ==> placed > mapped) && (-gap >= (k + 1) * d ==> placed < mapped)
  }

  /** How far a note-off is placed from the tempo map's frame. With k tempo changes inside the note the distance is the
      difference between the exact position under the tempo of the note-on and the exact position of the map, up to less
      than one frame on one side and less than k+1 frames on the other; rounding before the note does not enter. When the
      difference is at least that much, in either direction, the note-off is misplaced in that direction. */
  lemma NoteOffMisplaced(ts: TempoState, maps: seq<Element>, el: Element)
    requires ts.timeBase > 0 && IsTempoMap(maps) && el.Note? && ts.xTick <= el.time <= OffTick(el)
    requires TimesWithin(maps, ts.xTick, TWO_32)
    requires Fits(ExactAt(ts, maps[..MapPrefix(maps, el.time)], OffTick(el)), Denominator(ts))
    requires Fits(ExactAt(ts, maps[..MapPrefix(maps, OffTick(el))], OffTick(el)), Denominator(ts))
    ensures var n1, n2, d := MapPrefix(maps, el.time), MapPrefix(maps, OffTick(el)), Denominator(ts);
            n1 <= n2 &&
            var inside := TempoChanges(maps[n1..n2]);
            var exactOn, exactOff := ExactAt(ts, maps[..n1], OffTick(el)), ExactAt(ts, maps[..n2], OffTick(el));
            var placed, mapped := EventsOf(TempoAt(ts, maps, el.time), el)[1].frame, TempoFrame(ts, maps, OffTick(el));
            ApartBy(placed, mapped, d, exactOn - exactOff, inside)
  {
    hide FrameAt, Denominator, ExactAt, Fits, OffTick, MapPrefix, TempoAfter, TempoChanges, TimesWithin, IsTempoMap, ApartBy;
    var tick, n1, n2 := OffTick(el), MapPrefix(maps, el.time), MapPrefix(maps, OffTick(el));
    PrefixesGrow(maps, el.time, tick);
    SplitTimes(ts, maps, n1, n2, tick);
    MisplacedBy(ts, maps[..n1], maps[n1..n2], tick);
  }

  // ----- positions written out

  /** The frame of a tick after the last tempo change, as the tempo equation has it: frames times 1000000 times ticks per
      quarter is sample rate times microseconds per quarter times ticks, up to less than one frame. */
  lemma FrameEquation(ts: TempoState, tick: Word)
    requires ts.timeBase > 0 && ts.xTick <= tick
    requires ts.sampleRate * ts.mpq * (tick - ts.xTick) < (0x1_0000_0000 - ts.xFrame) * (1000000 * ts.timeBase)
    ensures var n := FrameAt(ts, tick) - ts.xFrame;
            0 <= n && n * (1000000 * ts.timeBase) <= ts.sampleRate * ts.mpq * (tick - ts.xTick) < (n + 1) * (1000000 * ts.timeBase)
  {
    var d, p := 1000000 * ts.timeBase, ts.sampleRate * ts.mpq * (tick - ts.xTick);
    FloorBetween(p, d, 0x1_0000_0000 - ts.xFrame);
    assert Scaled(ts, tick - ts.xTick) == p && WholeFrames(p, d) == p / d;
    FrameNoWrap(ts, tick);
  }

  /** A tick before the last tempo change counts as 2^32 ticks later, and frames are taken modulo 2^32. */
  lemma FrameModulo(ts: TempoState, tick: Word)
    requires ts.timeBase > 0
    ensures var dt := if tick < ts.xTick then tick - ts.xTick + 0x1_0000_0000 else tick - ts.xTick;
            exists n: nat, k: nat ::
              FrameAt(ts, tick) == ts.xFrame + n - k * 0x1_0000_0000 &&
              n * (1000000 * ts.timeBase) <= ts.sampleRate * ts.mpq * dt < (n + 1) * (1000000 * ts.timeBase)
  {
    hide WholeFrames, Scaled, Denominator;
    var dt := U32(tick - ts.xTick);
    var p, d := ts.sampleRate * ts.mpq * dt, 1000000 * ts.timeBase;
    ScaledWritten(ts, dt);
    var n := WholeFrames(p, d);
    FloorWritten(p, d);
    var k: nat := (ts.xFrame + n) / TWO_32;
    assert FrameAt(ts, tick) == ts.xFrame + n - k * 0x1_0000_0000;
  }

  lemma ScaledWritten(ts: TempoState, dt: nat)
    ensures Scaled(ts, dt) == ts.sampleRate * ts.mpq * dt && Denominator(ts) == 1000000 * ts.timeBase
  {
  }

  lemma FloorWritten(p: nat, d: nat)
    requires d > 0
    ensures WholeFrames(p, d) * d <= p < (WholeFrames(p, d) + 1) * d
  {
    var q := p / d;
    assert p == d * q + p % d;
  }

  lemma FloorBetween(p: nat, d: nat, bound: nat)
    requires d > 0 && p < bound * d
    ensures p / d * d <= p < (p / d + 1) * d && p / d < bound
  {
    var q := p / d;
    assert p == d * q + p % d;
    LessByFactor(d, q, bound);
  }

  /** Microseconds per quarter times ticks, summed over the tempo segments from one tick to another. */
  function MicroTicks(mpq: nat, from: nat, maps: seq<Element>, tick: nat): int
    decreases |maps|
  {
    if maps == [] then mpq * (tick - from)
    else if maps[0].Tempo? then mpq * (maps[0].time - from) + MicroTicks(maps[0].microTempo, maps[0].time, maps[1..], tick)
    else MicroTicks(mpq, from, maps[1..], tick)
  }

  lemma ExactAtFirst(ts: TempoState, first: Element, tick: Word)
    requires ts.timeBase > 0 && !first.Root? && IsTempoMap([first]) && ts.xTick <= first.time <= tick
    ensures Advance(ts, first).timeBase == ts.timeBase && Denominator(Advance(ts, first)) == Denominator(ts)
    ensures TempoAfter(ts, [first]) == Advance(ts, first)
    ensures ExactAtChange(ts, [first]) ==
            ScaledFrames(ts.xFrame, Denominator(ts)) + (if first.Tempo? then ts.sampleRate * ts.mpq * (first.time - ts.xTick) else 0)
  {
    hide FrameAt, ScaledFrames;
    assert [first][..0] == [];
    assert first.Tempo? ==> ExactAtChange(ts, [first]) == ExactAt(ts, [], first.time);
    assert ExactAtChange(ts, []) == ScaledFrames(ts.xFrame, Denominator(ts)) && TempoAfter(ts, []) == ts;
  }

  lemma RateTimes(rate: nat, mpq: nat, dt: nat, rest: int)
    ensures rate * (mpq * dt + rest) == rate * mpq * dt + rate * rest
  {
  }

  lemma RestOfMap(maps: seq<Element>, from: nat, tick: nat)
    requires IsTempoMap(maps) && TimesWithin(maps, from, tick) && maps != []
    ensures IsTempoMap(maps[1..]) && TimesWithin(maps[1..], maps[0].time, tick) && TimesWithin(maps[1..], from, tick)
    ensures !maps[0].Root? && IsTempoMap([maps[0]]) && [maps[0]] + maps[1..] == maps
  {
  }

  lemma ExactBase(ts: TempoState, tick: Word)
    requires ts.timeBase > 0 && ts.xTick <= tick
    ensures ExactAt(ts, [], tick) ==
            ScaledFrames(ts.xFrame, Denominator(ts)) + ts.sampleRate * MicroTicks(ts.mpq, ts.xTick, [], tick)
  {
    RateTimes(ts.sampleRate, ts.mpq, tick - ts.xTick, 0);
  }

  /** The exact position is the start plus sample rate times microseconds per quarter times ticks, segment by segment. */
  lemma {:induction false} ExactInMicroTicks(ts: TempoState, maps: seq<Element>, tick: Word)
    requires ts.timeBase > 0 && IsTempoMap(maps) && TimesWithin(maps, ts.xTick, tick)
    ensures ExactAt(ts, maps, tick) ==
            ScaledFrames(ts.xFrame, Denominator(ts)) + ts.sampleRate * MicroTicks(ts.mpq, ts.xTick, maps, tick)
    decreases |maps|
  {
    hide FrameAt, Denominator, ScaledFrames, ExactAt, TempoAfter, IsTempoMap, TimesWithin, ExactAtChange, Advance, MicroTicks;
    WithinFirst(maps, ts.xTick, tick);
    if maps == [] {
      ExactBase(ts, tick);
    } else {
      var first, rest := maps[0], maps[1..];
      RestOfMap(maps, ts.xTick, tick);
      ExactAtFirst(ts, first, tick);
      SplitTempo(ts, [first], rest);
      SplitExact(ts, [first], rest, tick);
      NextTempo(ts, first);
      ExactInMicroTicks(Advance(ts, first), rest, tick);
      MicroFirst(ts, maps, tick);
    }
  }

  lemma MicroFirst(ts: TempoState, maps: seq<Element>, tick: Word)
    requires maps != [] && ts.xTick <= maps[0].time
    ensures ts.sampleRate * MicroTicks(ts.mpq, ts.xTick, maps, tick) ==
            if maps[0].Tempo? then
              ts.sampleRate * ts.mpq * (maps[0].time - ts.xTick) +
              ts.sampleRate * MicroTicks(maps[0].microTempo, maps[0].time, maps[1..], tick)
            else ts.sampleRate * MicroTicks(ts.mpq, ts.xTick, maps[1..], tick)
  {
    if maps[0].Tempo? {
      RateTimes(ts.sampleRate, ts.mpq, maps[0].time - ts.xTick, MicroTicks(maps[0].microTempo, maps[0].time, maps[1..], tick));
    }
  }

  lemma WithinFirst(maps: seq<Element>, from: nat, tick: nat)
    requires TimesWithin(maps, from, tick)
    ensures from <= tick && (maps != [] ==> from <= maps[0].time <= tick)
  {
  }

  lemma NextTempo(ts: TempoState, first: Element)
    requires ts.timeBase > 0 && !first.Root?
    ensures var next := Advance(ts, first);
            next.sampleRate == ts.sampleRate &&
            if first.Tempo? then next.mpq == first.microTempo && next.xTick == first.time else next == ts
  {
  }

  /** The frame of a tick against its exact position, sample rate times microseconds per quarter times ticks summed over the
      tempo segments: it is never after it, and after k tempo changes it is less than k+1 frames before it. */
  lemma TempoErrorBound(ts: TempoState, maps: seq<Element>, tick: Word)
    requires ts.timeBase > 0 && IsTempoMap(maps) && TimesWithin(maps, ts.xTick, TWO_32) && ts.xTick <= tick
    ensures TimesWithin(maps[..MapPrefix(maps, tick)], ts.xTick, tick) && IsTempoMap(maps[..MapPrefix(maps, tick)])
    ensures var past := maps[..MapPrefix(maps, tick)];
            var exact := ts.xFrame * (1000000 * ts.timeBase) + ts.sampleRate * MicroTicks(ts.mpq, ts.xTick, past, tick);
            exact < 0x1_0000_0000 * (1000000 * ts.timeBase) ==>
              TempoFrame(ts, maps, tick) * (1000000 * ts.timeBase) <= exact <
              (TempoFrame(ts, maps, tick) + TempoChanges(past) + 1) * (1000000 * ts.timeBase)
  {
    hide FrameAt, Scaled, WholeFrames, TempoAfter, ExactAt, MicroTicks;
    var past, d := maps[..MapPrefix(maps, tick)], 1000000 * ts.timeBase;
    ExactInMicroTicks(ts, past, tick);
    var exact := ts.xFrame * d + ts.sampleRate * MicroTicks(ts.mpq, ts.xTick, past, tick);
    assert exact == ExactAt(ts, past, tick);
    if exact < 0x1_0000_0000 * d {
      PositionBound(ts, past, tick);
      LagWritten(TempoFrame(ts, maps, tick), exact, d, TempoChanges(past) + 1);
    }
  }

  lemma LagWritten(frame: nat, exact: nat, d: nat, k: nat)
    requires LagsLessThan(frame, exact, d, k)
    ensures frame * d <= exact < (frame + k) * d
  {
  }

  // ----- the exact condition, segment by segment

  /** The frames of each tempo segment from the last change before `mid` up to a tick, rounded down one by one. */
  ghost function SegmentFrames(ts: TempoState, mid: seq<Element>, tick: Word): nat
    requires ts.timeBase > 0 && TimesWithin(mid, ts.xTick, tick) && IsTempoMap(mid)
    decreases |mid|
  {
    if mid == [] then WholeFrames(Scaled(ts, tick - ts.xTick), Denominator(ts))
    else if mid[0].Tempo? then
      WholeFrames(Scaled(ts, mid[0].time - ts.xTick), Denominator(ts)) +
      SegmentFrames(ts.(xTick := mid[0].time, mpq := mid[0].microTempo), mid[1..], tick)
    else SegmentFrames(ts, mid[1..], tick)
  }

  lemma {:induction false} SegmentsForgetFrame(ts: TempoState, frame: Word, mid: seq<Element>, tick: Word)
    requires ts.timeBase > 0 && TimesWithin(mid, ts.xTick, tick) && IsTempoMap(mid)
    ensures SegmentFrames(ts.(xFrame := frame), mid, tick) == SegmentFrames(ts, mid, tick)
    decreases |mid|
  {
    hide WholeFrames;
    if mid != [] {
      if mid[0].Tempo? {
        SegmentsForgetFrame(ts.(xTick := mid[0].time, mpq := mid[0].microTempo), frame, mid[1..], tick);
      } else {
        SegmentsForgetFrame(ts, frame, mid[1..], tick);
      }
    }
  }

  lemma FrameInSegment(ts: TempoState, tick: Word)
    requires ts.timeBase > 0 && ts.xTick <= tick
    ensures FrameAt(ts, tick) == U32(ts.xFrame + WholeFrames(Scaled(ts, tick - ts.xTick), Denominator(ts)))
  {
    hide WholeFrames, Scaled, Denominator;
  }

  lemma AddModulo(a: int, b: int, c: int)
    ensures U32(U32(a + b) + c) == U32(a + (b + c))
    ensures U32(a + b) == U32(a + c) <==> U32(b) == U32(c)
  {
    WholeTurns(U32(a + b) + c, (a + b) / TWO_32);
    if U32(b) == U32(c) {
      WholeTurns(a + c, b / TWO_32 - c / TWO_32);
    }
    if U32(a + b) == U32(a + c) {
      WholeTurns(c, (a + b) / TWO_32 - (a + c) / TWO_32);
    }
  }

  lemma WholeTurns(x: int, k: int)
    ensures U32(x + k * TWO_32) == U32(x)
  {
  }

  lemma FirstEntry(ts: TempoState, mid: seq<Element>)
    requires ts.timeBase > 0 && IsTempoMap(mid) && mid != []
    ensures IsTempoMap(mid[1..]) && Advance(ts, mid[0]).timeBase == ts.timeBase
    ensures TempoAfter(ts, mid) == TempoAfter(Advance(ts, mid[0]), mid[1..])
  {
    hide FrameAt;
    assert [mid[0]] + mid[1..] == mid;
    SplitTempo(ts, [mid[0]], mid[1..]);
    assert [mid[0]][..0] == [];
  }

  /** The running tempo state adds up the rounded segments. */
  lemma {:induction false} FramesAddUp(ts: TempoState, mid: seq<Element>, tick: Word)
    requires ts.timeBase > 0 && TimesWithin(mid, ts.xTick, tick) && IsTempoMap(mid)
    ensures FrameAt(TempoAfter(ts, mid), tick) == U32(ts.xFrame + SegmentFrames(ts, mid, tick))
    decreases |mid|
  {
    hide FrameAt, WholeFrames, U32, TempoAfter;
    if mid == [] {
      NothingAfter(ts);
      FrameInSegment(ts, tick);
    } else {
      FirstEntry(ts, mid);
      var next := Advance(ts, mid[0]);
      FramesAddUp(next, mid[1..], tick);
      if mid[0].Tempo? {
        var first := WholeFrames(Scaled(ts, mid[0].time - ts.xTick), Denominator(ts));
        FrameInSegment(ts, mid[0].time);
        SegmentsForgetFrame(ts.(xTick := mid[0].time, mpq := mid[0].microTempo), next.xFrame, mid[1..], tick);
        AddModulo(ts.xFrame, first, SegmentFrames(next, mid[1..], tick));
      }
    }
  }

  /** Exactly when a note-off falls on the tempo-map frame of its tick: when the whole stretch since the last tempo change
      before the note-on, rounded down at once under that tempo, has as many frames (modulo 2^32) as its tempo segments
      rounded down one by one. */
  lemma NoteOffFrameExactly(ts: TempoState, maps: seq<Element>, el: Element)
    requires ts.timeBase > 0 && IsTempoMap(maps) && el.Note? && ts.xTick <= el.time <= OffTick(el)
    requires TimesWithin(maps, ts.xTick, TWO_32)
    ensures var n1, n2, now := MapPrefix(maps, el.time), MapPrefix(maps, OffTick(el)), TempoAt(ts, maps, el.time);
            n1 <= n2 && now.xTick <= OffTick(el) &&
            TimesWithin(maps[n1..n2], now.xTick, OffTick(el)) && IsTempoMap(maps[n1..n2]) &&
            (EventsOf(now, el)[1].frame == TempoFrame(ts, maps, OffTick(el)) <==>
             U32(WholeFrames(Scaled(now, OffTick(el) - now.xTick), Denominator(now))) == U32(SegmentFrames(now, maps[n1..n2], OffTick(el))))
  {
    hide FrameAt, Scaled, Denominator, WholeFrames, OffTick, MapPrefix, TempoAfter, IsTempoMap, U32, SegmentFrames;
    var tick, n1, n2 := OffTick(el), MapPrefix(maps, el.time), MapPrefix(maps, OffTick(el));
    PrefixesGrow(maps, el.time, tick);
    SplitTimes(ts, maps, n1, n2, tick);
    MapProcessable(ts, maps[..n1]);
    var now := TempoAfter(ts, maps[..n1]);
    TempoShape(ts, maps[..n1], tick);
    SplitTempo(ts, maps[..n1], maps[n1..n2]);
    FrameInSegment(now, tick);
    FramesAddUp(now, maps[n1..n2], tick);
    AddModulo(now.xFrame, WholeFrames(Scaled(now, tick - now.xTick), Denominator(now)), SegmentFrames(now, maps[n1..n2], tick));
  }

  lemma PrefixesGrow(maps: seq<Element>, t1: Word, t2: Word)
    requires t1 <= t2
    ensures MapPrefix(maps, t1) <= MapPrefix(maps, t2)
  {
  }

  lemma MisplacedBy(ts: TempoState, on: seq<Element>, mid: seq<Element>, tick: Word)
    requires ts.timeBase > 0 && IsTempoMap(on + mid) && IsTempoMap(on) && IsTempoMap(mid)
    requires TimesWithin(on, ts.xTick, tick) && TimesWithin(mid, TempoAfter(ts, on).xTick, tick)
    requires Fits(ExactAt(ts, on, tick), Denominator(ts)) && Fits(ExactAt(ts, on + mid, tick), Denominator(ts))
    ensures ApartBy(FrameAt(TempoAfter(ts, on), tick), FrameAt(TempoAfter(ts, on + mid), tick), Denominator(ts),
                    ExactAt(ts, on, tick) - ExactAt(ts, on + mid, tick), TempoChanges(mid))
  {
    hide FrameAt, Denominator, ExactAt, Fits, TempoAfter, TempoChanges, IsTempoMap, ExactAtChange, ScaledFrames, ApartBy;
    MapProcessable(ts, on);
    MapProcessable(ts, on + mid);
    var now := TempoAfter(ts, on);
    assert on + [] == on;
    SplitTempo(ts, on, mid);
    SplitExact(ts, on, mid, tick);
    SplitExact(ts, on, [], tick);
    ChangeFits(ts, on, tick);
    SplitFits(ts, on, mid, tick);
    SplitFits(ts, on, [], tick);
    MapProcessable(now, mid);
    FromNow(now, mid, tick);
  }

  lemma FromNow(now: TempoState, mid: seq<Element>, tick: Word)
    requires now.timeBase > 0 && IsTempoMap(mid) && TimesWithin(mid, now.xTick, tick)
    requires Fits(ExactAt(now, [], tick), Denominator(now)) && Fits(ExactAt(now, mid, tick), Denominator(now))
    ensures ApartBy(FrameAt(now, tick), FrameAt(TempoAfter(now, mid), tick), Denominator(now),
                    ExactAt(now, [], tick) - ExactAt(now, mid, tick), TempoChanges(mid))
  {
    hide FrameAt, Denominator, ExactAt, Fits, TempoAfter, TempoChanges, IsTempoMap, LagsLessThan, LagsAtMost;
    NothingAfter(now);
    MapProcessable(now, mid);
    PositionBound(now, [], tick);
    PositionBound(now, mid, tick);
    BetweenFloors(Denominator(now), FrameAt(now, tick), ExactAt(now, [], tick), 1,
                  FrameAt(TempoAfter(now, mid), tick), ExactAt(now, mid, tick), TempoChanges(mid) + 1);
  }

  lemma ChangeFits(ts: TempoState, els: seq<Element>, tick: Word)
    requires ts.timeBase > 0 && IsTempoMap(els) && Fits(ExactAt(ts, els, tick), Denominator(ts))
    ensures Fits(ExactAtChange(ts, els), Denominator(ts))
  {
    hide TempoAfter, Scaled, ExactAtChange;
  }

  lemma MapProcessable(ts: TempoState, els: seq<Element>)
    requires ts.timeBase > 0 && IsTempoMap(els)
    ensures Processable(ts, els)
  {
  }

  lemma NothingAfter(now: TempoState)
    requires now.timeBase > 0
    ensures TempoAfter(now, []) == now && TempoChanges([]) == 0 && IsTempoMap([])
  {
  }

  lemma BetweenFloors(d: nat, a: nat, exactA: nat, j: nat, b: nat, exactB: nat, k: nat)
    requires LagsLessThan(a, exactA, d, j) && LagsLessThan(b, exactB, d, k)
    ensures exactA - exactB - j * d < d * (a - b) < exactA - exactB + k * d
    ensures exactA >= exactB + j * d ==> a > b
    ensures exactB >= exactA + k * d ==> a < b
  {
    Scale(d, a, b);
    Scale(d, b, a);
  }

  /** A tempo change inside a note need not move its note-off: the difference may be lost in rounding. */
  lemma NoteOffFrameSurvives()
    ensures var ts := TempoState(48000, 96, 500000, 0, 0);
            var maps := [Tempo(50, 500001)];
            var el := Note(0, 0, 60, 64, 51, 0);
            el.time < maps[0].time < OffTick(el) &&
            EventsOf(TempoAt(ts, maps, el.time), el)[1].frame == 12750 == TempoFrame(ts, maps, OffTick(el))
  {
    hide FrameAt, OnBytes, OffBytes;
    var ts, later := TempoState(48000, 96, 500000, 0, 0), TempoState(48000, 96, 500001, 12500, 50);
    var maps := [Tempo(50, 500001)];
    FramesOfRounding();
    assert maps[..0] == [] && maps[..1] == maps;
    assert MapPrefix(maps, 0) == 0;
    PrefixOfRounding();
    assert TempoAt(ts, maps, 0) == ts;
    assert TempoAfter(ts, []) == ts;
    assert TempoAt(ts, maps, 51) == later;
  }

  lemma FramesOfRounding()
    ensures var ts, later := TempoState(48000, 96, 500000, 0, 0), TempoState(48000, 96, 500001, 12500, 50);
            FrameAt(ts, 50) == 12500 && FrameAt(ts, 51) == 12750 && FrameAt(later, 51) == 12750
  {
  }

  lemma PrefixOfRounding()
    ensures MapPrefix([Tempo(50, 500001)], 51) == 1
  {
    assert [Tempo(50, 500001)][1..] == [];
  }

  lemma FramesOfExample()
    ensures var ts, later := TempoState(48000, 96, 500000, 0, 0), TempoState(48000, 96, 250000, 12500, 50);
            FrameAt(ts, 50) == 12500 && FrameAt(ts, 100) == 25000 && FrameAt(later, 100) == 18750
  {
  }

  lemma PrefixOfExample()
    ensures MapPrefix([Tempo(50, 250000)], 100) == 1
  {
    assert [Tempo(50, 250000)][1..] == [];
  }
}
