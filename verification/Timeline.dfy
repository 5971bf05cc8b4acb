/** What playback should send: a stateless description by frame, with no records, cursors or seeking. */
module Timeline {
  import opened Common
  import opened Elements

  /** One message written to the port buffer: its offset and its bytes. */
  datatype Emit = Emit(time: nat, data: Bytes)

  /** The sysex, solo and mute settings of struct jpmidi_root. */
  datatype Filters = Filters(sendSysex: bool, solo: int, muted: seq<bool>)

  /** Nothing muted or soloed, sysex on. */
  function AllOpen(): (f: Filters)
    ensures f.sendSysex && f.solo == -1 && |f.muted| == 16 && forall c :: 0 <= c < 16 ==> !f.muted[c]
  {
    Filters(true, -1, seq(CHANNELS, i => false))
  }

  predicate IsSysex(d: MidiData) {
    d[0] == 0xF0
  }

  function Channel(d: MidiData): nat {
    d[0] % 16
  }

  predicate IsMuted(f: Filters, channel: nat) {
    channel < |f.muted| && f.muted[channel]
  }

  /** Solo on another channel or mute keeps this channel's messages back. */
  predicate Blocked(f: Filters, channel: nat) {
    (f.solo != -1 && channel != f.solo) || IsMuted(f, channel)
  }

  /** Note-offs on channel index 9 are never sent. */
  predicate IsDrumNoteOff(d: MidiData) {
    d[0] == 0x80 + 9
  }

  predicate Audible(f: Filters, d: MidiData) {
    if IsSysex(d) then f.sendSysex else !Blocked(f, Channel(d)) && !IsDrumNoteOff(d)
  }

  /** The events placed at one frame, in the order they were placed. */
  function EventsAt(stream: seq<Placed>, frame: int): seq<Event> {
    if stream == [] then [] else
    var last := stream[|stream| - 1];
    EventsAt(stream[..|stream| - 1], frame) + (if last.frame == frame then [last.event] else [])
  }

  /** The audible ones among some events, as messages at one offset. */
  function Sent(f: Filters, events: seq<Event>, time: nat): seq<Emit> {
    if events == [] then [] else
    var last := events[|events| - 1];
    Sent(f, events[..|events| - 1], time) + (if Audible(f, last.data) then [Emit(time, last.data)] else [])
  }

  /** The messages for one frame. */
  function FrameMessages(stream: seq<Placed>, f: Filters, base: nat, frame: nat): seq<Emit>
    requires base <= frame
  {
    Sent(f, EventsAt(stream, frame), frame - base)
  }

  /** The messages for frames lo to hi-1, frame by frame, with offsets counted from `base`. */
  function Window(stream: seq<Placed>, f: Filters, base: nat, lo: nat, hi: nat): seq<Emit>
    requires base <= lo
    decreases hi
  {
    if hi <= lo then []
    else Window(stream, f, base, lo, hi - 1) + FrameMessages(stream, f, base, hi - 1)
  }

  lemma {:induction false} WindowSplit(stream: seq<Placed>, f: Filters, base: nat, lo: nat, mid: nat, hi: nat)
    requires base <= lo <= mid <= hi
    ensures Window(stream, f, base, lo, hi) == Window(stream, f, base, lo, mid) + Window(stream, f, base, mid, hi)
    decreases hi
  {
    hide FrameMessages;
    if mid == hi {
      assert Window(stream, f, base, mid, hi) == [];
    } else {
      WindowSplit(stream, f, base, lo, mid, hi - 1);
      assert Window(stream, f, base, mid, hi) == Window(stream, f, base, mid, hi - 1) + FrameMessages(stream, f, base, hi - 1);
    }
  }

  lemma {:induction false} NoEventsAt(stream: seq<Placed>, frame: int)
    ensures EventsAt(stream, frame) == [] <==> forall i :: 0 <= i < |stream| ==> stream[i].frame != frame
  {
    if stream != [] {
      var front := stream[..|stream| - 1];
      NoEventsAt(front, frame);
      assert forall i :: 0 <= i < |front| ==> front[i] == stream[i];
    }
  }

  lemma NoFrameMessages(stream: seq<Placed>, f: Filters, base: nat, frame: nat)
    requires base <= frame && forall i :: 0 <= i < |stream| ==> stream[i].frame != frame
    ensures FrameMessages(stream, f, base, frame) == []
  {
    NoEventsAt(stream, frame);
  }

  /** Frames without events contribute nothing. */
  lemma {:induction false} WindowGap(stream: seq<Placed>, f: Filters, base: nat, lo: nat, mid: nat, hi: nat)
    requires base <= lo <= mid <= hi
    requires forall i :: 0 <= i < |stream| ==> !(mid <= stream[i].frame < hi)
    ensures Window(stream, f, base, lo, hi) == Window(stream, f, base, lo, mid)
    decreases hi
  {
    if mid < hi {
      hide FrameMessages;
      WindowGap(stream, f, base, lo, mid, hi - 1);
      NoFrameMessages(stream, f, base, hi - 1);
    }
  }

  ghost predicate TimesOrdered(es: seq<Emit>, lo: nat, hi: nat) {
    (forall i :: 0 <= i < |es| ==> lo <= es[i].time < hi) &&
    (forall i, j :: 0 <= i < j < |es| ==> es[i].time <= es[j].time)
  }

  lemma {:induction false} SentTimes(f: Filters, events: seq<Event>, time: nat)
    ensures forall i :: 0 <= i < |Sent(f, events, time)| ==> Sent(f, events, time)[i].time == time
  {
    if events != [] {
      SentTimes(f, events[..|events| - 1], time);
    }
  }

  lemma OrderedConcat(a: seq<Emit>, b: seq<Emit>, lo: nat, mid: nat, hi: nat)
    requires lo <= mid <= hi && TimesOrdered(a, lo, mid) && TimesOrdered(b, mid, hi)
    ensures TimesOrdered(a + b, lo, hi)
  {
  }

  /** Offsets never decrease and stay inside the window. */
  lemma {:induction false} WindowOrdered(stream: seq<Placed>, f: Filters, base: nat, lo: nat, hi: nat)
    requires base <= lo <= hi
    ensures TimesOrdered(Window(stream, f, base, lo, hi), lo - base, hi - base)
    decreases hi
  {
    hide TimesOrdered, FrameMessages;
    if lo == hi {
      NothingOrdered(lo - base, hi - base);
    } else {
      WindowOrdered(stream, f, base, lo, hi - 1);
      FrameOrdered(stream, f, base, hi - 1);
      OrderedConcat(Window(stream, f, base, lo, hi - 1), FrameMessages(stream, f, base, hi - 1), lo - base, hi - 1 - base, hi - base);
    }
  }

  lemma NothingOrdered(lo: nat, hi: nat)
    ensures TimesOrdered([], lo, hi)
  {
  }

  lemma FrameOrdered(stream: seq<Placed>, f: Filters, base: nat, frame: nat)
    requires base <= frame
    ensures TimesOrdered(FrameMessages(stream, f, base, frame), frame - base, frame + 1 - base)
  {
    SentTimes(f, EventsAt(stream, frame), frame - base);
  }

  /** Move message offsets by a fixed amount. */
  function Shift(es: seq<Emit>, offset: nat): (r: seq<Emit>)
    ensures |r| == |es| && forall i :: 0 <= i < |es| ==> r[i] == Emit(es[i].time + offset, es[i].data)
  {
    seq(|es|, i requires 0 <= i < |es| => Emit(es[i].time + offset, es[i].data))
  }

  lemma {:induction false} SentShift(f: Filters, events: seq<Event>, time: nat, offset: nat)
    ensures Shift(Sent(f, events, time), offset) == Sent(f, events, time + offset)
  {
    if events != [] {
      SentShift(f, events[..|events| - 1], time, offset);
    }
  }

  lemma FrameShift(stream: seq<Placed>, f: Filters, base: nat, frame: nat)
    requires base <= frame
    ensures Shift(FrameMessages(stream, f, base, frame), base) == FrameMessages(stream, f, 0, frame)
  {
    SentShift(f, EventsAt(stream, frame), frame - base, base);
  }

  /** Shifting a cycle's offsets by the cycle's position gives absolute frames. */
  lemma {:induction false} WindowShift(stream: seq<Placed>, f: Filters, base: nat, lo: nat, hi: nat)
    requires base <= lo
    ensures Shift(Window(stream, f, base, lo, hi), base) == Window(stream, f, 0, lo, hi)
    decreases hi
  {
    hide FrameMessages;
    if lo < hi {
      WindowShift(stream, f, base, lo, hi - 1);
      FrameShift(stream, f, base, hi - 1);
      assert Window(stream, f, base, lo, hi) == Window(stream, f, base, lo, hi - 1) + FrameMessages(stream, f, base, hi - 1);
    }
  }

  // ----- every placed event is sent exactly once

  /** The message of one placed event, if it is audible, at its absolute frame. */
  function MessageOf(f: Filters, p: Placed): seq<Emit> {
    if Audible(f, p.event.data) then [Emit(p.frame, p.event.data)] else []
  }

  /** All audible placed events with absolute frames, in placing order. */
  function AllSent(f: Filters, stream: seq<Placed>): seq<Emit> {
    if stream == [] then [] else AllSent(f, stream[..|stream| - 1]) + MessageOf(f, stream[|stream| - 1])
  }

  lemma EventsAtAppend(stream: seq<Placed>, p: Placed, frame: int)
    ensures EventsAt(stream + [p], frame) == EventsAt(stream, frame) + (if p.frame == frame then [p.event] else [])
  {
    assert (stream + [p])[..|stream|] == stream;
  }

  lemma FrameGrows(stream: seq<Placed>, p: Placed, f: Filters, frame: nat)
    ensures FrameMessages(stream + [p], f, 0, frame) ==
            FrameMessages(stream, f, 0, frame) + (if p.frame == frame then MessageOf(f, p) else [])
  {
    EventsAtAppend(stream, p, frame);
    SentAppend(f, EventsAt(stream, frame), p.event, frame);
    assert EventsAt(stream, frame) + [] == EventsAt(stream, frame);
  }

  lemma SentAppend(f: Filters, events: seq<Event>, e: Event, time: nat)
    ensures Sent(f, events + [e], time) == Sent(f, events, time) + (if Audible(f, e.data) then [Emit(time, e.data)] else [])
  {
    assert (events + [e])[..|events|] == events;
  }

  /** One more placed event adds its own message to the window that holds its frame, and nothing else. */
  lemma {:induction false} WindowGrows(stream: seq<Placed>, p: Placed, f: Filters, lo: nat, hi: nat)
    ensures multiset(Window(stream + [p], f, 0, lo, hi)) ==
            multiset(Window(stream, f, 0, lo, hi)) + multiset(if lo <= p.frame < hi then MessageOf(f, p) else [])
    decreases hi
  {
    hide FrameMessages, MessageOf, Window;
    if hi <= lo {
      NoFrames(stream, f, lo, hi);
      NoFrames(stream + [p], f, lo, hi);
    } else {
      WindowLast(stream, f, lo, hi);
      WindowLast(stream + [p], f, lo, hi);
      WindowGrows(stream, p, f, lo, hi - 1);
      FrameGrows(stream, p, f, hi - 1);
      var w, w', s := Window(stream, f, 0, lo, hi - 1), Window(stream + [p], f, 0, lo, hi - 1), FrameMessages(stream, f, 0, hi - 1);
      var m := if lo <= p.frame < hi - 1 then MessageOf(f, p) else [];
      var n := if p.frame == hi - 1 then MessageOf(f, p) else [];
      AddedOnce(w, w', m, s, n);
      assert Window(stream + [p], f, 0, lo, hi) == w' + (s + n);
      assert m + n == if lo <= p.frame < hi then MessageOf(f, p) else [];
    }
  }

  lemma NoFrames(stream: seq<Placed>, f: Filters, lo: nat, hi: nat)
    requires hi <= lo
    ensures Window(stream, f, 0, lo, hi) == []
  {
  }

  lemma WindowLast(stream: seq<Placed>, f: Filters, lo: nat, hi: nat)
    requires lo < hi
    ensures Window(stream, f, 0, lo, hi) == Window(stream, f, 0, lo, hi - 1) + FrameMessages(stream, f, 0, hi - 1)
  {
  }

  lemma AddedOnce(w: seq<Emit>, w': seq<Emit>, m: seq<Emit>, s: seq<Emit>, n: seq<Emit>)
    requires multiset(w') == multiset(w) + multiset(m)
    ensures multiset(w' + (s + n)) == multiset(w + s) + multiset(m + n)
  {
  }

  lemma {:induction false} EmptyWindow(f: Filters, lo: nat, hi: nat)
    ensures Window([], f, 0, lo, hi) == []
    decreases hi
  {
    if lo < hi {
      EmptyWindow(f, lo, hi - 1);
    }
  }

  /** The whole timeline is a reordering by frame of all audible placed events: none is lost or repeated. */
  lemma {:induction false} WindowConserves(stream: seq<Placed>, f: Filters, hi: nat)
    requires forall i :: 0 <= i < |stream| ==> stream[i].frame < hi
    ensures multiset(Window(stream, f, 0, 0, hi)) == multiset(AllSent(f, stream))
  {
    hide Window, MessageOf;
    if stream == [] {
      EmptyWindow(f, 0, hi);
    } else {
      var front, last := stream[..|stream| - 1], stream[|stream| - 1];
      WindowConserves(front, f, hi);
      WindowGrows(front, last, f, 0, hi);
      assert front + [last] == stream;
    }
  }
}
