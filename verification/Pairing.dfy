/** From the messages of a track to its elements: delta times are summed, and note-offs are paired with the
    pending note-ons (handle_status, handle_meta, save_note and finish_note of midiread.c). */
module Pairing {
  import opened Common
  import opened Elements
  import opened Smf

  /** The part of struct midistate that survives from event to event. A pending note is the index of its
      element, standing for the pointer the source keeps. */
  datatype TrackState = TrackState(time: int, port: Byte, elements: seq<Element>, pending: seq<nat>, maps: seq<Element>)

  function ByteAt(data: Bytes, i: nat): Byte {
    if i < |data| then data[i] else 0
  }

  function Device(port: Byte, ch: ChannelIndex): nat {
    port * 16 + ch
  }

  // ----- pairing notes

  /** Every pending index points at a note. */
  predicate Sane(elements: seq<Element>, pending: seq<nat>) {
    forall i :: 0 <= i < |pending| ==> pending[i] < |elements| && elements[pending[i]].Note?
  }

  predicate Matches(e: Element, channel: nat, key: Byte) {
    e.Note? && e.key == key && e.channel == channel
  }

  /** The last pending note with a key and channel. */
  function FindPending(elements: seq<Element>, pending: seq<nat>, channel: nat, key: Byte): (r: Option<nat>)
    requires Sane(elements, pending)
    ensures r.None? ==> forall i :: 0 <= i < |pending| ==> !Matches(elements[pending[i]], channel, key)
    ensures r.Some? ==> r.value < |pending| && Matches(elements[pending[r.value]], channel, key)
    ensures r.Some? ==> forall i :: r.value < i < |pending| ==> !Matches(elements[pending[i]], channel, key)
    decreases |pending|
  {
    if pending == [] then None else
    var last := |pending| - 1;
    if Matches(elements[pending[last]], channel, key) then Some(last)
    else FindPending(elements, pending[..last], channel, key)
  }

  /** g_ptr_array_remove_index_fast: the last entry takes the place of the removed one. */
  function RemoveFast(pending: seq<nat>, i: nat): (r: seq<nat>)
    requires i < |pending|
    ensures |r| == |pending| - 1
  {
    var last := |pending| - 1;
    pending[i := pending[last]][..last]
  }

  /** How long a note lasted, in 32-bit arithmetic; never negative. */
  function LengthOf(now: int, start: Word): nat {
    if Int32(now - start) < 0 then 0 else Int32(now - start)
  }

  function Finished(e: Element, now: int, velocity: Byte): Element
    requires e.Note?
  {
    e.(length := LengthOf(now, e.time), offVelocity := velocity)
  }

  /** finish_note: the last pending note with this key and channel gets its length, if there is one. */
  function Finish(s: TrackState, channel: nat, key: Byte, velocity: Byte): (r: TrackState)
    requires Sane(s.elements, s.pending)
    ensures Sane(r.elements, r.pending)
    ensures |r.pending| <= |s.pending| && |r.elements| == |s.elements|
    ensures r.time == s.time && r.port == s.port && r.maps == s.maps
    ensures FindPending(s.elements, s.pending, channel, key).Some? ==> |r.pending| < |s.pending|
  {
    match FindPending(s.elements, s.pending, channel, key)
    case None => s
    case Some(i) =>
      var x := s.pending[i];
      s.(elements := s.elements[x := Finished(s.elements[x], s.time, velocity)], pending := RemoveFast(s.pending, i))
  }

  // ----- one message

  /** The element a message adds to its track, if any. */
  function MakeElement(time: Word, channel: nat, m: Message): Option<Element> {
    match m
    case NoteOnMsg(_, key, vel) => if vel == 0 then None else Some(Note(time, channel, key, vel, -1, 0))
    case TouchMsg(_, key, vel) => Some(KeyTouch(time, channel, key, vel))
    case ControlMsg(_, control, setting) => Some(Control(time, channel, control, setting))
    case ProgramMsg(_, program) => Some(Program(time, channel, program))
    case PressureMsg(_, vel) => Some(Pressure(time, channel, vel))
    case PitchMsg(_, low, high) => Some(Pitch(time, channel, WheelValue(low, high) - 0x2000))
    case SysexMsg(status, data) => Some(Sysex(time, status, data))
    case MetaMsg(kind, data) =>
      if 1 <= kind <= 7 then Some(Text(time, kind, data))
      else if kind == META_SMPTE then Some(SmpteOffset(time, data))
      else None
    case _ => None
  }

  /** low | (high << 7). */
  function WheelValue(low: Byte, high: Byte): nat {
    low % 128 + 128 * (if low >= 128 && high % 2 == 0 then high + 1 else high)
  }

  /** The tempo-map entry a meta event adds, if any. */
  function MakeMap(time: Word, m: Message): Option<Element> {
    if !m.MetaMsg? then None
    else if m.kind == META_TEMPO then
      Some(Tempo(time, ByteAt(m.data, 0) * 0x10000 + ByteAt(m.data, 1) * 0x100 + ByteAt(m.data, 2)))
    else if m.kind == META_TIME then Some(TimeSignature(time, m.data))
    else if m.kind == META_KEY then Some(KeySignature(time, m.data))
    else None
  }

  function NextPort(port: Byte, m: Message): Byte {
    if m.MetaMsg? && m.kind == META_PORT then ByteAt(m.data, 0) else port
  }

  predicate IsNoteOff(m: Message) {
    m.NoteOffMsg? || (m.NoteOnMsg? && m.velocity == 0)
  }

  predicate IsNoteOn(m: Message) {
    m.NoteOnMsg? && m.velocity != 0
  }

  /** The effect of a message at the current time (handle_status). */
  function ApplyMessage(t: TrackState, m: Message): (r: TrackState)
    requires Sane(t.elements, t.pending)
    ensures Sane(r.elements, r.pending)
  {
    if IsNoteOff(m) then Finish(t, Device(t.port, m.channel), m.key, m.velocity)
    else
      var added := MakeElement(U32(t.time), ChannelOf(t.port, m), m);
      var map' := MakeMap(U32(t.time), m);
      t.(port := NextPort(t.port, m),
         elements := if added.Some? then t.elements + [added.value] else t.elements,
         pending := if IsNoteOn(m) then t.pending + [|t.elements|] else t.pending,
         maps := if map'.Some? then t.maps + [map'.value] else t.maps)
  }

  /** The device channel of a message; system messages get 0. */
  function ChannelOf(port: Byte, m: Message): nat {
    if m.SysexMsg? || m.MetaMsg? || m.EndMsg? then 0 else Device(port, m.channel)
  }

  function Apply(s: TrackState, e: Timed): (r: TrackState)
    requires Sane(s.elements, s.pending)
    ensures Sane(r.elements, r.pending)
  {
    ApplyMessage(s.(time := Int32(s.time + e.delta)), e.message)
  }

  /** The state after some events, oldest first. */
  function Interpret(s: TrackState, events: seq<Timed>): (r: TrackState)
    requires Sane(s.elements, s.pending)
    ensures Sane(r.elements, r.pending)
    decreases |events|
  {
    if events == [] then s else Apply(Interpret(s, events[..|events| - 1]), events[|events| - 1])
  }

  /** At the end of a track every note still pending is finished, starting over from the first one each time. */
  function FinishAll(s: TrackState): (r: TrackState)
    requires Sane(s.elements, s.pending)
    decreases |s.pending|
  {
    if s.pending == [] then s else
    var first := s.elements[s.pending[0]];
    FinishAll(Finish(s, first.channel, first.key, 0))
  }

  function StartOfTrack(port: Byte, maps: seq<Element>): TrackState {
    TrackState(0, port, [], [], maps)
  }

  /** The whole of one track. */
  function TrackResult(port: Byte, maps: seq<Element>, events: seq<Timed>): TrackState {
    FinishAll(Interpret(StartOfTrack(port, maps), events))
  }

  // ----- pending notes are exactly the unfinished ones

  ghost predicate Distinct(pending: seq<nat>) {
    forall i, j :: 0 <= i < j < |pending| ==> pending[i] != pending[j]
  }

  /** The pending array holds each unfinished note once and nothing else. */
  ghost predicate PendingExact(elements: seq<Element>, pending: seq<nat>) {
    Sane(elements, pending) && Distinct(pending) &&
    forall x :: 0 <= x < |elements| && elements[x].Note? ==> (elements[x].length == -1 <==> x in pending)
  }

  lemma Removed(pending: seq<nat>, i: nat)
    requires i < |pending| && Distinct(pending)
    ensures Distinct(RemoveFast(pending, i))
    ensures forall x :: x in RemoveFast(pending, i) <==> x in pending && x != pending[i]
  {
    var last := |pending| - 1;
    var r := RemoveFast(pending, i);
    assert forall k :: 0 <= k < last ==> r[k] == if k == i then pending[last] else pending[k];
    forall x | x in pending && x != pending[i] ensures x in r {
      var k :| 0 <= k < |pending| && pending[k] == x;
      assert if k == last then r[i] == x else r[k] == x;
    }
  }

  /** A note-off finishes exactly one pending note of its key and channel, the last in the array, and leaves
      every other element and pending note alone; with no such note it changes nothing. */
  lemma FinishEffect(s: TrackState, channel: nat, key: Byte, velocity: Byte)
    requires PendingExact(s.elements, s.pending)
    ensures var r := Finish(s, channel, key, velocity); var found := FindPending(s.elements, s.pending, channel, key);
            PendingExact(r.elements, r.pending) &&
            (found.None? ==> r == s) &&
            (found.Some? ==>
              var x := s.pending[found.value];
              r == s.(elements := s.elements[x := Finished(s.elements[x], s.time, velocity)], pending := r.pending) &&
              (forall y :: y in r.pending <==> y in s.pending && y != x) &&
              |r.pending| == |s.pending| - 1)
  {
    var found := FindPending(s.elements, s.pending, channel, key);
    if found.Some? {
      Removed(s.pending, found.value);
    }
  }

  lemma ApplyKeepsPending(s: TrackState, e: Timed)
    requires PendingExact(s.elements, s.pending)
    ensures PendingExact(Apply(s, e).elements, Apply(s, e).pending)
  {
    hide Int32;
    var t := s.(time := Int32(s.time + e.delta));
    var m := e.message;
    if IsNoteOff(m) {
      FinishEffect(t, Device(t.port, m.channel), m.key, m.velocity);
    }
  }

  lemma {:induction false} InterpretKeepsPending(s: TrackState, events: seq<Timed>)
    requires PendingExact(s.elements, s.pending)
    ensures PendingExact(Interpret(s, events).elements, Interpret(s, events).pending)
    decreases |events|
  {
    if events != [] {
      InterpretKeepsPending(s, events[..|events| - 1]);
      ApplyKeepsPending(Interpret(s, events[..|events| - 1]), events[|events| - 1]);
    }
  }

  /** Finishing all pending notes touches only those, and gives each the time from its start to now. */
  lemma {:induction false} FinishAllEffect(s: TrackState)
    requires PendingExact(s.elements, s.pending)
    ensures var r := FinishAll(s);
            r.pending == [] && |r.elements| == |s.elements| && r.maps == s.maps && r.port == s.port && r.time == s.time &&
            forall x :: 0 <= x < |s.elements| ==>
              r.elements[x] == if x in s.pending then Finished(s.elements[x], s.time, 0) else s.elements[x]
    decreases |s.pending|
  {
    if s.pending != [] {
      var first := s.elements[s.pending[0]];
      FinishEffect(s, first.channel, first.key, 0);
      FinishAllEffect(Finish(s, first.channel, first.key, 0));
    }
  }

  ghost predicate LengthsValid(elements: seq<Element>) {
    forall x :: 0 <= x < |elements| && elements[x].Note? ==> elements[x].length >= -1
  }

  lemma ApplyKeepsLengths(s: TrackState, e: Timed)
    requires Sane(s.elements, s.pending) && LengthsValid(s.elements)
    ensures LengthsValid(Apply(s, e).elements)
  {
    hide Int32, LengthOf;
  }

  lemma {:induction false} InterpretKeepsLengths(s: TrackState, events: seq<Timed>)
    requires Sane(s.elements, s.pending) && LengthsValid(s.elements)
    ensures LengthsValid(Interpret(s, events).elements)
    decreases |events|
  {
    hide Apply, LengthsValid;
    if events != [] {
      InterpretKeepsLengths(s, events[..|events| - 1]);
      ApplyKeepsLengths(Interpret(s, events[..|events| - 1]), events[|events| - 1]);
    }
  }

  /** However note-ons and note-offs interleave, a track ends with no pending note and every note has a length. */
  lemma {:induction false} EveryNoteFinished(port: Byte, maps: seq<Element>, events: seq<Timed>)
    ensures var r := TrackResult(port, maps, events);
            r.pending == [] && forall x :: 0 <= x < |r.elements| && r.elements[x].Note? ==> r.elements[x].length >= 0
  {
    hide LengthOf, Interpret;
    var s, r := Interpret(StartOfTrack(port, maps), events), TrackResult(port, maps, events);
    InterpretKeepsPending(StartOfTrack(port, maps), events);
    InterpretKeepsLengths(StartOfTrack(port, maps), events);
    FinishAllEffect(s);
    forall x | 0 <= x < |r.elements| && r.elements[x].Note? ensures r.elements[x].length >= 0 {
      assert s.elements[x].Note?;
    }
  }

  // ----- in which order overlapping notes are released

  predicate OneVoice(a: Element, b: Element)
    requires a.Note? && b.Note?
  {
    a.channel == b.channel && a.key == b.key
  }

  /** The pending notes of each channel and key stand in the order in which they were started. */
  ghost predicate InStartOrder(elements: seq<Element>, pending: seq<nat>)
    requires Sane(elements, pending)
  {
    forall a, b :: 0 <= a < b < |pending| && OneVoice(elements[pending[a]], elements[pending[b]]) ==> pending[a] < pending[b]
  }

  /** The entry that takes the place of entry i jumps over no other entry of its own channel and key. */
  predicate NoneToOvertake(elements: seq<Element>, pending: seq<nat>, i: nat)
    requires Sane(elements, pending) && i < |pending|
  {
    var last := |pending| - 1;
    forall b :: i < b < last ==> !OneVoice(elements[pending[b]], elements[pending[last]])
  }

  /** Swap-removal keeps the start order exactly when the moved entry jumps over none of its own channel and key. */
  lemma RemoveKeepsStartOrder(elements: seq<Element>, pending: seq<nat>, i: nat)
    requires Sane(elements, pending) && InStartOrder(elements, pending) && i < |pending|
    ensures Sane(elements, RemoveFast(pending, i))
    ensures InStartOrder(elements, RemoveFast(pending, i)) <==> NoneToOvertake(elements, pending, i)
  {
    var last, r := |pending| - 1, RemoveFast(pending, i);
    assert forall k :: 0 <= k < last ==> r[k] == if k == i then pending[last] else pending[k];
    if InStartOrder(elements, r) {
      forall b | i < b < last ensures !OneVoice(elements[pending[b]], elements[pending[last]]) {
        assert r[i] == pending[last] && r[b] == pending[b];
      }
    }
  }

  /** In start order the note found by a note-off is the newest pending one of its channel and key, and the order
      survives exactly when the moved entry jumps over none of its own channel and key. */
  lemma FinishKeepsStartOrder(s: TrackState, channel: nat, key: Byte, velocity: Byte)
    requires Sane(s.elements, s.pending) && InStartOrder(s.elements, s.pending)
    ensures var r := Finish(s, channel, key, velocity); var found := FindPending(s.elements, s.pending, channel, key);
            if found.Some? then
              (forall p :: 0 <= p < |s.pending| && Matches(s.elements[s.pending[p]], channel, key) ==> s.pending[p] <= s.pending[found.value]) &&
              (InStartOrder(r.elements, r.pending) <==> NoneToOvertake(s.elements, s.pending, found.value))
            else
              InStartOrder(r.elements, r.pending)
  {
    hide NoneToOvertake, LengthOf, RemoveFast;
    var r, found := Finish(s, channel, key, velocity), FindPending(s.elements, s.pending, channel, key);
    if found.Some? {
      RemoveKeepsStartOrder(s.elements, s.pending, found.value);
      VoicesStay(s.elements, r.elements, r.pending);
    }
  }

  lemma VoicesStay(before: seq<Element>, after: seq<Element>, pending: seq<nat>)
    requires Sane(before, pending) && |before| <= |after|
    requires forall x :: 0 <= x < |before| && before[x].Note? ==> after[x].Note? && OneVoice(before[x], after[x])
    ensures Sane(after, pending) && (InStartOrder(after, pending) <==> InStartOrder(before, pending))
  {
  }

  /** A new note is the newest; every other event leaves the pending notes alone. */
  lemma OtherKeepsStartOrder(s: TrackState, e: Timed)
    requires Sane(s.elements, s.pending) && InStartOrder(s.elements, s.pending) && !IsNoteOff(e.message)
    ensures InStartOrder(Apply(s, e).elements, Apply(s, e).pending)
  {
    hide Int32, WheelValue;
    var r := Apply(s, e);
    assert s.elements <= r.elements;
    VoicesStay(s.elements, r.elements, s.pending);
  }

  /** Notes of the same key that overlap need not be released last-in first-out: removing an earlier entry moves the
      last one to the front, so the older of two equal notes is found first. */
  lemma OlderNoteFirst(first: Element, older: Element, newer: Element, now: int)
    requires first.Note? && older.Note? && newer.Note? && first.length == older.length == newer.length == -1
    requires older.key == newer.key != first.key && first.channel == older.channel == newer.channel
    ensures var s := TrackState(now, 0, [first, older, newer], [0, 1, 2], []);
            var t := Finish(Finish(s, first.channel, first.key, 0), older.channel, older.key, 0);
            t.pending == [2] && t.elements[1].length >= 0 && t.elements[2] == newer
  {
    hide LengthOf;
    var s := TrackState(now, 0, [first, older, newer], [0, 1, 2], []);
    assert FindPending(s.elements, s.pending, first.channel, first.key) == Some(0);
    var r := Finish(s, first.channel, first.key, 0);
    assert r.pending == [2, 1];
    assert FindPending(r.elements, r.pending, older.channel, older.key) == Some(1);
  }
}
