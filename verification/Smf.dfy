/** The byte format of Standard MIDI Files as midiread.c understands it: decoding as functions on byte sequences,
    and the encoding of section 2.3 of the Standard MIDI-File Format Spec. 1.1 that they invert. */
module Smf {
  import opened Common
  import opened Elements

  /** Why reading stops: the source prints a message and exits. `Overread` stands for a meta event too short
      for the bytes the source takes from it. */
  datatype ReadError = UnexpectedEof | BadHeader | BadHeaderLength | BadTrackHeader | BadStatus | Overread

  /** One message of a track chunk. */
  datatype Message =
    | NoteOffMsg(channel: ChannelIndex, key: Byte, velocity: Byte)
    | NoteOnMsg(channel: ChannelIndex, key: Byte, velocity: Byte)
    | TouchMsg(channel: ChannelIndex, key: Byte, velocity: Byte)
    | ControlMsg(channel: ChannelIndex, control: Byte, setting: Byte)
    | ProgramMsg(channel: ChannelIndex, program: Byte)
    | PressureMsg(channel: ChannelIndex, velocity: Byte)
    | PitchMsg(channel: ChannelIndex, low: Byte, high: Byte)
    | SysexMsg(status: Byte, data: Bytes)
    | MetaMsg(kind: Byte, data: Bytes)
    | EndMsg

  datatype Timed = Timed(delta: int, message: Message)

  const META_PORT := 0x21
  const META_END := 0x2F
  const META_TEMPO := 0x51
  const META_SMPTE := 0x54
  const META_TIME := 0x58
  const META_KEY := 0x59

  const HEAD_MAGIC := 0x4d546864
  const TRACK_MAGIC := 0x4d54726b

  // ----- decoding; every function returns its value and the bytes that are left

  function GetByte(b: Bytes): Result<(Byte, Bytes), ReadError> {
    if b == [] then Failure(UnexpectedEof) else Success((b[0], b[1..]))
  }

  /** read_int: n bytes, most significant first, in a 32-bit accumulator. */
  function GetInt(b: Bytes, n: nat, val: int): (r: Result<(int, Bytes), ReadError>)
    ensures r.Success? ==> |r.value.1| == |b| - n
    decreases n
  {
    if n == 0 then Success((val, b)) else
    var (c, rest) :- GetByte(b);
    GetInt(rest, n - 1, Int32(val * 256 + c))
  }

  /** read_var: seven bits a byte until a byte below 0x80. */
  function GetVar(b: Bytes, val: int): (r: Result<(int, Bytes), ReadError>)
    ensures r.Success? ==> |r.value.1| < |b|
    decreases |b|
  {
    var (c, rest) :- GetByte(b);
    var v := Int32(val * 128 + c % 128);
    if c >= 0x80 then GetVar(rest, v) else Success((v, rest))
  }

  /** read_data. */
  function GetData(b: Bytes, length: int): (r: Result<(Bytes, Bytes), ReadError>)
    ensures r.Success? ==> |r.value.1| <= |b|
  {
    if 0 <= length <= |b| then Success((b[..length], b[length..])) else Failure(UnexpectedEof)
  }

  /** The bytes handle_meta takes from a meta event lie within its data and the final null. */
  predicate MetaFits(kind: Byte, data: Bytes) {
    if kind == META_TEMPO then |data| >= 2
    else if kind == META_SMPTE then |data| >= 4
    else if kind == META_TIME then |data| >= 3
    else if kind == META_KEY then |data| >= 1
    else true
  }

  /** The part of an event after its status byte (handle_status). */
  function GetBody(b: Bytes, status: Byte): (r: Result<(Message, Bytes), ReadError>)
    ensures r.Success? ==> |r.value.1| < |b|
    ensures r.Success? && r.value.0.EndMsg? ==> |r.value.1| == |b| - 1
  {
    var ch, kind := status % 16, status - status % 16;
    if kind == 0xC0 || kind == 0xD0 then
      var (x, rest) :- GetByte(b);
      Success((if kind == 0xC0 then ProgramMsg(ch, x) else PressureMsg(ch, x), rest))
    else if 0x80 <= kind < 0xF0 then
      var (x, b1) :- GetByte(b);
      var (y, rest) :- GetByte(b1);
      Success((TwoByte(kind, ch, x, y), rest))
    else if kind == 0xF0 then
      if ch == 15 then
        var (meta, b1) :- GetByte(b);
        if meta == META_END then Success((EndMsg, b1)) else
        var (length, b2) :- GetVar(b1, 0);
        var (data, rest) :- GetData(b2, length);
        if MetaFits(meta, data) then Success((MetaMsg(meta, data), rest)) else Failure(Overread)
      else
        var (length, b1) :- GetVar(b, 0);
        var (data, rest) :- GetData(b1, length);
        Success((SysexMsg(status, data), rest))
    else
      Failure(BadStatus)
  }

  function TwoByte(kind: Byte, ch: ChannelIndex, x: Byte, y: Byte): Message {
    if kind == 0x80 then NoteOffMsg(ch, x, y)
    else if kind == 0x90 then NoteOnMsg(ch, x, y)
    else if kind == 0xA0 then TouchMsg(ch, x, y)
    else if kind == 0xB0 then ControlMsg(ch, x, y)
    else PitchMsg(ch, x, y)
  }

  /** One event: delta time, a status byte or running status, and the rest. Also returns the status in force. */
  function GetEvent(b: Bytes, last: Byte): (r: Result<(Timed, Byte, Bytes), ReadError>)
    ensures r.Success? ==> |r.value.2| < |b|
  {
    var (delta, b1) :- GetVar(b, 0);
    var (first, b2) :- GetByte(b1);
    var status := if first < 0x80 then last else first;
    var (message, rest) :- GetBody(if first < 0x80 then b1 else b2, status);
    Success((Timed(delta, message), status, rest))
  }

  /** The events of a track chunk with `remaining` bytes still to come; after the end-of-track event the rest of the chunk is skipped. */
  function GetTrack(b: Bytes, remaining: int, last: Byte): (r: Result<(seq<Timed>, Bytes), ReadError>)
    ensures r.Success? ==> |r.value.1| <= |b|
    decreases |b|
  {
    if remaining <= 0 then Success(([], b)) else
    var (event, status, rest) :- GetEvent(b, last);
    var left := remaining - (|b| - |rest|);
    if event.message.EndMsg? then
      var after :- Skip(rest, left);
      Success(([event], after))
    else
      var (events, after) :- GetTrack(rest, left, status);
      Success(([event] + events, after))
  }

  /** skip_chunk. */
  function Skip(b: Bytes, left: int): (r: Result<Bytes, ReadError>)
    ensures r.Success? ==> |r.value| <= |b|
  {
    if left <= 0 then Success(b) else if left > |b| then Failure(UnexpectedEof) else Success(b[left..])
  }

  // ----- encoding

  /** All but the last byte of a variable-length quantity. */
  function High(n: nat): Bytes {
    if n == 0 then [] else High(n / 128) + [n % 128 + 0x80]
  }

  function EncodeVar(n: nat): Bytes {
    High(n / 128) + [n % 128]
  }

  function StatusOf(m: Message): Byte {
    match m
    case NoteOffMsg(ch, _, _) => 0x80 + ch
    case NoteOnMsg(ch, _, _) => 0x90 + ch
    case TouchMsg(ch, _, _) => 0xA0 + ch
    case ControlMsg(ch, _, _) => 0xB0 + ch
    case ProgramMsg(ch, _) => 0xC0 + ch
    case PressureMsg(ch, _) => 0xD0 + ch
    case PitchMsg(ch, _, _) => 0xE0 + ch
    case SysexMsg(status, _) => status
    case _ => 0xFF
  }

  function EncodeBody(m: Message): Bytes {
    match m
    case NoteOffMsg(_, key, vel) => [key, vel]
    case NoteOnMsg(_, key, vel) => [key, vel]
    case TouchMsg(_, key, vel) => [key, vel]
    case ControlMsg(_, control, setting) => [control, setting]
    case ProgramMsg(_, program) => [program]
    case PressureMsg(_, vel) => [vel]
    case PitchMsg(_, low, high) => [low, high]
    case SysexMsg(_, data) => EncodeVar(|data|) + data
    case MetaMsg(kind, data) => [kind] + EncodeVar(|data|) + data
    case EndMsg => [META_END, 0]
  }

  /** Messages that have an encoding the reader accepts. */
  predicate Encodable(m: Message) {
    match m
    case SysexMsg(status, data) => 0xF0 <= status < 0xFF && |data| < TWO_31
    case MetaMsg(kind, data) => kind != META_END && |data| < TWO_31 && MetaFits(kind, data)
    case _ => true
  }

  /** A status byte may be left out when it repeats the one in force for a channel message. */
  predicate MayOmit(m: Message, last: Byte) {
    StatusOf(m) < 0xF0 && StatusOf(m) == last && EncodeBody(m)[0] < 0x80
  }

  function EncodeEvent(e: Timed, omit: bool): Bytes
    requires e.delta >= 0
  {
    EncodeVar(e.delta) + (if omit then [] else [StatusOf(e.message)]) + EncodeBody(e.message)
  }

  /** Legal event lists with a choice, event by event, of leaving out the status byte. */
  predicate Legal(events: seq<Timed>, omit: seq<bool>, last: Byte)
    requires |events| == |omit|
  {
    events == [] ||
    (0 <= events[0].delta < TWO_31 && Encodable(events[0].message) && (omit[0] ==> MayOmit(events[0].message, last)) &&
     (events[0].message.EndMsg? ==> |events| == 1) && Legal(events[1..], omit[1..], StatusOf(events[0].message)))
  }

  function EncodeEvents(events: seq<Timed>, omit: seq<bool>): Bytes
    requires |events| == |omit|
    requires forall i :: 0 <= i < |events| ==> events[i].delta >= 0
  {
    if events == [] then [] else EncodeEvent(events[0], omit[0]) + EncodeEvents(events[1..], omit[1..])
  }

  // ----- round trips

  lemma VarStep(c: Byte, tail: Bytes, val: int)
    ensures GetVar([c] + tail, val) ==
            var v := Int32(val * 128 + c % 128); if c >= 0x80 then GetVar(tail, v) else Success((v, tail))
  {
    assert ([c] + tail)[1..] == tail;
  }

  lemma SevenBits(n: nat)
    requires n < TWO_31
    ensures Int32(n / 128 * 128 + n % 128) == n && (n % 128 + 0x80) % 128 == n % 128
  {
  }

  lemma {:induction false} GetHigh(n: nat, tail: Bytes)
    requires n < TWO_31
    ensures GetVar(High(n) + tail, 0) == GetVar(tail, n)
  {
    hide GetVar, Int32;
    if n == 0 {
      assert High(n) + tail == tail;
    } else {
      var c: Byte := n % 128 + 0x80;
      assert High(n) + tail == High(n / 128) + ([c] + tail);
      GetHigh(n / 128, [c] + tail);
      VarStep(c, tail, n / 128);
      SevenBits(n);
    }
  }

  /** A variable-length quantity below 2^31 reads back as itself. */
  lemma VarRoundTrip(n: nat, rest: Bytes)
    requires n < TWO_31
    ensures GetVar(EncodeVar(n) + rest, 0) == Success((n, rest))
  {
    hide GetVar, Int32;
    var c: Byte := n % 128;
    assert EncodeVar(n) + rest == High(n / 128) + ([c] + rest);
    GetHigh(n / 128, [c] + rest);
    VarStep(c, rest, n / 128);
    SevenBits(n);
    assert c % 128 == c;
  }

  lemma DataRoundTrip(data: Bytes, rest: Bytes)
    requires |data| < TWO_31
    ensures GetVar(EncodeVar(|data|) + data + rest, 0) == Success((|data|, data + rest))
    ensures GetData(data + rest, |data|) == Success((data, rest))
  {
    assert EncodeVar(|data|) + data + rest == EncodeVar(|data|) + (data + rest);
    VarRoundTrip(|data|, data + rest);
  }

  /** What is left after a body has been read: all of `rest`, or for the end of track its length byte too. */
  function AfterBody(m: Message, rest: Bytes): Bytes {
    if m.EndMsg? then [0] + rest else rest
  }

  lemma SystemRoundTrip(m: Message, rest: Bytes)
    requires Encodable(m) && (m.SysexMsg? || m.MetaMsg? || m.EndMsg?)
    ensures GetBody(EncodeBody(m) + rest, StatusOf(m)) == Success((m, AfterBody(m, rest)))
  {
    hide EncodeVar, GetVar;
    var b := EncodeBody(m) + rest;
    if m.SysexMsg? {
      DataRoundTrip(m.data, rest);
    } else if m.MetaMsg? {
      DataRoundTrip(m.data, rest);
      assert b[1..] == EncodeVar(|m.data|) + m.data + rest;
    } else {
      assert b[1..] == [0] + rest;
    }
  }

  lemma ChannelRoundTrip(m: Message, rest: Bytes)
    requires !m.SysexMsg? && !m.MetaMsg? && !m.EndMsg?
    ensures GetBody(EncodeBody(m) + rest, StatusOf(m)) == Success((m, rest))
  {
    hide EncodeVar, GetVar;
    var b := EncodeBody(m) + rest;
    if m.ProgramMsg? || m.PressureMsg? {
      assert b[1..] == rest;
    } else {
      assert b[1..][1..] == rest;
    }
  }

  lemma BodyRoundTrip(m: Message, rest: Bytes)
    requires Encodable(m)
    ensures GetBody(EncodeBody(m) + rest, StatusOf(m)) == Success((m, AfterBody(m, rest)))
  {
    hide EncodeVar, EncodeBody, GetBody, StatusOf, Encodable;
    if m.SysexMsg? || m.MetaMsg? || m.EndMsg? {
      SystemRoundTrip(m, rest);
    } else {
      ChannelRoundTrip(m, rest);
    }
  }

  lemma EventRoundTrip(e: Timed, omit: bool, last: Byte, rest: Bytes)
    requires 0 <= e.delta < TWO_31 && Encodable(e.message) && (omit ==> MayOmit(e.message, last))
    ensures GetEvent(EncodeEvent(e, omit) + rest, last) == Success((e, StatusOf(e.message), AfterBody(e.message, rest)))
  {
    hide GetVar, EncodeVar, GetBody;
    var body, status := EncodeBody(e.message) + rest, StatusOf(e.message);
    BodyRoundTrip(e.message, rest);
    if omit {
      assert EncodeEvent(e, omit) + rest == EncodeVar(e.delta) + body;
      VarRoundTrip(e.delta, body);
    } else {
      assert EncodeEvent(e, omit) + rest == EncodeVar(e.delta) + ([status] + body);
      VarRoundTrip(e.delta, [status] + body);
      assert ([status] + body)[1..] == body;
    }
  }

  lemma NextEvent(b: Bytes, remaining: int, last: Byte, e: Timed, status: Byte, rest: Bytes, events: seq<Timed>, after: Bytes)
    requires remaining > 0 && GetEvent(b, last) == Success((e, status, rest)) && !e.message.EndMsg?
    requires GetTrack(rest, remaining - (|b| - |rest|), status) == Success((events, after))
    ensures GetTrack(b, remaining, last) == Success(([e] + events, after))
  {
  }

  lemma LastEvent(b: Bytes, remaining: int, last: Byte, e: Timed, status: Byte, rest: Bytes, left: nat)
    requires remaining > 0 && GetEvent(b, last) == Success((e, status, rest)) && e.message.EndMsg?
    requires left == remaining - (|b| - |rest|) && left <= |rest|
    ensures GetTrack(b, remaining, last) == Success(([e], rest[left..]))
  {
  }

  lemma FirstEvent(events: seq<Timed>, omit: seq<bool>, junk: Bytes, rest: Bytes)
    requires |events| == |omit| && events != []
    requires forall i :: 0 <= i < |events| ==> events[i].delta >= 0
    ensures var first, later := EncodeEvent(events[0], omit[0]), EncodeEvents(events[1..], omit[1..]) + junk;
            EncodeEvents(events, omit) + junk + rest == first + (later + rest) &&
            |EncodeEvents(events, omit) + junk| == |first| + |later|
  {
    hide EncodeEvent, EncodeEvents;
    EventsUnfold(events, omit);
    Regroup(EncodeEvent(events[0], omit[0]), EncodeEvents(events[1..], omit[1..]), junk, rest);
  }

  lemma EventsUnfold(events: seq<Timed>, omit: seq<bool>)
    requires |events| == |omit| && events != []
    requires forall i :: 0 <= i < |events| ==> events[i].delta >= 0
    ensures EncodeEvents(events, omit) == EncodeEvent(events[0], omit[0]) + EncodeEvents(events[1..], omit[1..])
  {
    hide EncodeEvent;
  }

  lemma Regroup(a: Bytes, b: Bytes, c: Bytes, d: Bytes)
    ensures a + b + c + d == a + (b + c + d)
  {
  }

  /** For every legal event list and every legal use of running status, reading the encoded chunk gives back the
      events and stops exactly at the end of the chunk; bytes between the end-of-track event and the end of the
      chunk are skipped. */
  lemma {:induction false} TrackRoundTrip(events: seq<Timed>, omit: seq<bool>, last: Byte, junk: Bytes, rest: Bytes)
    requires |events| == |omit| && Legal(events, omit, last)
    requires junk != [] ==> events != [] && events[|events| - 1].message.EndMsg?
    requires forall i :: 0 <= i < |events| ==> events[i].delta >= 0
    ensures var chunk := EncodeEvents(events, omit) + junk;
            GetTrack(chunk + rest, |chunk|, last) == Success((events, rest))
  {
    hide GetEvent, EncodeEvent, EncodeEvents, EncodeBody, StatusOf, Encodable, MayOmit, GetTrack;
    if events == [] {
      NoEvents(omit, rest, last);
    } else {
      var b, size := EncodeEvents(events, omit) + junk + rest, |EncodeEvents(events, omit) + junk|;
      var e, later := events[0], EncodeEvents(events[1..], omit[1..]) + junk;
      FirstEvent(events, omit, junk, rest);
      EventRoundTrip(e, omit[0], last, later + rest);
      EventSize(e, omit[0]);
      if e.message.EndMsg? {
        NoEvents(omit[1..], rest, last);
        assert later == junk && events == [e];
        LastEvent(b, size, last, e, StatusOf(e.message), [0] + (junk + rest), 1 + |junk|);
        assert ([0] + (junk + rest))[1 + |junk|..] == rest;
      } else {
        TrackRoundTrip(events[1..], omit[1..], StatusOf(e.message), junk, rest);
        NextEvent(b, size, last, e, StatusOf(e.message), later + rest, events[1..], rest);
        assert [e] + events[1..] == events;
      }
    }
  }

  lemma NoEvents(omit: seq<bool>, b: Bytes, last: Byte)
    ensures omit == [] ==> EncodeEvents([], omit) == []
    ensures [] + [] + b == b && GetTrack(b, 0, last) == Success(([], b))
  {
  }

  lemma EventSize(e: Timed, omit: bool)
    requires e.delta >= 0
    ensures |EncodeEvent(e, omit)| > 0
  {
  }
}
