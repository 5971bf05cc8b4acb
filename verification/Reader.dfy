/** The file reader itself (midiread.c): one pass over the bytes with a running count, push-back of a byte that
    turns out not to be a status byte, and note pairing on the fly. */
module Reader {
  import opened Common
  import opened Elements
  import opened Smf
  import opened Pairing
  import opened MidiFile

  /** struct midistate and the file it reads. `elements` is the track being filled. */
  class MidiReader {
    const input: Bytes
    var pos: nat
    var currentTime: int
    var port: Byte
    var device: nat
    var chunkSize: int
    var chunkCount: int
    var notes: seq<nat>
    var elements: seq<Element>
    var tempoMap: seq<Element>

    ghost predicate Valid()
      reads this
    {
      pos <= |input| && Sane(elements, notes)
    }

    /** The bytes not read yet. */
    ghost function Rest(): Bytes
      reads this
      requires pos <= |input|
    {
      input[pos..]
    }

    ghost function State(): TrackState
      reads this
    {
      TrackState(currentTime, port, elements, notes, tempoMap)
    }

    constructor (input: Bytes)
      ensures Valid() && Rest() == input && port == 0 && notes == [] && tempoMap == []
      ensures this.input == input
    {
      this.input := input;
      pos, currentTime, port, device, chunkSize, chunkCount := 0, 0, 0, 0, 0, 0;
      notes, elements, tempoMap := [], [], [];
    }

    // ----- bytes and numbers; chunkCount moves with the file position

    /** read_int. */
    method ReadInt(n: nat) returns (r: Result<int, ReadError>)
      requires Valid()
      modifies this`pos, this`chunkCount
      ensures Valid() && (r.Success? ==> chunkCount - old(chunkCount) == pos - old(pos))
      ensures match GetInt(old(Rest()), n, 0)
              case Success((val, rest)) => r == Success(val) && Rest() == rest
              case Failure(e) => r == Failure(e)
    {
      var val, i := 0, 0;
      while i < n
        invariant 0 <= i <= n && Valid() && chunkCount - old(chunkCount) == pos - old(pos)
        invariant GetInt(old(Rest()), n, 0) == GetInt(Rest(), n - i, val)
      {
        chunkCount := chunkCount + 1;
        if pos == |input| {
          return Failure(UnexpectedEof);
        }
        val := Int32(val * 256 + input[pos]);
        pos := pos + 1;
        i := i + 1;
      }
      return Success(val);
    }

    /** read_var. */
    method ReadVar() returns (r: Result<int, ReadError>)
      requires Valid()
      modifies this`pos, this`chunkCount
      ensures Valid() && (r.Success? ==> chunkCount - old(chunkCount) == pos - old(pos))
      ensures match GetVar(old(Rest()), 0)
              case Success((val, rest)) => r == Success(val) && Rest() == rest
              case Failure(e) => r == Failure(e)
    {
      var val := 0;
      while true
        invariant Valid() && chunkCount - old(chunkCount) == pos - old(pos)
        invariant GetVar(old(Rest()), 0) == GetVar(Rest(), val)
        decreases |input| - pos
      {
        chunkCount := chunkCount + 1;
        if pos == |input| {
          return Failure(UnexpectedEof);
        }
        var c := input[pos];
        pos := pos + 1;
        val := Int32(val * 128 + c % 128);
        if c < 0x80 {
          return Success(val);
        }
      }
    }

    /** put_back: the byte just read will be read again. */
    method PutBack()
      requires Valid() && pos > 0
      modifies this`pos, this`chunkCount
      ensures Valid() && pos == old(pos) - 1 && chunkCount == old(chunkCount) - 1
      ensures Rest() == [input[pos]] + old(Rest())
    {
      pos := pos - 1;
      chunkCount := chunkCount - 1;
    }

    /** read_data. */
    method ReadData(length: int) returns (r: Result<Bytes, ReadError>)
      requires Valid()
      modifies this`pos, this`chunkCount
      ensures Valid() && (r.Success? ==> chunkCount - old(chunkCount) == pos - old(pos))
      ensures match GetData(old(Rest()), length)
              case Success((data, rest)) => r == Success(data) && Rest() == rest
              case Failure(e) => r == Failure(e)
    {
      if length == 0 {
        return Success([]);
      }
      if length < 0 || pos + length > |input| {
        return Failure(UnexpectedEof);
      }
      var data := input[pos..pos + length];
      assert data == old(Rest())[..length];
      pos := pos + length;
      chunkCount := chunkCount + length;
      return Success(data);
    }

    /** skip_chunk. */
    method SkipChunk() returns (r: Result<(), ReadError>)
      requires Valid()
      modifies this`pos, this`chunkCount
      ensures Valid() && (r.Success? ==> chunkCount - old(chunkCount) == pos - old(pos))
      ensures match Skip(old(Rest()), chunkSize - old(chunkCount))
              case Success(rest) => r == Success(()) && Rest() == rest && chunkCount >= chunkSize
              case Failure(e) => r == Failure(e)
    {
      while chunkCount < chunkSize
        invariant Valid() && chunkCount - old(chunkCount) == pos - old(pos)
        invariant Skip(old(Rest()), chunkSize - old(chunkCount)) == Skip(Rest(), chunkSize - chunkCount)
      {
        var rest := ReadInt(1);
        if rest.Failure? {
          return Failure(rest.error);
        }
      }
      return Success(());
    }

    // ----- notes

    /** save_note: the new note's element is about to be added to the track. */
    method SaveNote(key: Byte, velocity: Byte) returns (e: Element)
      requires Valid()
      modifies this`notes
      ensures e == Note(U32(currentTime), device, key, velocity, -1, 0)
      ensures notes == old(notes) + [|elements|]
    {
      notes := notes + [|elements|];
      return Note(U32(currentTime), device, key, velocity, -1, 0);
    }

    /** finish_note: search the pending notes backwards, fill in the length, and remove the entry. */
    method FinishNote(key: Byte, velocity: Byte)
      requires Valid()
      modifies this`notes, this`elements
      ensures Valid() && State() == Finish(old(State()), device, key, velocity)
    {
      hide FindPending, Finish;
      var i := |notes| - 1;
      assert notes[..|notes|] == notes;
      while i >= 0
        invariant -1 <= i < |notes| && State() == old(State())
        invariant Sane(elements, notes[..i + 1])
        invariant FindPending(elements, notes, device, key) == FindPending(elements, notes[..i + 1], device, key)
      {
        FindStep(elements, notes, i, device, key);
        var n := elements[notes[i]];
        if n.key == key && n.channel == device {
          FinishFound(State(), device, key, velocity, i);
          var length := Int32(currentTime - n.time);
          if length < 0 {
            length := 0;
          }
          elements := elements[notes[i] := n.(length := length, offVelocity := velocity)];
          notes := notes[i := notes[|notes| - 1]][..|notes| - 1];
          return;
        }
        i := i - 1;
      }
      FindNothing(State(), device, key, velocity);
    }

    // ----- events

    /** handle_meta: tempo-map entries go to the tempo map; the element, if any, is returned. */
    method HandleMeta(kind: Byte, data: Bytes) returns (r: Result<Option<Element>, ReadError>)
      modifies this`port, this`tempoMap
      ensures r.Failure? <==> !MetaFits(kind, data)
      ensures r.Failure? ==> r.error == Overread
      ensures var m := MetaMsg(kind, data);
              r.Success? ==>
                r.value == MakeElement(U32(currentTime), 0, m) && port == NextPort(old(port), m) &&
                tempoMap == match MakeMap(U32(currentTime), m) case Some(e) => old(tempoMap) + [e] case None => old(tempoMap)
    {
      var el: Option<Element> := None;
      var map': Option<Element> := None;
      if 1 <= kind <= 7 {
        el := Some(Text(U32(currentTime), kind, data));
      } else if kind == META_PORT {
        port := ByteAt(data, 0);
      } else if kind == META_TEMPO {
        if |data| < 2 {
          return Failure(Overread);
        }
        map' := Some(Tempo(U32(currentTime), ByteAt(data, 0) * 0x10000 + ByteAt(data, 1) * 0x100 + ByteAt(data, 2)));
      } else if kind == META_SMPTE {
        if |data| < 4 {
          return Failure(Overread);
        }
        el := Some(SmpteOffset(U32(currentTime), data));
      } else if kind == META_TIME {
        if |data| < 3 {
          return Failure(Overread);
        }
        map' := Some(TimeSignature(U32(currentTime), data));
      } else if kind == META_KEY {
        if |data| < 1 {
          return Failure(Overread);
        }
        map' := Some(KeySignature(U32(currentTime), data));
      }
      if map'.Some? {
        tempoMap := tempoMap + [map'.value];
      }
      return Success(el);
    }

    /** The element of a channel message with two data bytes, or the note it ends. */
    method HandleTwoBytes(kind: Byte, x: Byte, y: Byte) returns (el: Option<Element>)
      requires Valid() && (kind == 0x80 || kind == 0x90 || kind == 0xA0 || kind == 0xB0 || kind == 0xE0)
      modifies this`notes, this`elements
      ensures old(elements) == elements || el.None?
      ensures forall ch: ChannelIndex :: device == Device(port, ch) ==> Joined(State(), el) == ApplyMessage(old(State()), TwoByte(kind, ch, x, y))
    {
      if kind == 0x80 || (kind == 0x90 && y == 0) {
        FinishNote(x, y);
        return None;
      } else if kind == 0x90 {
        var e := SaveNote(x, y);
        return Some(e);
      } else if kind == 0xA0 {
        return Some(KeyTouch(U32(currentTime), device, x, y));
      } else if kind == 0xB0 {
        return Some(Control(U32(currentTime), device, x, y));
      } else {
        return Some(Pitch(U32(currentTime), device, WheelValue(x, y) - 0x2000));
      }
    }

    /** handle_status for channel messages: the element to be added, if any. */
    method HandleChannelMessage(status: Byte) returns (r: Result<Option<Element>, ReadError>)
      requires Valid() && 0x80 <= status < 0xF0 && device == Device(port, status % 16)
      modifies this`pos, this`chunkCount, this`notes, this`elements
      ensures pos <= |input| && (r.Success? ==> chunkCount - old(chunkCount) == pos - old(pos))
      ensures match GetBody(old(Rest()), status)
              case Success((m, rest)) => r.Success? && Rest() == rest && Joined(State(), r.value) == ApplyMessage(old(State()), m) && !m.EndMsg?
              case Failure(e) => r == Failure(e)
    {
      hide GetBody, ApplyMessage, GetInt;
      var kind := status - status % 16;
      ChannelBody(Rest(), status);
      OneByte(Rest());
      var first := ReadInt(1);
      if first.Failure? {
        return Failure(first.error);
      }
      var x: Byte := first.value;
      if kind == 0xC0 {
        OneByteEffect(State(), status, x);
        return Success(Some(Program(U32(currentTime), device, x)));
      } else if kind == 0xD0 {
        OneByteEffect(State(), status, x);
        return Success(Some(Pressure(U32(currentTime), device, x)));
      }
      OneByte(Rest());
      var second := ReadInt(1);
      if second.Failure? {
        return Failure(second.error);
      }
      var el := HandleTwoBytes(kind, x, second.value);
      return Success(el);
    }

    /** handle_status for system exclusive and meta events other than the end of the track. */
    method HandleSystemMessage(status: Byte, metaKind: Byte) returns (r: Result<Option<Element>, ReadError>)
      requires Valid() && status >= 0xF0
      modifies this`pos, this`chunkCount, this`port, this`tempoMap
      ensures pos <= |input| && (r.Success? ==> chunkCount - old(chunkCount) == pos - old(pos))
      ensures match GetPayload(old(Rest()), status, metaKind)
              case Success((m, rest)) => r.Success? && Rest() == rest && Joined(State(), r.value) == ApplyMessage(old(State()), m)
              case Failure(e) => r == Failure(e)
    {
      var length := ReadVar();
      if length.Failure? {
        return Failure(length.error);
      }
      var data := ReadData(length.value);
      if data.Failure? {
        return Failure(data.error);
      }
      if status == 0xFF {
        r := HandleMeta(metaKind, data.value);
      } else {
        r := Success(Some(Sysex(U32(currentTime), status, data.value)));
      }
    }

    /** handle_status: read the rest of the event and apply it; the end of the track skips to the end of the chunk. */
    method HandleStatus(status: Byte) returns (r: Result<(), ReadError>)
      requires Valid()
      modifies this`pos, this`chunkCount, this`device, this`notes, this`elements, this`port, this`tempoMap
      ensures r.Success? ==> Valid() && chunkCount - old(chunkCount) == pos - old(pos)
      ensures match GetBody(old(Rest()), status)
              case Failure(e) => r == Failure(e)
              case Success((m, rest)) =>
                if m.EndMsg? then
                  match Skip(rest, chunkSize - old(chunkCount) - 1)
                  case Failure(e) => r == Failure(e)
                  case Success(after) => r.Success? && Rest() == after && State() == old(State())
                else
                  r.Success? && Rest() == rest && State() == ApplyMessage(old(State()), m)
    {
      hide ApplyMessage, GetInt, Sane;
      var ch := status % 16;
      device := if status < 0xF0 then Device(port, ch) else 0;
      var el: Result<Option<Element>, ReadError>;
      if status < 0x80 {
        return Failure(BadStatus);
      } else if status < 0xF0 {
        el := HandleChannelMessage(status);
      } else {
        SystemBody(Rest(), status);
        var metaKind: Byte := 0;
        if ch == 15 {
          OneByte(Rest());
          var kind := ReadInt(1);
          if kind.Failure? {
            return Failure(kind.error);
          }
          metaKind := kind.value;
          if metaKind == META_END {
            r := SkipChunk();
            return;
          }
        }
        el := HandleSystemMessage(status, metaKind);
      }
      if el.Failure? {
        return Failure(el.error);
      }
      if el.value.Some? {
        elements := elements + [el.value.value];
      }
      return Success(());
    }

    // ----- tracks

    /** One round of the loop in read_track: delta time, status byte or running status, and the event. */
    method ReadEvent(lastStatus: Byte) returns (r: Result<Byte, ReadError>, ghost e: Timed)
      requires Valid()
      modifies this
      ensures r.Success? ==> Valid() && chunkCount - old(chunkCount) == pos - old(pos) && pos > old(pos)
      ensures chunkSize == old(chunkSize)
      ensures match Round(old(Rest()), chunkSize - old(chunkCount), lastStatus)
              case Failure(x) => r == Failure(x)
              case Success((event, status, rest)) =>
                e == event && r == Success(status) && Rest() == rest && State() == Apply(old(State()), event)
    {
      hide GetInt, GetVar, GetBody, ApplyMessage, Sane, Skip, Int32;
      ghost var b := Rest();
      e := Timed(0, EndMsg);
      var delta := ReadVar();
      if delta.Failure? {
        return Failure(delta.error), e;
      }
      currentTime := Int32(currentTime + delta.value);
      OneByte(Rest());
      var first := ReadInt(1);
      if first.Failure? {
        return Failure(first.error), e;
      }
      var status: Byte := first.value;
      if status < 0x80 {
        PutBack();
        status := lastStatus;
      }
      ghost var before := State();
      ghost var body := GetBody(Rest(), status);
      EndNoEffect(before);
      if body.Success? {
        e := Timed(delta.value, body.value.0);
      }
      var handled := HandleStatus(status);
      if handled.Failure? {
        return Failure(handled.error), e;
      }
      return Success(status), e;
    }

    /** The event loop of read_track. */
    method ReadEvents() returns (r: Result<(), ReadError>, ghost done: seq<Timed>)
      requires Valid() && chunkCount == 0
      modifies this
      ensures match GetTrack(old(Rest()), old(chunkSize), 0)
              case Failure(x) => r == Failure(x)
              case Success((events, rest)) =>
                r.Success? && done == events && Valid() && Rest() == rest && State() == Interpret(old(State()), events)
      ensures r.Success? ==> chunkCount == |old(Rest())| - |Rest()| && chunkCount >= old(chunkSize)
    {
      hide Round, Apply, Sane, GetTrack, Interpret, After;
      NothingInterpreted(State());
      done := [];
      var lastStatus: Byte := 0;
      ghost var b := Rest();
      ghost var result := GetTrack(b, chunkSize, 0);
      StartTrack(result);
      while chunkCount < chunkSize
        invariant Valid() && chunkSize == old(chunkSize)
        invariant chunkCount == |b| - |Rest()|
        invariant State() == Interpret(old(State()), done)
        invariant result == After(done, GetTrack(Rest(), chunkSize - chunkCount, lastStatus))
        decreases |input| - pos
      {
        TrackStep(Rest(), chunkSize - chunkCount, lastStatus, done);
        var status, e := ReadEvent(lastStatus);
        if status.Failure? {
          return Failure(status.error), done;
        }
        InterpretNext(old(State()), done, e);
        done := done + [e];
        lastStatus := status.value;
      }
      TrackOver(Rest(), chunkSize - chunkCount, lastStatus, done);
      return Success(()), done;
    }

    /** The loop after `restart`: finish every note still pending, starting over each time. */
    method FinishNotes()
      requires Valid()
      modifies this`device, this`notes, this`elements
      ensures Valid() && State() == FinishAll(old(State()))
    {
      hide Finish;
      while |notes| > 0
        invariant Valid() && FinishAll(State()) == FinishAll(old(State()))
        decreases |notes|
      {
        var first := elements[notes[0]];
        PendingFound(State());
        device := first.channel;
        FinishNote(first.key, 0);
      }
    }

    /** read_track: the elements of the next track chunk. */
    method ReadTrack() returns (r: Result<seq<Element>, ReadError>)
      requires Valid() && notes == []
      modifies this
      ensures match GetChunk(old(Rest()))
              case Failure(x) => r == Failure(x)
              case Success((events, rest)) =>
                var t := TrackResult(old(port), old(tempoMap), events);
                r == Success(t.elements) && Valid() && Rest() == rest && port == t.port && tempoMap == t.maps && notes == []
    {
      hide GetTrack, Interpret, GetInt, Finish, FinishAll, Sane;
      var head := ReadInt(4);
      if head.Failure? {
        return Failure(head.error);
      }
      if head.value != TRACK_MAGIC {
        return Failure(BadTrackHeader);
      }
      var length := ReadInt(4);
      if length.Failure? {
        return Failure(length.error);
      }
      chunkSize := length.value;
      chunkCount := 0;
      elements := [];
      currentTime := 0;
      NothingPending();
      var read, events := ReadEvents();
      if read.Failure? {
        return Failure(read.error);
      }
      NothingLeft(State());
      FinishNotes();
      return Success(elements);
    }

    // ----- the file

    /** The last loop of read_head: header bytes of a later format are passed over; reaching the end of the file is no error here. */
    method SkipExtra(n: nat)
      requires Valid()
      modifies this`pos
      ensures Valid() && Rest() == Drop(old(Rest()), n)
    {
      var extra := n;
      while extra > 0
        invariant 0 <= extra <= n && Valid()
        invariant Rest() == Drop(old(Rest()), n - extra)
      {
        extra := extra - 1;
        if pos < |input| {
          pos := pos + 1;
        }
      }
    }

    /** read_head. */
    method ReadHead() returns (r: Result<Header, ReadError>)
      requires Valid()
      modifies this`pos, this`chunkCount
      ensures match GetHeader(old(Rest()))
              case Failure(x) => r == Failure(x)
              case Success((h, rest)) => r == Success(h) && Valid() && Rest() == rest
    {
      hide GetInt;
      var magic := ReadInt(4);
      if magic.Failure? {
        return Failure(magic.error);
      }
      if magic.value != HEAD_MAGIC {
        return Failure(BadHeader);
      }
      var read := ReadInt(4);
      if read.Failure? {
        return Failure(read.error);
      }
      var length := read.value;
      if length < 6 {
        return Failure(BadHeaderLength);
      }
      var format := ReadInt(2);
      if format.Failure? {
        return Failure(format.error);
      }
      var trackCount := ReadInt(2);
      if trackCount.Failure? {
        return Failure(trackCount.error);
      }
      var timeBase := ReadInt(2);
      if timeBase.Failure? {
        return Failure(timeBase.error);
      }
      SkipExtra(length - 6);
      return Success(Header(Int16(format.value), Int16(trackCount.value), Int16(timeBase.value)));
    }

    /** midi_read: the header, then every track; an empty first track of a format 1 file is dropped. */
    method MidiRead() returns (r: Result<SongFile, ReadError>)
      requires Valid() && port == 0 && notes == [] && tempoMap == []
      modifies this
      ensures r == GetFile(old(Rest()))
    {
      hide GetHeader, GetChunk, TrackResult, Sane, GetTracks;
      var h := ReadHead();
      if h.Failure? {
        return Failure(h.error);
      }
      var tracks: seq<seq<Element>> := [];
      ghost var all := GetTracks(Rest(), h.value, 0, port, tempoMap);
      NoTracksYet(all);
      var i := 0;
      while i < h.value.trackCount
        invariant 0 <= i && Valid() && notes == []
        invariant all == Joining(tracks, GetTracks(Rest(), h.value, i, port, tempoMap))
        decreases h.value.trackCount - i
      {
        TracksStep(Rest(), h.value, i, port, tempoMap, tracks);
        var track := ReadTrack();
        if track.Failure? {
          return Failure(track.error);
        }
        if !(h.value.format == 1 && i == 0 && |track.value| == 0) {
          tracks := tracks + [track.value];
        }
        i := i + 1;
      }
      TracksOver(Rest(), h.value, i, port, tempoMap, tracks);
      return Success(SongFile(h.value.timeBase % TWO_16, tempoMap, tracks));
    }
  }

  /** The state once the element of the current message has been added to the track. */
  function Joined(s: TrackState, el: Option<Element>): TrackState {
    if el.Some? then s.(elements := s.elements + [el.value]) else s
  }

  /** The data of a system message, after the kind of a meta event has been read. */
  function GetPayload(b: Bytes, status: Byte, metaKind: Byte): Result<(Message, Bytes), ReadError> {
    var (length, b1) :- GetVar(b, 0);
    var (data, rest) :- GetData(b1, length);
    if status != 0xFF then Success((SysexMsg(status, data), rest))
    else if MetaFits(metaKind, data) then Success((MetaMsg(metaKind, data), rest)) else Failure(Overread)
  }

  /** The result of a track of which some events have been read already. */
  ghost function After(done: seq<Timed>, r: Result<(seq<Timed>, Bytes), ReadError>): Result<(seq<Timed>, Bytes), ReadError> {
    match r
    case Success((events, rest)) => Success((done + events, rest))
    case Failure(e) => Failure(e)
  }

  lemma StartTrack(r: Result<(seq<Timed>, Bytes), ReadError>)
    ensures After([], r) == r
  {
    if r.Success? {
      assert [] + r.value.0 == r.value.0;
    }
  }

  lemma TrackOver(b: Bytes, remaining: int, last: Byte, done: seq<Timed>)
    requires remaining <= 0
    ensures After(done, GetTrack(b, remaining, last)) == Success((done, b))
  {
    assert done + [] == done;
  }

  /** One event; after the end-of-track event, also the rest of the chunk. */
  function Round(b: Bytes, remaining: int, last: Byte): Result<(Timed, Byte, Bytes), ReadError> {
    var (event, status, rest) :- GetEvent(b, last);
    if event.message.EndMsg? then
      var after :- Skip(rest, remaining - (|b| - |rest|));
      Success((event, status, after))
    else
      Success((event, status, rest))
  }

  /** One event's share of a track. */
  lemma TrackStep(b: Bytes, remaining: int, last: Byte, done: seq<Timed>)
    requires remaining > 0
    ensures match Round(b, remaining, last)
            case Failure(x) => After(done, GetTrack(b, remaining, last)) == Failure(x)
            case Success((event, status, rest)) =>
              After(done, GetTrack(b, remaining, last)) == After(done + [event], GetTrack(rest, remaining - (|b| - |rest|), status))
  {
    hide GetEvent;
    if GetEvent(b, last).Success? {
      var (event, status, rest) := GetEvent(b, last).value;
      if !event.message.EndMsg? {
        var later := GetTrack(rest, remaining - (|b| - |rest|), status);
        if later.Success? {
          assert done + ([event] + later.value.0) == done + [event] + later.value.0;
        }
      } else {
        assert (done + [event]) + [] == done + [event];
      }
    }
  }

  lemma NothingInterpreted(s: TrackState)
    requires Sane(s.elements, s.pending)
    ensures Interpret(s, []) == s
  {
  }

  lemma InterpretNext(s: TrackState, done: seq<Timed>, e: Timed)
    requires Sane(s.elements, s.pending)
    ensures Interpret(s, done + [e]) == Apply(Interpret(s, done), e)
  {
    assert (done + [e])[..|done|] == done;
  }

  lemma EndNoEffect(s: TrackState)
    requires Sane(s.elements, s.pending)
    ensures ApplyMessage(s, EndMsg) == s
  {
  }

  lemma PendingFound(s: TrackState)
    requires Sane(s.elements, s.pending) && s.pending != []
    ensures var first := s.elements[s.pending[0]];
            FinishAll(s) == FinishAll(Finish(s, first.channel, first.key, 0)) && |Finish(s, first.channel, first.key, 0).pending| < |s.pending|
  {
  }

  lemma NothingLeft(s: TrackState)
    requires Sane(s.elements, s.pending)
    ensures FinishAll(s).pending == []
    decreases |s.pending|
  {
    if s.pending != [] {
      PendingFound(s);
      var first := s.elements[s.pending[0]];
      NothingLeft(Finish(s, first.channel, first.key, 0));
    }
  }

  lemma NothingPending()
    ensures Sane([], [])
  {
  }

  /** The result of a file of which some tracks have been read already. */
  ghost function Joining(tracks: seq<seq<Element>>, r: Result<(seq<seq<Element>>, seq<Element>), ReadError>)
    : Result<(seq<seq<Element>>, seq<Element>), ReadError>
  {
    match r
    case Success((more, maps)) => Success((tracks + more, maps))
    case Failure(e) => Failure(e)
  }

  lemma NoTracksYet(r: Result<(seq<seq<Element>>, seq<Element>), ReadError>)
    ensures Joining([], r) == r
  {
    if r.Success? {
      assert [] + r.value.0 == r.value.0;
    }
  }

  lemma TracksOver(b: Bytes, h: Header, i: nat, port: Byte, maps: seq<Element>, tracks: seq<seq<Element>>)
    requires i >= h.trackCount
    ensures Joining(tracks, GetTracks(b, h, i, port, maps)) == Success((tracks, maps))
  {
    assert tracks + [] == tracks;
  }

  lemma TracksStep(b: Bytes, h: Header, i: nat, port: Byte, maps: seq<Element>, tracks: seq<seq<Element>>)
    requires i < h.trackCount
    ensures match GetChunk(b)
            case Failure(x) => Joining(tracks, GetTracks(b, h, i, port, maps)) == Failure(x)
            case Success((events, rest)) =>
              var t := TrackResult(port, maps, events);
              Joining(tracks, GetTracks(b, h, i, port, maps)) ==
              Joining(if Dropped(h.format, i, t.elements) then tracks else tracks + [t.elements], GetTracks(rest, h, i + 1, t.port, t.maps))
  {
    hide GetChunk, TrackResult;
    if GetChunk(b).Success? {
      var (events, rest) := GetChunk(b).value;
      var t := TrackResult(port, maps, events);
      var later := GetTracks(rest, h, i + 1, t.port, t.maps);
      if later.Success? {
        assert tracks + ([t.elements] + later.value.0) == tracks + [t.elements] + later.value.0;
      }
    }
  }

  lemma FindStep(elements: seq<Element>, pending: seq<nat>, i: nat, channel: nat, key: Byte)
    requires Sane(elements, pending) && i < |pending|
    ensures FindPending(elements, pending[..i + 1], channel, key) ==
            if Matches(elements[pending[i]], channel, key) then Some(i) else FindPending(elements, pending[..i], channel, key)
  {
    assert pending[..i + 1][..i] == pending[..i];
  }

  lemma FinishFound(s: TrackState, channel: nat, key: Byte, velocity: Byte, i: nat)
    requires Sane(s.elements, s.pending) && FindPending(s.elements, s.pending, channel, key) == Some(i)
    ensures i < |s.pending|
    ensures Finish(s, channel, key, velocity) ==
            s.(elements := s.elements[s.pending[i] := Finished(s.elements[s.pending[i]], s.time, velocity)], pending := RemoveFast(s.pending, i))
  {
  }

  lemma FindNothing(s: TrackState, channel: nat, key: Byte, velocity: Byte)
    requires Sane(s.elements, s.pending)
    ensures FindPending(s.elements, [], channel, key) == None
    ensures FindPending(s.elements, s.pending, channel, key) == None ==> Finish(s, channel, key, velocity) == s
  {
  }

  lemma OneByte(b: Bytes)
    ensures GetInt(b, 1, 0) == match GetByte(b) case Success((c, rest)) => Success((c, rest)) case Failure(e) => Failure(e)
  {
    if b != [] {
      assert GetInt(b[1..], 0, b[0]) == Success((b[0], b[1..]));
    }
  }

  /** How the body of a channel message is read. */
  lemma ChannelBody(b: Bytes, status: Byte)
    requires 0x80 <= status < 0xF0
    ensures var kind := status - status % 16;
            (kind == 0x80 || kind == 0x90 || kind == 0xA0 || kind == 0xB0 || kind == 0xC0 || kind == 0xD0 || kind == 0xE0) &&
            GetBody(b, status) ==
            match GetByte(b)
            case Failure(e) => Failure(e)
            case Success((x, b1)) =>
              if kind == 0xC0 || kind == 0xD0 then
                Success((if kind == 0xC0 then ProgramMsg(status % 16, x) else PressureMsg(status % 16, x), b1))
              else
                match GetByte(b1)
                case Failure(e) => Failure(e)
                case Success((y, rest)) => Success((TwoByte(kind, status % 16, x, y), rest))
  {
  }

  /** How the body of a system message is read. */
  lemma SystemBody(b: Bytes, status: Byte)
    requires status >= 0xF0
    ensures status == 0xFF ==>
              GetBody(b, status) ==
              (match GetByte(b)
               case Failure(e) => Failure(e)
               case Success((kind, rest)) => if kind == META_END then Success((EndMsg, rest)) else GetPayload(rest, status, kind))
    ensures status < 0xFF ==> GetBody(b, status) == GetPayload(b, status, 0)
  {
  }

  lemma OneByteEffect(s: TrackState, status: Byte, x: Byte)
    requires Sane(s.elements, s.pending)
    ensures ApplyMessage(s, ProgramMsg(status % 16, x)) == Joined(s, Some(Program(U32(s.time), Device(s.port, status % 16), x)))
    ensures ApplyMessage(s, PressureMsg(status % 16, x)) == Joined(s, Some(Pressure(U32(s.time), Device(s.port, status % 16), x)))
  {
  }
}
