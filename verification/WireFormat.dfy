/** The file format byte by byte: what given bytes are read as, when reading fails, and what each message does. */
module WireFormat {
  import opened Common
  import opened Elements
  import opened Smf
  import opened Pairing
  import opened MidiFile

  // ----- numbers

  /** Base-128 digits, most significant first. */
  ghost predicate AreDigits(digits: seq<nat>) {
    digits != [] && forall i :: 0 <= i < |digits| ==> digits[i] < 128
  }

  function DigitsValue(digits: seq<nat>): nat {
    if digits == [] then 0 else DigitsValue(digits[..|digits| - 1]) * 128 + digits[|digits| - 1]
  }

  /** The digits as bytes: the high bit is set on all but the last. */
  ghost function DigitBytes(digits: seq<nat>): Bytes
    requires AreDigits(digits)
  {
    seq(|digits|, i requires 0 <= i < |digits| => if i < |digits| - 1 then digits[i] + 128 else digits[i])
  }

  lemma VarStep(b: Bytes, val: int)
    requires b != []
    ensures GetVar(b, val) ==
            var v := Int32(val * 128 + b[0] % 128); if b[0] >= 128 then GetVar(b[1..], v) else Success((v, b[1..]))
  {
  }

  lemma IntPush(val: int, factor: nat, digit: nat)
    requires factor == 128 || factor == 256
    ensures Int32(Int32(val) * factor + digit) == Int32(val * factor + digit)
  {
    var k := (Int32(val) - val) / TWO_32;
    assert Int32(val) == val + k * TWO_32;
    Turn(val * factor + digit, k * factor);
  }

  lemma Turn(x: int, k: int)
    ensures Int32(x + k * TWO_32) == Int32(x)
  {
    assert (x + k * TWO_32) % TWO_32 == x % TWO_32;
  }

  lemma {:induction false} VarFrom(digits: seq<nat>, n: nat, rest: Bytes)
    requires AreDigits(digits) && n < |digits|
    ensures GetVar(DigitBytes(digits)[n..] + rest, Int32(DigitsValue(digits[..n]))) == Success((Int32(DigitsValue(digits)), rest))
    decreases |digits| - n
  {
    hide GetVar, Int32;
    var b := DigitBytes(digits)[n..] + rest;
    VarStep(b, Int32(DigitsValue(digits[..n])));
    assert digits[..n + 1][..n] == digits[..n];
    IntPush(DigitsValue(digits[..n]), 128, digits[n]);
    if n + 1 < |digits| {
      assert b[1..] == DigitBytes(digits)[n + 1..] + rest;
      LowBits(digits[n]);
      VarFrom(digits, n + 1, rest);
    } else {
      assert b[1..] == rest && digits[..n + 1] == digits;
    }
  }

  lemma LowBits(d: nat)
    requires d < 128
    ensures (d + 128) % 128 == d
  {
  }

  /** A variable-length quantity of any number of bytes, leading zeros or not, is its base-128 value in 32 bits. */
  lemma VarWritten(digits: seq<nat>, rest: Bytes)
    requires AreDigits(digits)
    ensures GetVar(DigitBytes(digits) + rest, 0) == Success((Int32(DigitsValue(digits)), rest))
  {
    hide GetVar;
    assert DigitBytes(digits)[0..] == DigitBytes(digits) && digits[..0] == [];
    VarFrom(digits, 0, rest);
  }

  /** It cannot be read exactly when no byte below 128 is left. */
  lemma {:induction false} VarFails(b: Bytes, val: int)
    ensures GetVar(b, val).Failure? <==> forall i :: 0 <= i < |b| ==> b[i] >= 128
    ensures GetVar(b, val).Failure? ==> GetVar(b, val).error == UnexpectedEof
    decreases |b|
  {
    if b != [] {
      var v := Int32(val * 128 + b[0] % 128);
      VarFails(b[1..], v);
      assert forall i :: 0 < i < |b| ==> b[i] == b[1..][i - 1];
    }
  }

  lemma IntStep(b: Bytes, n: nat, val: int)
    requires b != [] && n > 0
    ensures GetInt(b, n, val) == GetInt(b[1..], n - 1, Int32(val * 256 + b[0]))
  {
  }

  lemma IntDone(b: Bytes, val: int)
    ensures GetInt(b, 0, val) == Success((val, b))
  {
  }

  lemma TwoBytes(x: Byte, y: Byte, rest: Bytes)
    ensures GetInt([x, y] + rest, 2, 0) == Success((x * 0x100 + y, rest))
  {
    hide GetInt;
    var b := [x, y] + rest;
    IntStep(b, 2, 0);
    IntStep(b[1..], 1, Int32(0 * 256 + x));
    assert b[1..][1..] == rest;
    IntDone(rest, x * 0x100 + y);
  }

  lemma FourBytes(w: Byte, x: Byte, y: Byte, z: Byte, rest: Bytes)
    ensures GetInt([w, x, y, z] + rest, 4, 0) == Success((Int32(w * 0x100_0000 + x * 0x1_0000 + y * 0x100 + z), rest))
  {
    hide GetInt, Int32;
    var b := [w, x, y, z] + rest;
    IntStep(b, 4, 0);
    IntStep(b[1..], 3, Int32(0 * 256 + w));
    IntPush(w, 256, x);
    IntStep(b[1..][1..], 2, Int32(w * 256 + x));
    IntPush(w * 256 + x, 256, y);
    IntStep(b[1..][1..][1..], 1, Int32((w * 256 + x) * 256 + y));
    IntPush((w * 256 + x) * 256 + y, 256, z);
    assert b[1..][1..][1..][1..] == rest;
    IntDone(rest, Int32(((w * 256 + x) * 256 + y) * 256 + z));
  }

  /** An integer can be read exactly when there are enough bytes. */
  lemma {:induction false} IntFails(b: Bytes, n: nat, val: int)
    ensures GetInt(b, n, val).Failure? <==> |b| < n
    ensures GetInt(b, n, val).Failure? ==> GetInt(b, n, val).error == UnexpectedEof
    decreases n
  {
    hide Int32;
    if n > 0 && b != [] {
      IntFails(b[1..], n - 1, Int32(val * 256 + b[0]));
    }
  }

  // ----- messages

  /** The seven kinds of channel messages. */
  lemma ChannelMessages(ch: ChannelIndex, x: Byte, y: Byte, rest: Bytes)
    ensures GetBody([x, y] + rest, 0x80 + ch) == Success((NoteOffMsg(ch, x, y), rest))
    ensures GetBody([x, y] + rest, 0x90 + ch) == Success((NoteOnMsg(ch, x, y), rest))
    ensures GetBody([x, y] + rest, 0xA0 + ch) == Success((TouchMsg(ch, x, y), rest))
    ensures GetBody([x, y] + rest, 0xB0 + ch) == Success((ControlMsg(ch, x, y), rest))
    ensures GetBody([x] + rest, 0xC0 + ch) == Success((ProgramMsg(ch, x), rest))
    ensures GetBody([x] + rest, 0xD0 + ch) == Success((PressureMsg(ch, x), rest))
    ensures GetBody([x, y] + rest, 0xE0 + ch) == Success((PitchMsg(ch, x, y), rest))
  {
    assert ([x, y] + rest)[1..][1..] == rest && ([x] + rest)[1..] == rest;
  }

  lemma ShortVar(n: nat, rest: Bytes)
    requires n < 128
    ensures GetVar([n] + rest, 0) == Success((n, rest))
  {
    assert ([n] + rest)[1..] == rest;
  }

  /** System exclusives under any status from 0xF0 to 0xFE; the data are what the length says. */
  lemma SysexMessages(status: Byte, data: Bytes, rest: Bytes)
    requires 0xF0 <= status < 0xFF && |data| < 128
    ensures GetBody([|data|] + data + rest, status) == Success((SysexMsg(status, data), rest))
  {
    hide GetVar;
    var b := [|data|] + data + rest;
    assert b == [|data|] + (data + rest);
    ShortVar(|data|, data + rest);
  }

  /** Meta events: the end of the track at once; any other kind with as many data bytes as its length says, refused only when
      a tempo has fewer than 2, an SMPTE offset fewer than 4, a time signature fewer than 3 or a key signature none. */
  lemma MetaMessages(kind: Byte, data: Bytes, rest: Bytes)
    requires |data| < 128
    ensures GetBody([0x2F] + rest, 0xFF) == Success((EndMsg, rest))
    ensures kind != 0x2F ==>
              GetBody([kind, |data|] + data + rest, 0xFF) ==
              if (kind == 0x51 && |data| < 2) || (kind == 0x54 && |data| < 4) || (kind == 0x58 && |data| < 3) || (kind == 0x59 && |data| < 1)
              then Failure(Overread) else Success((MetaMsg(kind, data), rest))
  {
    hide GetVar;
    assert ([0x2F] + rest)[1..] == rest;
    var b := [kind, |data|] + data + rest;
    assert b[1..] == [|data|] + (data + rest);
    ShortVar(|data|, data + rest);
  }

  /** The standard meta events can be encoded and read back, whatever their data: a tempo of three bytes, an SMPTE offset of
      five, a time signature of four, a key signature of two, and texts, ports and unknown kinds of any length. */
  lemma StandardMeta(kind: Byte, data: Bytes, rest: Bytes)
    requires |data| < 0x8000_0000 && kind != 0x2F
    requires (kind == 0x51 ==> |data| == 3) && (kind == 0x54 ==> |data| == 5) && (kind == 0x58 ==> |data| == 4) && (kind == 0x59 ==> |data| == 2)
    ensures Encodable(MetaMsg(kind, data))
    ensures GetBody([kind] + EncodeVar(|data|) + data + rest, 0xFF) == Success((MetaMsg(kind, data), rest))
  {
    hide GetBody, EncodeVar;
    BodyRoundTrip(MetaMsg(kind, data), rest);
  }

  /** Any status below 0x80, which only a missing running status can leave, is an error; so is a missing data byte. */
  lemma BodyFails(b: Bytes, status: Byte)
    ensures status < 0x80 ==> GetBody(b, status) == Failure(BadStatus)
    ensures status >= 0x80 && b == [] ==> GetBody(b, status) == Failure(UnexpectedEof)
    ensures 0x80 <= status < 0xF0 && status - status % 16 != 0xC0 && status - status % 16 != 0xD0 && |b| == 1 ==>
              GetBody(b, status) == Failure(UnexpectedEof)
  {
  }

  // ----- events and tracks

  /** After the delta time a byte of 0x80 and above is a new status; any other is the first byte of an event under the
      status in force, whichever that is. */
  lemma StatusWritten(delta: nat, b: Bytes, last: Byte)
    requires delta < 128 && b != []
    ensures GetEvent([delta] + b, last) ==
            var status := if b[0] >= 0x80 then b[0] else last;
            match GetBody(if b[0] >= 0x80 then b[1..] else b, status)
            case Success((m, rest)) => Success((Timed(delta, m), status, rest))
            case Failure(e) => Failure(e)
  {
    hide GetVar, GetBody;
    ShortVar(delta, b);
  }

  /** Reading stops as soon as the chunk is used up, also when its last event runs past the end of the chunk; after the
      end-of-track event the rest of the chunk, if any, is passed over and has to be there. */
  lemma TrackStops(b: Bytes, remaining: int, last: Byte)
    ensures remaining <= 0 ==> GetTrack(b, remaining, last) == Success(([], b))
    ensures remaining > 0 ==>
              match GetEvent(b, last)
              case Failure(e) => GetTrack(b, remaining, last) == Failure(e)
              case Success((event, status, rest)) =>
                var left := remaining - (|b| - |rest|);
                (left <= 0 ==> GetTrack(b, remaining, last) == Success(([event], rest))) &&
                (event.message.EndMsg? && 0 < left <= |rest| ==> GetTrack(b, remaining, last) == Success(([event], rest[left..]))) &&
                (event.message.EndMsg? && left > |rest| && left > 0 ==> GetTrack(b, remaining, last) == Failure(UnexpectedEof))
  {
    hide GetEvent;
    if remaining > 0 && GetEvent(b, last).Success? {
      var (event, status, rest) := GetEvent(b, last).value;
      if remaining <= |b| - |rest| {
        assert GetTrack(rest, remaining - (|b| - |rest|), status) == Success(([], rest));
        assert [event] + [] == [event];
      }
    }
  }

  // ----- what a message does

  /** A note-on of velocity 0 is a note-off, and no other note-on is. */
  lemma SilentNoteOn(t: TrackState, ch: ChannelIndex, key: Byte, velocity: Byte)
    requires Sane(t.elements, t.pending)
    ensures ApplyMessage(t, NoteOnMsg(ch, key, 0)) == ApplyMessage(t, NoteOffMsg(ch, key, 0))
    ensures velocity != 0 ==>
              ApplyMessage(t, NoteOnMsg(ch, key, velocity)) ==
              t.(elements := t.elements + [Note(t.time % 0x1_0000_0000, 16 * t.port + ch, key, velocity, -1, 0)], pending := t.pending + [|t.elements|])
  {
    hide FindPending;
  }

  /** A tempo event of t microseconds per quarter appends exactly that tempo at the current time. */
  lemma TempoMessage(s: TrackState, t: nat)
    requires t < 0x100_0000 && Sane(s.elements, s.pending)
    ensures ApplyMessage(s, MetaMsg(0x51, [t / 0x1_0000, t / 0x100 % 0x100, t % 0x100])) ==
            s.(maps := s.maps + [Tempo(s.time % 0x1_0000_0000, t)])
  {
  }

  /** The other meta events: signatures go to the tempo map, texts and SMPTE offsets to the track, each by itself and with its
      own data; a port event sets the port; and nothing else has any effect. */
  lemma MetaEffects(s: TrackState, kind: Byte, data: Bytes)
    requires Sane(s.elements, s.pending)
    ensures kind == 0x58 ==> ApplyMessage(s, MetaMsg(kind, data)) == s.(maps := s.maps + [TimeSignature(s.time % 0x1_0000_0000, data)])
    ensures kind == 0x59 ==> ApplyMessage(s, MetaMsg(kind, data)) == s.(maps := s.maps + [KeySignature(s.time % 0x1_0000_0000, data)])
    ensures 1 <= kind <= 7 ==> ApplyMessage(s, MetaMsg(kind, data)) == s.(elements := s.elements + [Text(s.time % 0x1_0000_0000, kind, data)])
    ensures kind == 0x54 ==> ApplyMessage(s, MetaMsg(kind, data)) == s.(elements := s.elements + [SmpteOffset(s.time % 0x1_0000_0000, data)])
    ensures kind == 0x21 ==> ApplyMessage(s, MetaMsg(kind, data)) == s.(port := if data == [] then 0 else data[0])
    ensures kind == 0 || 8 <= kind <= 0x20 || 0x22 <= kind <= 0x50 || kind == 0x52 || kind == 0x53 || 0x55 <= kind <= 0x57 || kind > 0x59 ==>
              ApplyMessage(s, MetaMsg(kind, data)) == s
    ensures ApplyMessage(s, EndMsg) == s
  {
  }

  /** A note that would end before it starts gets length 0. */
  lemma LengthWritten(now: nat, start: nat)
    requires now < 0x8000_0000 && start < 0x8000_0000
    ensures LengthOf(now, start) == if now < start then 0 else now - start
  {
  }

  // ----- chunks

  /** The header: wrong magic numbers and lengths below 6 are refused; bytes beyond the sixth are passed over, as far as there
      are any. */
  lemma HeaderWritten(m: nat, l: nat, f: nat, t: nat, d: nat, more: Bytes)
    requires m < 0x1_0000_0000 && l < 0x1_0000_0000 && f < 0x1_0000 && t < 0x1_0000 && d < 0x1_0000
    ensures var b := FourOf(m) + FourOf(l) + TwoOf(f) + TwoOf(t) + TwoOf(d) + more;
            GetHeader(b) ==
            if m != 0x4D54_6864 then Failure(BadHeader)
            else if l < 6 || l >= 0x8000_0000 then Failure(BadHeaderLength)
            else Success((Header(Signed(f), Signed(t), Signed(d)), if l - 6 <= |more| then more[l - 6..] else []))
  {
    hide GetInt;
    var b4 := TwoOf(d) + more;
    var b3 := TwoOf(t) + b4;
    var b2 := TwoOf(f) + b3;
    var b1 := FourOf(l) + b2;
    var b := FourOf(m) + FourOf(l) + TwoOf(f) + TwoOf(t) + TwoOf(d) + more;
    assert b == FourOf(m) + b1;
    ReadFour(m, b1);
    ReadFour(l, b2);
    ReadTwo(f, b3);
    ReadTwo(t, b4);
    ReadTwo(d, more);
  }

  /** A 16-bit field as a signed number. */
  function Signed(n: nat): int {
    if n < 0x8000 then n else n - 0x1_0000
  }

  function TwoOf(n: nat): Bytes
    requires n < 0x1_0000
  {
    [n / 0x100, n % 0x100]
  }

  function FourOf(n: nat): Bytes
    requires n < 0x1_0000_0000
  {
    [n / 0x100_0000, n / 0x1_0000 % 0x100, n / 0x100 % 0x100, n % 0x100]
  }

  lemma ReadTwo(n: nat, rest: Bytes)
    requires n < 0x1_0000
    ensures GetInt(TwoOf(n) + rest, 2, 0) == Success((n, rest))
  {
    hide GetInt;
    TwoBytes(n / 0x100, n % 0x100, rest);
  }

  lemma ReadFour(n: nat, rest: Bytes)
    requires n < 0x1_0000_0000
    ensures GetInt(FourOf(n) + rest, 4, 0) == Success((if n < 0x8000_0000 then n else n - 0x1_0000_0000, rest))
  {
    hide GetInt, Int32;
    FourBytes(n / 0x100_0000, n / 0x1_0000 % 0x100, n / 0x100 % 0x100, n % 0x100, rest);
    FourParts(n);
    SignedWord(n);
  }

  lemma FourParts(n: nat)
    ensures n == n / 0x100_0000 * 0x100_0000 + n / 0x1_0000 % 0x100 * 0x1_0000 + n / 0x100 % 0x100 * 0x100 + n % 0x100
  {
    var a := n / 0x100;
    var b := n / 0x1_0000;
    assert b == a / 0x100;
    assert n / 0x100_0000 == b / 0x100;
  }

  lemma SignedWord(n: nat)
    requires n < 0x1_0000_0000
    ensures Int32(n) == if n < 0x8000_0000 then n else n - 0x1_0000_0000
  {
  }

  /** A track chunk: a wrong magic number is refused, a chunk of length 0 (or of 2^31 bytes and more) has no events, and any
      other is read for as many bytes as its length says. */
  lemma ChunkWritten(m: nat, l: nat, body: Bytes)
    requires m < 0x1_0000_0000 && l < 0x1_0000_0000
    ensures var b := FourOf(m) + FourOf(l) + body;
            GetChunk(b) ==
            if m != 0x4D54_726B then Failure(BadTrackHeader)
            else if l == 0 || l >= 0x8000_0000 then Success(([], body))
            else GetTrack(body, l, 0)
  {
    hide GetInt;
    assert FourOf(m) + FourOf(l) + body == FourOf(m) + (FourOf(l) + body);
    ReadFour(m, FourOf(l) + body);
    ReadFour(l, body);
  }

  /** A file or a chunk that ends inside its first numbers is refused. */
  lemma HeadersFail(b: Bytes)
    ensures |b| < 4 ==> GetHeader(b) == Failure(UnexpectedEof) && GetChunk(b) == Failure(UnexpectedEof)
    ensures |b| < 14 ==> GetHeader(b).Failure?
    ensures |b| < 8 ==> GetChunk(b).Failure?
  {
    hide GetInt;
    IntFails(b, 4, 0);
    if |b| >= 4 {
      var b1 := GetInt(b, 4, 0).value.1;
      IntFails(b1, 4, 0);
      if |b1| >= 4 {
        var b2 := GetInt(b1, 4, 0).value.1;
        IntFails(b2, 2, 0);
        if |b2| >= 2 {
          var b3 := GetInt(b2, 2, 0).value.1;
          IntFails(b3, 2, 0);
          if |b3| >= 2 {
            IntFails(GetInt(b3, 2, 0).value.1, 2, 0);
          }
        }
      }
    }
  }

  /** A file is refused for what is wrong with its header or its first bad chunk, has no tracks when the header says none or
      fewer, and its ticks per quarter are the third header field as an unsigned number. */
  lemma FileWritten(b: Bytes)
    ensures GetHeader(b).Failure? ==> GetFile(b) == Failure(GetHeader(b).error)
    ensures GetHeader(b).Success? ==>
              var (h, rest) := GetHeader(b).value;
              (h.trackCount <= 0 ==> GetFile(b) == Success(SongFile(h.timeBase % 0x1_0000, [], []))) &&
              (h.trackCount > 0 && GetChunk(rest).Failure? ==> GetFile(b) == Failure(GetChunk(rest).error)) &&
              (GetFile(b).Success? ==> GetFile(b).value.timeBase == h.timeBase % 0x1_0000)
  {
    hide GetHeader, GetChunk, TrackResult;
  }

  /** Only the first track of a format 1 file, and only when it has no elements, is left out of the song. */
  lemma TracksWritten(format: int, i: nat, port: Byte, maps: seq<Element>, c: Chunk, rest: seq<Chunk>)
    ensures var t := TrackResult(port, maps, c.events);
            var (tracks, all) := MeaningFrom(format, i, port, maps, [c] + rest);
            var (later, all') := MeaningFrom(format, i + 1, t.port, t.maps, rest);
            all == all' && tracks == if format == 1 && i == 0 && t.elements == [] then later else [t.elements] + later
  {
    hide TrackResult;
    assert ([c] + rest)[1..] == rest;
  }
}
