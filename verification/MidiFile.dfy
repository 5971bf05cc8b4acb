/** Whole files: the header, the track chunks, and what midi_read makes of them. */
module MidiFile {
  import opened Common
  import opened Elements
  import opened Smf
  import opened Pairing

  /** The parsed file: the source's root element, whose first child is the tempo map. */
  datatype SongFile = SongFile(timeBase: nat, maps: seq<Element>, tracks: seq<seq<Element>>)

  datatype Header = Header(format: int, trackCount: int, timeBase: int)

  /** All but the first n bytes, or nothing when there are fewer. */
  function Drop(b: Bytes, n: nat): Bytes {
    if n <= |b| then b[n..] else []
  }

  /** read_head: extra header bytes are passed over, as far as there are any. */
  function GetHeader(b: Bytes): (r: Result<(Header, Bytes), ReadError>) {
    var (magic, b1) :- GetInt(b, 4, 0);
    if magic != HEAD_MAGIC then Failure(BadHeader) else
    var (length, b2) :- GetInt(b1, 4, 0);
    if length < 6 then Failure(BadHeaderLength) else
    var (format, b3) :- GetInt(b2, 2, 0);
    var (trackCount, b4) :- GetInt(b3, 2, 0);
    var (timeBase, b5) :- GetInt(b4, 2, 0);
    Success((Header(Int16(format), Int16(trackCount), Int16(timeBase)), Drop(b5, length - 6)))
  }

  /** The chunk read by read_track. */
  function GetChunk(b: Bytes): (r: Result<(seq<Timed>, Bytes), ReadError>)
    ensures r.Success? ==> |r.value.1| < |b|
  {
    var (magic, b1) :- GetInt(b, 4, 0);
    if magic != TRACK_MAGIC then Failure(BadTrackHeader) else
    var (length, b2) :- GetInt(b1, 4, 0);
    GetTrack(b2, length, 0)
  }

  /** In format 1 an empty first track is dropped: it was only the tempo map. */
  predicate Dropped(format: int, i: int, elements: seq<Element>) {
    format == 1 && i == 0 && elements == []
  }

  /** The tracks from number i on; the port and the tempo map carry over from track to track. */
  function GetTracks(b: Bytes, h: Header, i: nat, port: Byte, maps: seq<Element>): (r: Result<(seq<seq<Element>>, seq<Element>), ReadError>)
    decreases |b|
  {
    if i >= h.trackCount then Success(([], maps)) else
    var (events, rest) :- GetChunk(b);
    var t := TrackResult(port, maps, events);
    var (tracks, maps') :- GetTracks(rest, h, i + 1, t.port, t.maps);
    Success((if Dropped(h.format, i, t.elements) then tracks else [t.elements] + tracks, maps'))
  }

  /** midi_read. */
  function GetFile(b: Bytes): Result<SongFile, ReadError> {
    var (h, rest) :- GetHeader(b);
    var (tracks, maps) :- GetTracks(rest, h, 0, 0, []);
    Success(SongFile(h.timeBase % TWO_16, maps, tracks))
  }

  // ----- encoding

  function EncodeInt(n: nat, size: nat): Bytes {
    if size == 0 then [] else EncodeInt(n / 0x100, size - 1) + [n % 0x100]
  }

  /** One track chunk: its events, which of their status bytes are left out, and bytes after the end-of-track event. */
  datatype Chunk = Chunk(events: seq<Timed>, omit: seq<bool>, junk: Bytes)

  ghost predicate LegalChunk(c: Chunk) {
    |c.events| == |c.omit| && Legal(c.events, c.omit, 0) &&
    (c.junk != [] ==> c.events != [] && c.events[|c.events| - 1].message.EndMsg?) &&
    (forall i :: 0 <= i < |c.events| ==> c.events[i].delta >= 0) &&
    |EncodeEvents(c.events, c.omit) + c.junk| < TWO_31
  }

  ghost function EncodeChunk(c: Chunk): Bytes
    requires LegalChunk(c)
  {
    var body := EncodeEvents(c.events, c.omit) + c.junk;
    EncodeInt(TRACK_MAGIC, 4) + EncodeInt(|body|, 4) + body
  }

  ghost function EncodeChunks(chunks: seq<Chunk>): Bytes
    requires forall i :: 0 <= i < |chunks| ==> LegalChunk(chunks[i])
  {
    if chunks == [] then [] else EncodeChunk(chunks[0]) + EncodeChunks(chunks[1..])
  }

  ghost function EncodeFile(format: nat, timeBase: nat, chunks: seq<Chunk>): Bytes
    requires forall i :: 0 <= i < |chunks| ==> LegalChunk(chunks[i])
  {
    EncodeInt(HEAD_MAGIC, 4) + EncodeInt(6, 4) + EncodeInt(format, 2) + EncodeInt(|chunks|, 2) + EncodeInt(timeBase, 2) +
    EncodeChunks(chunks)
  }

  /** What a list of tracks means, from track number i on. */
  ghost function MeaningFrom(format: int, i: nat, port: Byte, maps: seq<Element>, chunks: seq<Chunk>): (seq<seq<Element>>, seq<Element>)
    decreases |chunks|
  {
    if chunks == [] then ([], maps) else
    var t := TrackResult(port, maps, chunks[0].events);
    var (tracks, maps') := MeaningFrom(format, i + 1, t.port, t.maps, chunks[1..]);
    (if Dropped(format, i, t.elements) then tracks else [t.elements] + tracks, maps')
  }

  // ----- round trips

  lemma {:induction false} IntRoundTrip(n: nat, size: nat, rest: Bytes)
    requires size <= 4 && n < Power256(size) && n < TWO_31
    ensures |EncodeInt(n, size)| == size
    ensures GetInt(EncodeInt(n, size) + rest, size, 0) == Success((n, rest))
  {
    GetPrefix(n, size, size, rest, 0);
    assert GetInt(rest, 0, n) == Success((n, rest));
  }

  function Power256(size: nat): nat {
    if size == 0 then 1 else 0x100 * Power256(size - 1)
  }

  lemma IntStep(c: Byte, tail: Bytes, n: nat, val: int)
    requires n > 0
    ensures GetInt([c] + tail, n, val) == GetInt(tail, n - 1, Int32(val * 256 + c))
  {
    assert ([c] + tail)[1..] == tail;
  }

  lemma EightBits(n: nat)
    requires n < TWO_31
    ensures Int32(n / 0x100 * 256 + n % 0x100) == n
  {
  }

  /** Reading `size` encoded bytes of a longer integer has the effect of their value. */
  lemma {:induction false} GetPrefix(n: nat, size: nat, total: nat, rest: Bytes, val: int)
    requires size <= total && n < Power256(size) && n < TWO_31 && val == 0
    ensures |EncodeInt(n, size)| == size
    ensures GetInt(EncodeInt(n, size) + rest, total, val) == GetInt(rest, total - size, n)
    decreases size
  {
    hide GetInt, Int32;
    if size == 0 {
      assert EncodeInt(n, size) + rest == rest;
    } else {
      var c: Byte := n % 0x100;
      assert EncodeInt(n, size) + rest == EncodeInt(n / 0x100, size - 1) + ([c] + rest);
      GetPrefix(n / 0x100, size - 1, total, [c] + rest, val);
      IntStep(c, rest, total - size + 1, n / 0x100);
      EightBits(n);
    }
  }

  lemma Sizes()
    ensures Power256(2) == 0x10000 && Power256(4) == 0x1_0000_0000
  {
    assert Power256(1) == 0x100 * Power256(0);
    assert Power256(2) == 0x100 * Power256(1);
    assert Power256(3) == 0x100 * Power256(2);
    assert Power256(4) == 0x100 * Power256(3);
  }

  /** Reading an encoded chunk gives back its events and consumes 8 + chunk_size bytes, so the next header is aligned. */
  lemma ChunkRoundTrip(c: Chunk, rest: Bytes)
    requires LegalChunk(c)
    ensures GetChunk(EncodeChunk(c) + rest) == Success((c.events, rest))
  {
    hide EncodeInt, GetInt, GetTrack, Power256, EncodeEvents, Legal;
    Sizes();
    var body := EncodeEvents(c.events, c.omit) + c.junk;
    var b1 := EncodeInt(|body|, 4) + (body + rest);
    assert EncodeChunk(c) + rest == EncodeInt(TRACK_MAGIC, 4) + b1;
    IntRoundTrip(TRACK_MAGIC, 4, b1);
    IntRoundTrip(|body|, 4, body + rest);
    TrackRoundTrip(c.events, c.omit, 0, c.junk, rest);
  }

  lemma {:induction false} TracksRoundTrip(chunks: seq<Chunk>, h: Header, i: nat, port: Byte, maps: seq<Element>)
    requires forall k :: 0 <= k < |chunks| ==> LegalChunk(chunks[k])
    requires h.trackCount == i + |chunks|
    ensures GetTracks(EncodeChunks(chunks), h, i, port, maps) == Success(MeaningFrom(h.format, i, port, maps, chunks))
    decreases |chunks|
  {
    hide LegalChunk, EncodeChunk, GetChunk, TrackResult;
    if chunks != [] {
      ChunkRoundTrip(chunks[0], EncodeChunks(chunks[1..]));
      var t := TrackResult(port, maps, chunks[0].events);
      TracksRoundTrip(chunks[1..], h, i + 1, t.port, t.maps);
    }
  }

  /** Reading an encoded file yields what its event lists mean, whatever running status the encoder used. */
  lemma FileRoundTrip(format: nat, timeBase: nat, chunks: seq<Chunk>)
    requires forall i :: 0 <= i < |chunks| ==> LegalChunk(chunks[i])
    requires format < 0x8000 && |chunks| < 0x8000 && timeBase < 0x10000
    ensures var (tracks, maps) := MeaningFrom(format, 0, 0, [], chunks);
            GetFile(EncodeFile(format, timeBase, chunks)) == Success(SongFile(timeBase, maps, tracks))
  {
    hide EncodeInt, GetInt, Power256, EncodeChunks, LegalChunk, GetTracks, MeaningFrom;
    Sizes();
    var b5 := EncodeChunks(chunks);
    var b4 := EncodeInt(timeBase, 2) + b5;
    var b3 := EncodeInt(|chunks|, 2) + b4;
    var b2 := EncodeInt(format, 2) + b3;
    var b1 := EncodeInt(6, 4) + b2;
    assert EncodeFile(format, timeBase, chunks) == EncodeInt(HEAD_MAGIC, 4) + b1;
    IntRoundTrip(HEAD_MAGIC, 4, b1);
    IntRoundTrip(6, 4, b2);
    IntRoundTrip(format, 2, b3);
    IntRoundTrip(|chunks|, 2, b4);
    IntRoundTrip(timeBase, 2, b5);
    assert Drop(b5, 0) == b5;
    TracksRoundTrip(chunks, Header(format, |chunks|, Int16(timeBase)), 0, 0, []);
  }
}
