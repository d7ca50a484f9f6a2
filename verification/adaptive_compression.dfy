/**
 * The adaptive compressor's frames. The underlying algorithm is any codec that round-trips; its output is
 * taken to appear when the stream is closed.
 */
module AdaptiveCompression {
  import opened Prelude
  import opened ByteStrings

  function Concat(chunks: seq<Bytes>): Bytes {
    if chunks == [] then [] else Concat(chunks[..|chunks| - 1]) + chunks[|chunks| - 1]
  }

  /** A registered compressor: what a stream of writes becomes, and how it is read back. */
  datatype Codec = Codec(encode: seq<Bytes> -> Bytes, decode: Bytes -> Option<Bytes>)

  ghost predicate RoundTrips(c: Codec) {
    forall chunks :: c.decode(c.encode(chunks)) == Some(Concat(chunks))
  }

  type Registry = map<string, Codec>

  /** A compressing stream being written. */
  datatype Stream = Stream(codec: Codec, chunks: seq<Bytes>)

  datatype Error = EndOfInput | NotFound | Corrupt

  datatype Result = Ok(data: Bytes) | Err(error: Error)

  // The 4-byte header.

  const WORD: int := 0x1_0000_0000
  const LIMIT: int := 0x100_0000

  /** The header's four bytes. */
  const HEADER: nat := 4

  /** Overwriting the first byte of the length with the mark loses all but its low 24 bits. */
  lemma {:induction false} MarkedLength(n: nat)
    ensures Value(BigEndian(n % WORD, HEADER)[0 := 0]) == n % LIMIT
  {
    WithoutFirst(n % WORD, HEADER);
    ThreeBytes(HEADER - 1);
    LowPart(n);
  }

  lemma {:induction false} ThreeBytes(n: nat)
    requires n == 3
    ensures Power(256, n) == LIMIT
  {
    assert Power(256, n - 2) == 256 * Power(256, n - 3);
    assert Power(256, n - 1) == 0x1_0000;
  }

  lemma {:induction false} LowPart(n: nat)
    ensures n % 0x1_0000_0000 % 0x100_0000 == n % 0x100_0000
  {
    var a, b := n / 0x1_0000_0000, n % 0x1_0000_0000;
    assert n == (a * 0x100 + b / 0x100_0000) * 0x100_0000 + b % 0x100_0000;
  }

  // Writing.

  datatype Writer = Writer(out: Bytes, buffer: Bytes, stream: Option<Stream>)

  function Wrote(registry: Registry, algorithm: string, threshold: int, w: Writer, p: Bytes): (Writer, bool) {
    match w.stream
    case Some(s) => (w.(stream := Some(s.(chunks := s.chunks + [p]))), true)
    case None =>
      if |w.buffer| + |p| < threshold then (w.(buffer := w.buffer + p), true)
      else if algorithm !in registry then (w, false)
      else (w.(out := w.out + [1, 0, 0, 0], stream := Some(Stream(registry[algorithm], [w.buffer, p]))), true)
  }

  function Closed(w: Writer): Bytes {
    match w.stream
    case Some(s) => w.out + s.codec.encode(s.chunks)
    case None => w.out + BigEndian(|w.buffer| % WORD, HEADER)[0 := 0] + w.buffer
  }

  class AdaptiveWriter {
    const threshold: int
    const algorithm: string
    var out: Bytes
    var buffer: Bytes
    var compressor: Option<Stream>

    ghost function View(): Writer
      reads this
    {
      Writer(out, buffer, compressor)
    }

    constructor (threshold: int, algorithm: string)
      ensures this.threshold == threshold && this.algorithm == algorithm
      ensures View() == Writer([], [], None)
    {
      this.threshold, this.algorithm := threshold, algorithm;
      out, buffer, compressor := [], [], None;
    }

    method Write(registry: Registry, p: Bytes) returns (ok: bool)
      modifies this
      ensures (View(), ok) == Wrote(registry, algorithm, threshold, old(View()), p)
    {
      if compressor.Some? {
        compressor := Some(compressor.value.(chunks := compressor.value.chunks + [p]));
        return true;
      }
      if |buffer| + |p| < threshold {
        buffer := buffer + p;
        return true;
      }
      if algorithm !in registry {
        return false;
      }
      out := out + [1, 0, 0, 0];
      compressor := Some(Stream(registry[algorithm], [buffer]));
      compressor := Some(compressor.value.(chunks := compressor.value.chunks + [p]));
      assert [buffer] + [p] == [buffer, p];
      return true;
    }

    method Close()
      modifies this
      ensures out == Closed(old(View()))
      ensures buffer == old(buffer) && compressor == old(compressor)
    {
      if compressor.Some? {
        out := out + compressor.value.codec.encode(compressor.value.chunks);
        return;
      }
      var totalSize := |buffer| % WORD;
      var header := BigEndian(totalSize, HEADER);
      header := header[0 := 0];
      out := out + header;
      out := out + buffer;
    }
  }

  // Reading.

  /** Reading a frame to its end. */
  function Read(registry: Registry, algorithm: string, frame: Bytes): Result {
    if |frame| < 4 then Err(EndOfInput)
    else if frame[0] != 1 then
      var size := Value(frame[..4]);
      Ok(if size < |frame| - 4 then frame[4..4 + size] else frame[4..])
    else if algorithm !in registry then Err(NotFound)
    else
      var data := registry[algorithm].decode(frame[4..]);
      if data.Some? then Ok(data.value) else Err(Corrupt)
  }

  method Decompress(registry: Registry, algorithm: string, r: Bytes) returns (result: Result)
    ensures result == Read(registry, algorithm, r)
  {
    if |r| < 4 {
      return Err(EndOfInput);
    }
    var header, rest := r[..4], r[4..];
    var isCompressed := header[0] == 1;
    if !isCompressed {
      var originalSize := Value(header);
      if originalSize < |rest| {
        assert rest[..originalSize] == r[4..4 + originalSize];
        rest := rest[..originalSize];
      }
      return Ok(rest);
    }
    if algorithm !in registry {
      return Err(NotFound);
    }
    var data := registry[algorithm].decode(rest);
    if data.None? {
      return Err(Corrupt);
    }
    return Ok(data.value);
  }

  /** Every error of reading a frame, and what it gives when there is none. */
  lemma {:induction false} ReadAnswers(registry: Registry, algorithm: string, frame: Bytes)
    ensures Read(registry, algorithm, frame) == Err(EndOfInput) <==> |frame| < 4
    ensures Read(registry, algorithm, frame) == Err(NotFound) <==>
      |frame| >= 4 && frame[0] == 1 && algorithm !in registry
    ensures Read(registry, algorithm, frame) == Err(Corrupt) <==>
      |frame| >= 4 && frame[0] == 1 && algorithm in registry && registry[algorithm].decode(frame[4..]).None?
    ensures Read(registry, algorithm, frame).Ok? && frame[0] == 1 ==>
      registry[algorithm].decode(frame[4..]) == Some(Read(registry, algorithm, frame).data)
    ensures Read(registry, algorithm, frame).Ok? && frame[0] != 1 ==>
      var data := Read(registry, algorithm, frame).data;
      data <= frame[4..] && (|data| == Value(frame[..4]) || (data == frame[4..] && |data| < Value(frame[..4])))
  {}

  // Whole frames.

  /** A sequence of writes; `accepted` collects those that succeeded. */
  datatype Session = Session(w: Writer, accepted: Bytes)

  function Written(registry: Registry, algorithm: string, threshold: int, writes: seq<Bytes>): Session {
    if writes == [] then Session(Writer([], [], None), [])
    else
      var s := Written(registry, algorithm, threshold, writes[..|writes| - 1]);
      var p := writes[|writes| - 1];
      var (w, ok) := Wrote(registry, algorithm, threshold, s.w, p);
      Session(w, if ok then s.accepted + p else s.accepted)
  }

  function Frame(registry: Registry, algorithm: string, threshold: int, writes: seq<Bytes>): Bytes {
    Closed(Written(registry, algorithm, threshold, writes).w)
  }

  /** The writer holds exactly what it has accepted, in the buffer or in the stream. */
  ghost predicate Holds(registry: Registry, algorithm: string, s: Session) {
    match s.w.stream
    case None => s.w.out == [] && s.w.buffer == s.accepted
    case Some(t) =>
      algorithm in registry && t.codec == registry[algorithm] && s.w.out == [1, 0, 0, 0] &&
        Concat(t.chunks) == s.accepted
  }

  lemma {:induction false} ConcatAppend(chunks: seq<Bytes>, p: Bytes)
    ensures Concat(chunks + [p]) == Concat(chunks) + p
  {
    assert (chunks + [p])[..|chunks|] == chunks;
  }

  lemma {:induction false} WrittenHolds(registry: Registry, algorithm: string, threshold: int, writes: seq<Bytes>)
    ensures Holds(registry, algorithm, Written(registry, algorithm, threshold, writes))
  {
    if writes != [] {
      WrittenHolds(registry, algorithm, threshold, writes[..|writes| - 1]);
      var s := Written(registry, algorithm, threshold, writes[..|writes| - 1]);
      var p := writes[|writes| - 1];
      match s.w.stream
      case Some(t) => ConcatAppend(t.chunks, p);
      case None =>
        var none: seq<Bytes> := [];
        ConcatAppend(none, s.w.buffer);
        ConcatAppend([s.w.buffer], p);
        assert none + [s.w.buffer] == [s.w.buffer] && [s.w.buffer] + [p] == [s.w.buffer, p];
        assert Concat(none) + s.w.buffer == s.w.buffer;
    }
  }

  /** An uncompressed frame gives back its data up to the length that its header still holds. */
  lemma {:induction false} UncompressedReads(registry: Registry, algorithm: string, data: Bytes)
    ensures
      Read(registry, algorithm, Closed(Writer([], data, None))) == Ok(data[..|data| % LIMIT])
  {
    var header := BigEndian(|data| % WORD, HEADER)[0 := 0];
    var frame := Closed(Writer([], data, None));
    assert frame == header + data by {
      assert [] + header == header;
    }
    Sliced(header, data, |data| % LIMIT);
    MarkedLength(|data|);
    assert data[..|data|] == data;
  }

  lemma {:induction false} Sliced(header: Bytes, data: Bytes, size: nat)
    requires |header| == 4 && size <= |data|
    ensures (header + data)[..4] == header && (header + data)[4..] == data &&
      (header + data)[4..4 + size] == data[..size]
  {}

  /**
   * A frame decodes to exactly what its writer accepted if and only if it was compressed or is shorter
   * than 2^24 bytes.
   */
  lemma {:induction false} ReadsAccepted(registry: Registry, algorithm: string, threshold: int, writes: seq<Bytes>)
    requires algorithm in registry ==> RoundTrips(registry[algorithm])
    ensures
      var s := Written(registry, algorithm, threshold, writes);
      (Read(registry, algorithm, Frame(registry, algorithm, threshold, writes)) == Ok(s.accepted))
      <==> (s.w.stream.Some? || |s.accepted| < LIMIT)
  {
    WrittenHolds(registry, algorithm, threshold, writes);
    var s := Written(registry, algorithm, threshold, writes);
    match s.w.stream
    case Some(t) =>
      var frame := Closed(s.w);
      assert frame[4..] == t.codec.encode(t.chunks);
    case None =>
      assert s.w == Writer([], s.accepted, None);
      UncompressedReads(registry, algorithm, s.accepted);
      assert |s.accepted| < LIMIT ==> s.accepted[..|s.accepted| % LIMIT] == s.accepted;
  }

  /** With the algorithm registered every write is accepted. */
  lemma {:induction false} EverythingIsAccepted(
      registry: Registry, algorithm: string, threshold: int, writes: seq<Bytes>)
    requires algorithm in registry
    ensures Written(registry, algorithm, threshold, writes).accepted == Concat(writes)
  {
    if writes != [] {
      EverythingIsAccepted(registry, algorithm, threshold, writes[..|writes| - 1]);
    }
  }

  /** The frame's mark depends on the total length alone, never on the split. */
  lemma {:induction false} CompressedIff(registry: Registry, algorithm: string, threshold: int, writes: seq<Bytes>)
    requires algorithm in registry
    ensures
      var s := Written(registry, algorithm, threshold, writes);
      && (s.w.stream.Some? <==> writes != [] && |Concat(writes)| >= threshold)
      && [if s.w.stream.Some? then 1 else 0] <= Frame(registry, algorithm, threshold, writes)
  {
    EverythingIsAccepted(registry, algorithm, threshold, writes);
    WrittenHolds(registry, algorithm, threshold, writes);
    if writes != [] {
      CompressedIff(registry, algorithm, threshold, writes[..|writes| - 1]);
      EverythingIsAccepted(registry, algorithm, threshold, writes[..|writes| - 1]);
      WrittenHolds(registry, algorithm, threshold, writes[..|writes| - 1]);
    }
  }

  lemma {:induction false} ConcatGrows(writes: seq<Bytes>)
    requires writes != []
    ensures |Concat(writes)| == |Concat(writes[..|writes| - 1])| + |writes[|writes| - 1]|
  {}

  /** Without the algorithm nothing is ever compressed, and what does not fit below the threshold is refused. */
  lemma {:induction false} UnregisteredAccepts(
      registry: Registry, algorithm: string, threshold: int, writes: seq<Bytes>)
    requires algorithm !in registry
    ensures
      var s := Written(registry, algorithm, threshold, writes);
      && s.w.stream.None?
      && |s.accepted| <= |Concat(writes)|
      && (s.accepted == Concat(writes) <==> |Concat(writes)| < threshold || Concat(writes) == [])
      && (s.accepted != [] ==> |s.accepted| < threshold)
  {
    WrittenHolds(registry, algorithm, threshold, writes);
    if writes != [] {
      var front := writes[..|writes| - 1];
      UnregisteredAccepts(registry, algorithm, threshold, front);
      WrittenHolds(registry, algorithm, threshold, front);
      ConcatGrows(writes);
    }
  }

  /** What a caller can see before writing: whether the data will be read back whole. */
  predicate Survives(registered: bool, threshold: int, length: nat) {
    if registered then length < LIMIT || length >= threshold
    else length < LIMIT && (length < threshold || length == 0)
  }

  /**
   * The round trip: data written in any pieces is read back whole if and only if it is shorter than 2^24 bytes
   * or reaches the threshold; and, when the algorithm is not registered, if and only if it is shorter than
   * both, or empty.
   */
  lemma {:induction false} RoundTripIff(registry: Registry, algorithm: string, threshold: int, writes: seq<Bytes>)
    requires algorithm in registry ==> RoundTrips(registry[algorithm])
    ensures
      Read(registry, algorithm, Frame(registry, algorithm, threshold, writes)) == Ok(Concat(writes))
      <==> Survives(algorithm in registry, threshold, |Concat(writes)|)
  {
    ReadsAccepted(registry, algorithm, threshold, writes);
    if algorithm in registry {
      EverythingIsAccepted(registry, algorithm, threshold, writes);
      CompressedIff(registry, algorithm, threshold, writes);
    } else {
      UnregisteredAccepts(registry, algorithm, threshold, writes);
      UnregisteredReads(registry, algorithm, threshold, writes);
    }
  }

  lemma {:induction false} UnregisteredReads(registry: Registry, algorithm: string, threshold: int, writes: seq<Bytes>)
    requires algorithm !in registry
    ensures
      var s := Written(registry, algorithm, threshold, writes);
      Read(registry, algorithm, Frame(registry, algorithm, threshold, writes)) == Ok(s.accepted[..|s.accepted| % LIMIT])
  {
    var s := Written(registry, algorithm, threshold, writes);
    UnregisteredAccepts(registry, algorithm, threshold, writes);
    WrittenHolds(registry, algorithm, threshold, writes);
    assert s.w == Writer([], s.accepted, None);
    UncompressedReads(registry, algorithm, s.accepted);
  }

  /** For a threshold from 1 to 2^24, any data written in any pieces is read back whole. */
  lemma {:induction false} RoundTrip(registry: Registry, algorithm: string, threshold: int, writes: seq<Bytes>)
    requires algorithm in registry && RoundTrips(registry[algorithm]) && 1 <= threshold <= LIMIT
    ensures Read(registry, algorithm, Frame(registry, algorithm, threshold, writes)) == Ok(Concat(writes))
    ensures Frame(registry, algorithm, threshold, writes)[0] == 1 <==> |Concat(writes)| >= threshold
  {
    RoundTripIff(registry, algorithm, threshold, writes);
    CompressedIff(registry, algorithm, threshold, writes);
    var f := Frame(registry, algorithm, threshold, writes);
    assert f[0] == 1 || f[0] == 0;
  }

  /**
   * A larger threshold loses data: between 2^24 and the threshold a frame is never read back whole, however
   * the data is split.
   */
  lemma {:induction false} LongUncompressedIsTruncated(
      registry: Registry, algorithm: string, threshold: int, writes: seq<Bytes>)
    requires algorithm in registry && RoundTrips(registry[algorithm])
    requires LIMIT <= |Concat(writes)| < threshold
    ensures Read(registry, algorithm, Frame(registry, algorithm, threshold, writes)) ==
      Ok(Concat(writes)[..|Concat(writes)| % LIMIT])
  {
    EverythingIsAccepted(registry, algorithm, threshold, writes);
    CompressedIff(registry, algorithm, threshold, writes);
    WrittenHolds(registry, algorithm, threshold, writes);
    UncompressedReads(registry, algorithm, Concat(writes));
    assert Written(registry, algorithm, threshold, writes).w == Writer([], Concat(writes), None);
  }
}
