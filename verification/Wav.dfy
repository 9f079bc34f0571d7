/** The structure of a RIFF/WAVE file: the walk over its chunks, and the chunk list it must agree with. */
module Wav {
  import opened Wrappers
  import opened Bytes

  const RIFF: bytes := [0x52, 0x49, 0x46, 0x46]
  const WAVE: bytes := [0x57, 0x41, 0x56, 0x45]
  const FMT: bytes := [0x66, 0x6d, 0x74, 0x20]
  const DATA: bytes := [0x64, 0x61, 0x74, 0x61]
  const EXTENSIBLE: nat := 0xfffe
  const SUBTYPE_TAIL: bytes := [0, 0, 0, 0, 0x10, 0, 0x80, 0, 0, 0xaa, 0, 0x38, 0x9b, 0x71]

  datatype Metadata = Metadata(format: nat, channels: nat, sampleRate: nat, bitsPerSample: nat,
                               dataOffset: nat, dataLen: nat, frameCount: nat)

  // An odd payload is followed by one byte of any value.
  datatype Chunk = Chunk(id: bytes, payload: bytes, pad: bytes)

  predicate WellFormed(chunk: Chunk) {
    |chunk.id| == 4 && |chunk.payload| < U32_LIMIT && |chunk.pad| == |chunk.payload| % 2
  }

  predicate AllWellFormed(chunks: seq<Chunk>) {
    forall i :: 0 <= i < |chunks| ==> WellFormed(chunks[i])
  }

  function Encoded(chunk: Chunk): bytes
    requires WellFormed(chunk)
  {
    chunk.id + Le32(|chunk.payload|) + chunk.payload + chunk.pad
  }

  function Flat(chunks: seq<Chunk>): bytes
    requires AllWellFormed(chunks)
  {
    if chunks == [] then [] else Encoded(chunks[0]) + Flat(chunks[1..])
  }

  predicate HasHeader(input: bytes) {
    |input| >= 12 && input[..4] == RIFF && input[8..12] == WAVE
  }

  // The file is its header and these chunks, with nothing between, before or after.
  predicate Tiles(input: bytes, chunks: seq<Chunk>) {
    HasHeader(input) && AllWellFormed(chunks) && input[12..] == Flat(chunks)
  }

  predicate DescribesFormat(chunk: Chunk) {
    chunk.id == FMT && |chunk.payload| >= 16
  }

  // The format tag, of an extensible format that of its subtype.
  function FormatTag(payload: bytes): Option<nat>
    requires |payload| >= 16
  {
    var tag := FromLe16(payload[..2]);
    if tag != EXTENSIBLE then Some(tag)
    else if |payload| < 40 || payload[26..40] != SUBTYPE_TAIL then None
    else Some(FromLe16(payload[24..26]))
  }

  // The place of the last chunk that passes a test.
  function Last(chunks: seq<Chunk>, test: Chunk -> bool): (r: Option<nat>)
    ensures r.Some? ==> r.value < |chunks| && test(chunks[r.value])
    ensures r.Some? ==> forall i :: r.value < i < |chunks| ==> !test(chunks[i])
    ensures r.None? ==> forall i :: 0 <= i < |chunks| ==> !test(chunks[i])
  {
    if chunks == [] then None
    else if test(chunks[|chunks| - 1]) then Some(|chunks| - 1)
    else Last(chunks[..|chunks| - 1], test)
  }

  const IsFormat: Chunk -> bool := (chunk: Chunk) => DescribesFormat(chunk)
  const IsData: Chunk -> bool := (chunk: Chunk) => chunk.id == DATA

  predicate FormatsKnown(chunks: seq<Chunk>) {
    forall i :: 0 <= i < |chunks| && DescribesFormat(chunks[i]) ==> FormatTag(chunks[i].payload).Some?
  }

  // Where the payload of a chunk starts in the file.
  function PayloadOffset(chunks: seq<Chunk>, i: nat): nat
    requires AllWellFormed(chunks) && i < |chunks|
  {
    12 + |Flat(chunks[..i])| + 8
  }

  /** What a chunk list says of the sound: its last format chunk, its last data chunk and whole frames, or nothing. */
  function Describe(chunks: seq<Chunk>): (r: Option<Metadata>)
    requires AllWellFormed(chunks)
  {
    var format :- Last(chunks, IsFormat);
    var data :- Last(chunks, IsData);
    if !FormatsKnown(chunks) then None
    else
      var fmt, length := chunks[format].payload, |chunks[data].payload|;
      var channels, rate, bits := FromLe16(fmt[2..4]), FromLe32(fmt[4..8]), FromLe16(fmt[14..16]);
      if channels == 0 || bits == 0 || bits % 8 != 0 || rate == 0 then None
      else
        var frame := channels * (bits / 8);
        FramePositive(channels, bits);
        if length % frame != 0 then None
        else Some(Metadata(FormatTag(fmt).value, channels, rate, bits, PayloadOffset(chunks, data), length,
                           length / frame))
  }

  lemma {:induction false} FramePositive(channels: nat, bits: nat)
    requires channels != 0 && bits != 0 && bits % 8 == 0
    ensures channels * (bits / 8) > 0
  {
    assert bits / 8 >= 1;
  }

  lemma {:induction false} FlatConcat(a: seq<Chunk>, b: seq<Chunk>)
    requires AllWellFormed(a) && AllWellFormed(b)
    ensures AllWellFormed(a + b) && Flat(a + b) == Flat(a) + Flat(b)
  {
    hide Encoded;
    if a == [] {
      assert a + b == b;
    } else {
      assert (a + b)[1..] == a[1..] + b && (a + b)[0] == a[0];
      FlatConcat(a[1..], b);
      assert Encoded(a[0]) + (Flat(a[1..]) + Flat(b)) == Encoded(a[0]) + Flat(a[1..]) + Flat(b);
    }
  }

  lemma {:induction false} FlatOne(chunk: Chunk)
    requires WellFormed(chunk)
    ensures Flat([chunk]) == Encoded(chunk)
  {
    assert [chunk][1..] == [];
    assert Flat([chunk][1..]) == [];
  }

  // The chunk at the head of the input.
  function Head(rest: bytes): (r: Option<Chunk>)
    ensures r.Some? ==> WellFormed(r.value) && |Encoded(r.value)| <= |rest|
  {
    if |rest| < 8 then None
    else
      var length := FromLe32(rest[4..8]);
      var end := 8 + length + length % 2;
      if end > |rest| then None else Some(Chunk(rest[..4], rest[8..8 + length], rest[8 + length..end]))
  }

  lemma {:induction false} HeadEncoded(rest: bytes)
    requires Head(rest).Some?
    ensures rest == Encoded(Head(rest).value) + rest[|Encoded(Head(rest).value)|..]
  {
    LittleEndianBytes(rest[4..8]);
  }

  lemma {:induction false} HeadOfEncoded(chunk: Chunk, rest: bytes)
    requires WellFormed(chunk)
    ensures Head(Encoded(chunk) + rest) == Some(chunk)
  {
    var all := Encoded(chunk) + rest;
    var length := |chunk.payload|;
    LittleEndianRoundTrip(length);
    assert all[..4] == chunk.id && all[4..8] == Le32(length);
    assert all[8..8 + length] == chunk.payload && all[8 + length..8 + length + length % 2] == chunk.pad;
  }

  lemma {:induction false} EncodedSize(chunk: Chunk)
    requires WellFormed(chunk)
    ensures |Encoded(chunk)| >= 8
  {
  }

  /** A chunk list is determined by its bytes: whatever tiles the file goes on with the chunks read so far. */
  lemma {:induction false} Peel(seen: seq<Chunk>, rest: bytes, chunks: seq<Chunk>)
    requires AllWellFormed(seen) && AllWellFormed(chunks) && Flat(seen) + rest == Flat(chunks)
    ensures |seen| <= |chunks| && chunks[..|seen|] == seen && rest == Flat(chunks[|seen|..])
  {
    hide Encoded, Head;
    if seen != [] {
      var first := Encoded(seen[0]);
      EncodedSize(seen[0]);
      assert Flat(chunks) == first + (Flat(seen[1..]) + rest);
      HeadOfEncoded(seen[0], Flat(seen[1..]) + rest);
      HeadOfEncoded(chunks[0], Flat(chunks[1..]));
      assert Flat(seen[1..]) + rest == Flat(chunks)[|first|..] == Flat(chunks[1..]);
      Peel(seen[1..], rest, chunks[1..]);
      assert chunks[..|seen|] == [chunks[0]] + chunks[1..][..|seen| - 1];
    } else {
      assert Flat(seen) + rest == rest;
    }
  }

  // The fields kept while walking.
  datatype Fields = Fields(format: Option<nat>, channels: Option<nat>, rate: Option<nat>, bits: Option<nat>,
                           dataOffset: Option<nat>, dataLen: Option<nat>)

  ghost predicate Kept(fields: Fields, chunks: seq<Chunk>)
    requires AllWellFormed(chunks)
  {
    FormatsKnown(chunks) && FormatKept(fields, chunks) && DataKept(fields, chunks)
  }

  predicate FormatKept(fields: Fields, chunks: seq<Chunk>) {
    match Last(chunks, IsFormat)
    case None => fields.format.None? && fields.channels.None? && fields.rate.None? && fields.bits.None?
    case Some(i) =>
      var fmt := chunks[i].payload;
      && fields.format == FormatTag(fmt) && fields.channels == Some(FromLe16(fmt[2..4]))
      && fields.rate == Some(FromLe32(fmt[4..8])) && fields.bits == Some(FromLe16(fmt[14..16]))
  }

  predicate DataKept(fields: Fields, chunks: seq<Chunk>)
    requires AllWellFormed(chunks)
  {
    match Last(chunks, IsData)
    case None => fields.dataOffset.None? && fields.dataLen.None?
    case Some(i) => fields.dataOffset == Some(PayloadOffset(chunks, i)) && fields.dataLen == Some(|chunks[i].payload|)
  }

  lemma {:induction false} LastNext(chunks: seq<Chunk>, chunk: Chunk, test: Chunk -> bool)
    ensures Last(chunks + [chunk], test) == if test(chunk) then Some(|chunks|) else Last(chunks, test)
  {
    assert (chunks + [chunk])[..|chunks|] == chunks;
  }

  function Noted(fields: Fields, chunk: Chunk, offset: nat): Fields {
    if DescribesFormat(chunk) then
      var fmt := chunk.payload;
      fields.(format := FormatTag(fmt), channels := Some(FromLe16(fmt[2..4])),
              rate := Some(FromLe32(fmt[4..8])), bits := Some(FromLe16(fmt[14..16])))
    else if chunk.id == DATA then fields.(dataOffset := Some(offset), dataLen := Some(|chunk.payload|))
    else fields
  }

  lemma {:induction false} FormatKeptNext(fields: Fields, chunks: seq<Chunk>, chunk: Chunk, offset: nat)
    requires FormatKept(fields, chunks)
    ensures FormatKept(Noted(fields, chunk, offset), chunks + [chunk])
  {
    hide FormatTag, Last;
    LastNext(chunks, chunk, IsFormat);
  }

  lemma {:induction false} DataKeptNext(fields: Fields, chunks: seq<Chunk>, chunk: Chunk)
    requires AllWellFormed(chunks + [chunk]) && AllWellFormed(chunks) && DataKept(fields, chunks)
    ensures DataKept(Noted(fields, chunk, 12 + |Flat(chunks)| + 8), chunks + [chunk])
  {
    hide Flat, FormatTag, Last;
    var next := chunks + [chunk];
    LastNext(chunks, chunk, IsData);
    var last := Last(next, IsData);
    if last.Some? {
      assert next[..last.value] == chunks[..last.value];
      assert next[..|chunks|] == chunks;
    }
  }

  lemma {:induction false} KeptNext(fields: Fields, chunks: seq<Chunk>, chunk: Chunk)
    requires AllWellFormed(chunks) && WellFormed(chunk) && Kept(fields, chunks)
    requires DescribesFormat(chunk) ==> FormatTag(chunk.payload).Some?
    ensures AllWellFormed(chunks + [chunk])
    ensures Kept(Noted(fields, chunk, 12 + |Flat(chunks)| + 8), chunks + [chunk])
  {
    hide Flat, FormatTag, FormatKept, DataKept;
    FormatKeptNext(fields, chunks, chunk, 12 + |Flat(chunks)| + 8);
    DataKeptNext(fields, chunks, chunk);
  }

  lemma {:induction false} NoTilingLeft(input: bytes, seen: seq<Chunk>, rest: bytes)
    requires HasHeader(input) && AllWellFormed(seen) && input[12..] == Flat(seen) + rest && rest != []
    requires Head(rest).None?
    ensures forall chunks :: !Tiles(input, chunks)
  {
    forall chunks | Tiles(input, chunks) ensures false {
      Peel(seen, rest, chunks);
      HeadOfEncoded(chunks[|seen|], Flat(chunks[|seen|..][1..]));
    }
  }

  lemma {:induction false} OnlyTiling(input: bytes, seen: seq<Chunk>)
    requires Tiles(input, seen)
    ensures forall chunks :: Tiles(input, chunks) ==> chunks == seen
  {
    forall chunks | Tiles(input, chunks) ensures chunks == seen {
      assert Flat(seen) + [] == Flat(seen);
      Peel(seen, [], chunks);
      assert chunks[|seen|..] == [];
    }
  }

  // A format that is not known anywhere makes every tiling undescribed.
  lemma {:induction false} UnknownFormat(input: bytes, seen: seq<Chunk>, chunk: Chunk, rest: bytes)
    requires HasHeader(input) && AllWellFormed(seen) && WellFormed(chunk)
    requires input[12..] == Flat(seen) + (Encoded(chunk) + rest)
    requires DescribesFormat(chunk) && FormatTag(chunk.payload).None?
    ensures forall chunks :: Tiles(input, chunks) ==> Describe(chunks) == None
  {
    hide FormatTag, Flat;
    ChunkSeen(input, seen, chunk, Encoded(chunk) + rest, rest);
    forall chunks | Tiles(input, chunks) ensures Describe(chunks) == None {
      Peel(seen + [chunk], rest, chunks);
      assert chunks[|seen|] == (seen + [chunk])[|seen|] == chunk;
    }
  }

  lemma {:induction false} ChunkSeen(input: bytes, seen: seq<Chunk>, chunk: Chunk, rest: bytes, after: bytes)
    requires |input| >= 12 && AllWellFormed(seen) && WellFormed(chunk)
    requires input[12..] == Flat(seen) + rest && rest == Encoded(chunk) + after
    ensures AllWellFormed(seen + [chunk]) && input[12..] == Flat(seen + [chunk]) + after
    ensures |Flat(seen + [chunk])| == |Flat(seen)| + |Encoded(chunk)|
  {
    FlatOne(chunk);
    FlatConcat(seen, [chunk]);
    assert Flat(seen) + (Encoded(chunk) + after) == Flat(seen) + Encoded(chunk) + after;
  }

  method WavFormat(fmt: bytes) returns (r: Option<nat>)
    requires |fmt| >= 16
    ensures r == FormatTag(fmt)
  {
    var tag := FromLe16(fmt[..2]);
    if tag != EXTENSIBLE {
      return Some(tag);
    }
    if |fmt| < 40 {
      return None;
    }
    var subtype := fmt[24..40];
    assert subtype[2..] == fmt[26..40] && subtype[..2] == fmt[24..26];
    if subtype[2..] != SUBTYPE_TAIL {
      return None;
    }
    return Some(FromLe16(subtype[..2]));
  }

  // What is made of the fields when the walk is over.
  function Report(fields: Fields): Option<Metadata> {
    var channels, rate, bits := fields.channels.GetOr(0), fields.rate.GetOr(0), fields.bits.GetOr(0);
    var length :- fields.dataLen;
    if channels == 0 || bits == 0 || bits % 8 != 0 || rate == 0 then None
    else
      var frame := channels * (bits / 8);
      FramePositive(channels, bits);
      if length % frame != 0 then None
      else
        var format :- fields.format;
        var offset :- fields.dataOffset;
        Some(Metadata(format, channels, rate, bits, offset, length, length / frame))
  }

  // The walk has come to `position` after these chunks.
  ghost predicate Walked(input: bytes, seen: seq<Chunk>, position: nat, fields: Fields) {
    && HasHeader(input) && 12 <= position <= |input| && AllWellFormed(seen)
    && input[12..] == Flat(seen) + input[position..] && position == 12 + |Flat(seen)|
    && Kept(fields, seen)
  }

  const NOTHING: Fields := Fields(None, None, None, None, None, None)

  lemma {:induction false} WalkBegins(input: bytes)
    requires HasHeader(input)
    ensures Walked(input, [], 12, NOTHING)
  {
  }

  lemma {:induction false} WalkStuck(input: bytes, seen: seq<Chunk>, position: nat, fields: Fields)
    requires Walked(input, seen, position, fields) && position < |input| && Head(input[position..]).None?
    ensures forall chunks :: !Tiles(input, chunks)
  {
    NoTilingLeft(input, seen, input[position..]);
  }

  lemma {:induction false} WalkUnknown(input: bytes, seen: seq<Chunk>, position: nat, fields: Fields)
    requires Walked(input, seen, position, fields) && Head(input[position..]).Some?
    requires var chunk := Head(input[position..]).value; DescribesFormat(chunk) && FormatTag(chunk.payload).None?
    ensures forall chunks :: Tiles(input, chunks) ==> Describe(chunks) == None
  {
    var rest := input[position..];
    HeadEncoded(rest);
    UnknownFormat(input, seen, Head(rest).value, rest[|Encoded(Head(rest).value)|..]);
  }

  lemma {:induction false} WalkOn(input: bytes, seen: seq<Chunk>, position: nat, fields: Fields) returns (chunk: Chunk)
    requires Walked(input, seen, position, fields) && Head(input[position..]).Some?
    requires DescribesFormat(Head(input[position..]).value) ==> FormatTag(Head(input[position..]).value.payload).Some?
    ensures Head(input[position..]) == Some(chunk)
    ensures Walked(input, seen + [chunk], position + |Encoded(chunk)|, Noted(fields, chunk, position + 8))
  {
    hide Flat, Kept, FormatTag, Head;
    var rest := input[position..];
    chunk := Head(rest).value;
    HeadEncoded(rest);
    ChunkSeen(input, seen, chunk, rest, rest[|Encoded(chunk)|..]);
    KeptNext(fields, seen, chunk);
    assert rest[|Encoded(chunk)|..] == input[position + |Encoded(chunk)|..];
  }

  lemma {:induction false} WalkEnds(input: bytes, seen: seq<Chunk>, fields: Fields)
    requires Walked(input, seen, |input|, fields)
    ensures Tiles(input, seen) && Kept(fields, seen) && forall chunks :: Tiles(input, chunks) ==> chunks == seen
  {
    assert input[|input|..] == [] && Flat(seen) + [] == Flat(seen);
    OnlyTiling(input, seen);
  }

  // The chunk header read at a position, and its payload, are those of the chunk at the head of what is left.
  lemma {:induction false} HeadAt(input: bytes, position: nat)
    requires position + 8 <= |input|
    ensures var length := FromLe32(input[position + 4..position + 8]);
      var end := position + 8 + length + length % 2;
      if end > |input| then Head(input[position..]).None?
      else
        var chunk := Chunk(input[position..position + 4], input[position + 8..position + 8 + length],
                           input[position + 8 + length..end]);
        Head(input[position..]) == Some(chunk) && |Encoded(chunk)| == end - position
  {
    var rest := input[position..];
    assert rest[4..8] == input[position + 4..position + 8];
    var length := FromLe32(rest[4..8]);
    if position + 8 + length + length % 2 <= |input| {
      assert rest[..4] == input[position..position + 4]
          && rest[8..8 + length] == input[position + 8..position + 8 + length];
      var end := 8 + length + length % 2;
      assert rest[8 + length..end] == input[position + 8 + length..position + end];
    }
  }

  /** The walk ends, accepts only files that header and chunks tile exactly, and gives of every chunk list that tiles
      the file exactly what the list describes. */
  method ReadStructure(input: bytes) returns (r: Option<Metadata>)
    ensures r.Some? ==> exists chunks :: Tiles(input, chunks)
    ensures forall chunks :: Tiles(input, chunks) ==> r == Describe(chunks)
  {
    hide Walked, Head, Encoded, FormatTag, Flat, Last, FormatsKnown, Report, Describe;
    if |input| < 12 || input[..4] != RIFF || input[8..12] != WAVE {
      return None;
    }
    var fields, position: nat := NOTHING, 12;
    ghost var seen: seq<Chunk> := [];
    WalkBegins(input);
    while position != |input|
      invariant position <= |input| && Walked(input, seen, position, fields)
      decreases |input| - position
    {
      if |input| - position < 8 {
        TooShort(input[position..]);
        WalkStuck(input, seen, position, fields);
        return None;
      }
      var length := FromLe32(input[position + 4..position + 8]);
      var end := position + 8 + length + length % 2;
      HeadAt(input, position);
      if end > |input| {
        WalkStuck(input, seen, position, fields);
        return None;
      }
      var id, payload := input[position..position + 4], input[position + 8..position + 8 + length];
      ghost var before := fields;
      if id == FMT && length >= 16 {
        var format := WavFormat(payload);
        if format.None? {
          WalkUnknown(input, seen, position, before);
          return None;
        }
        fields := fields.(format := format, channels := Some(FromLe16(payload[2..4])),
                          rate := Some(FromLe32(payload[4..8])), bits := Some(FromLe16(payload[14..16])));
      } else if id == DATA {
        fields := fields.(dataLen := Some(length), dataOffset := Some(position + 8));
      }
      ghost var chunk := WalkOn(input, seen, position, before);
      seen := seen + [chunk];
      position := end;
    }
    WalkEnds(input, seen, fields);
    Described(fields, seen);
    return Report(fields);
  }

  lemma {:induction false} TooShort(rest: bytes)
    requires |rest| < 8
    ensures Head(rest).None?
  {
  }

  lemma {:induction false} Described(fields: Fields, chunks: seq<Chunk>)
    requires AllWellFormed(chunks) && Kept(fields, chunks)
    ensures Report(fields) == Describe(chunks)
  {
    hide FormatTag;
  }

  lemma {:induction false} PayloadInside(input: bytes, chunks: seq<Chunk>, i: nat)
    requires Tiles(input, chunks) && i < |chunks|
    ensures var offset, length := PayloadOffset(chunks, i), |chunks[i].payload|;
      offset + length <= |input| && input[offset..offset + length] == chunks[i].payload
  {
    var chunk, before, after := chunks[i], Flat(chunks[..i]), Flat(chunks[i..][1..]);
    FlatConcat(chunks[..i], chunks[i..]);
    assert chunks == chunks[..i] + chunks[i..];
    Slices(input[..12], before, chunk, after);
    assert input == input[..12] + (before + (Encoded(chunk) + after));
  }

  lemma {:induction false} Slices(header: bytes, before: bytes, chunk: Chunk, after: bytes)
    requires WellFormed(chunk)
    ensures var all, offset := header + (before + (Encoded(chunk) + after)), |header| + |before| + 8;
      && offset + |chunk.payload| <= |all| && all[offset..offset + |chunk.payload|] == chunk.payload
  {
  }

  /** What is accepted lies inside the file: the reported bytes are the payload of the last data chunk, and they are
      exactly the reported number of whole frames. */
  lemma {:induction false} AcceptedIsInside(input: bytes, chunks: seq<Chunk>)
    requires Tiles(input, chunks) && Describe(chunks).Some?
    ensures var wav := Describe(chunks).value;
      && wav.dataOffset + wav.dataLen <= |input|
      && input[wav.dataOffset..wav.dataOffset + wav.dataLen] == chunks[Last(chunks, IsData).value].payload
      && wav.frameCount * (wav.channels * (wav.bitsPerSample / 8)) == wav.dataLen
  {
    hide Flat, FormatTag, Encoded;
    var i := Last(chunks, IsData).value;
    PayloadInside(input, chunks, i);
    Frames(Describe(chunks).value.channels, Describe(chunks).value.bitsPerSample, |chunks[i].payload|);
  }

  lemma {:induction false} Frames(channels: nat, bits: nat, length: nat)
    requires channels != 0 && bits != 0 && bits % 8 == 0
    requires channels * (bits / 8) > 0 && length % (channels * (bits / 8)) == 0
    ensures (length / (channels * (bits / 8))) * (channels * (bits / 8)) == length
  {
  }
}
