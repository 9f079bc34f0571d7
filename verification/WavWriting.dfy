/** How a RIFF/WAVE file is written, field by field, and that exactly what is written so is read, as what was
    written. */
module WavWriting {
  import opened Wrappers
  import opened Bytes
  import opened Wav

  // The least significant byte first.
  function LittleEndian(n: nat, width: nat): bytes {
    if width == 0 then [] else [n % 0x100] + LittleEndian(n / 0x100, width - 1)
  }

  // The fields of a format chunk; an extensible one, of tag 0xfffe, goes on with the size of its extension, the valid
  // bits and the speakers, and then the tag proper in a subtype of the standard form. Anything may follow.
  datatype Format = Format(tag: nat, channels: nat, rate: nat, byteRate: nat, align: nat, bits: nat,
                           extension: Option<Extension>, rest: bytes)

  datatype Extension = Extension(size: nat, valid: nat, speakers: nat, tag: nat)

  predicate Writable(format: Format) {
    && format.tag < 0x1_0000 && format.channels < 0x1_0000 && format.rate < 0x1_0000_0000
    && format.byteRate < 0x1_0000_0000 && format.align < 0x1_0000 && format.bits < 0x1_0000
    && (format.tag == 0xfffe <==> format.extension.Some?)
    && (format.extension.Some? ==>
          var extension := format.extension.value;
          && extension.size < 0x1_0000 && extension.valid < 0x1_0000 && extension.speakers < 0x1_0000_0000
          && extension.tag < 0x1_0000)
  }

  function FormatBytes(format: Format): bytes {
    LittleEndian(format.tag, 2) + LittleEndian(format.channels, 2) + LittleEndian(format.rate, 4)
    + LittleEndian(format.byteRate, 4) + LittleEndian(format.align, 2) + LittleEndian(format.bits, 2)
    + (match format.extension
       case None => []
       case Some(extension) =>
         LittleEndian(extension.size, 2) + LittleEndian(extension.valid, 2) + LittleEndian(extension.speakers, 4)
         + LittleEndian(extension.tag, 2)
         + [0x00, 0x00, 0x00, 0x00, 0x10, 0x00, 0x80, 0x00, 0x00, 0xaa, 0x00, 0x38, 0x9b, 0x71])
    + format.rest
  }

  function TagOf(format: Format): nat {
    if format.extension.Some? then format.extension.value.tag else format.tag
  }

  lemma {:induction false} TwoBytes(n: nat)
    requires n < 0x1_0000
    ensures |LittleEndian(n, 2)| == 2 && FromLe16(LittleEndian(n, 2)) == n
  {
    assert LittleEndian(n, 2) == [n % 0x100] + LittleEndian(n / 0x100, 1);
    assert LittleEndian(n / 0x100, 1) == [n / 0x100 % 0x100] + LittleEndian(n / 0x100 / 0x100, 0);
  }

  lemma {:induction false} FourBytes(n: nat)
    requires n < 0x1_0000_0000
    ensures |LittleEndian(n, 4)| == 4 && FromLe32(LittleEndian(n, 4)) == n
  {
    var a, b, c := n / 0x100, n / 0x100 / 0x100, n / 0x100 / 0x100 / 0x100;
    assert LittleEndian(n, 4) == [n % 0x100] + LittleEndian(a, 3);
    assert LittleEndian(a, 3) == [a % 0x100] + LittleEndian(b, 2);
    assert LittleEndian(b, 2) == [b % 0x100] + LittleEndian(c, 1);
    assert LittleEndian(c, 1) == [c % 0x100] + LittleEndian(c / 0x100, 0);
  }

  lemma {:induction false} TwoBytesBack(b: bytes)
    requires |b| == 2
    ensures FromLe16(b) < 0x1_0000 && LittleEndian(FromLe16(b), 2) == b
  {
    var n := FromLe16(b);
    assert LittleEndian(n, 2) == [n % 0x100] + LittleEndian(n / 0x100, 1);
    assert LittleEndian(n / 0x100, 1) == [n / 0x100 % 0x100] + LittleEndian(n / 0x100 / 0x100, 0);
  }

  lemma {:induction false} FourBytesBack(b: bytes)
    requires |b| == 4
    ensures FromLe32(b) < 0x1_0000_0000 && LittleEndian(FromLe32(b), 4) == b
  {
    var n := FromLe32(b);
    var a, c, d := n / 0x100, n / 0x100 / 0x100, n / 0x100 / 0x100 / 0x100;
    assert a == b[3] as nat * 0x1_0000 + b[2] as nat * 0x100 + b[1];
    assert c == b[3] as nat * 0x100 + b[2];
    assert LittleEndian(n, 4) == [n % 0x100] + LittleEndian(a, 3);
    assert LittleEndian(a, 3) == [a % 0x100] + LittleEndian(c, 2);
    assert LittleEndian(c, 2) == [c % 0x100] + LittleEndian(d, 1);
    assert LittleEndian(d, 1) == [d % 0x100] + LittleEndian(d / 0x100, 0);
  }

  lemma {:induction false} FieldsWritten(format: Format)
    requires Writable(format)
    ensures var fmt := FormatBytes(format);
      && |fmt| >= 16 && FromLe16(fmt[..2]) == format.tag && FromLe16(fmt[2..4]) == format.channels
      && FromLe32(fmt[4..8]) == format.rate && FromLe16(fmt[14..16]) == format.bits
  {
    hide LittleEndian, FromLe16, FromLe32;
    TwoBytes(format.tag);
    TwoBytes(format.channels);
    FourBytes(format.rate);
    FourBytes(format.byteRate);
    TwoBytes(format.align);
    TwoBytes(format.bits);
    var fmt := FormatBytes(format);
    assert fmt[..2] == LittleEndian(format.tag, 2) && fmt[2..4] == LittleEndian(format.channels, 2);
    assert fmt[4..8] == LittleEndian(format.rate, 4) && fmt[14..16] == LittleEndian(format.bits, 2);
  }

  lemma {:induction false} TagWritten(format: Format)
    requires Writable(format)
    ensures |FormatBytes(format)| >= 16 && FormatTag(FormatBytes(format)) == Some(TagOf(format))
  {
    hide LittleEndian, FromLe16, FromLe32;
    FieldsWritten(format);
    var fmt := FormatBytes(format);
    if format.extension.Some? {
      var extension := format.extension.value;
      TwoBytes(format.tag);
      TwoBytes(format.channels);
      FourBytes(format.rate);
      FourBytes(format.byteRate);
      TwoBytes(format.align);
      TwoBytes(format.bits);
      TwoBytes(extension.size);
      TwoBytes(extension.valid);
      FourBytes(extension.speakers);
      TwoBytes(extension.tag);
      assert fmt[24..26] == LittleEndian(extension.tag, 2);
      assert fmt[26..40] == SUBTYPE_TAIL;
    }
  }

  // What any bytes of a format chunk are the fields of.
  lemma {:induction false} FormatRead(fmt: bytes) returns (format: Format)
    requires |fmt| >= 16 && FormatTag(fmt).Some?
    ensures Writable(format) && FormatBytes(format) == fmt
  {
    hide LittleEndian, FromLe16, FromLe32;
    TwoBytesBack(fmt[..2]);
    TwoBytesBack(fmt[2..4]);
    FourBytesBack(fmt[4..8]);
    FourBytesBack(fmt[8..12]);
    TwoBytesBack(fmt[12..14]);
    TwoBytesBack(fmt[14..16]);
    var tag := FromLe16(fmt[..2]);
    var extended := tag == 0xfffe;
    var extension, rest := None, fmt[16..];
    if extended {
      TwoBytesBack(fmt[16..18]);
      TwoBytesBack(fmt[18..20]);
      FourBytesBack(fmt[20..24]);
      TwoBytesBack(fmt[24..26]);
      extension := Some(Extension(FromLe16(fmt[16..18]), FromLe16(fmt[18..20]), FromLe32(fmt[20..24]),
                                  FromLe16(fmt[24..26])));
      rest := fmt[40..];
      assert fmt[16..] == fmt[16..18] + fmt[18..20] + fmt[20..24] + fmt[24..26] + fmt[26..40] + rest;
    }
    format := Format(tag, FromLe16(fmt[2..4]), FromLe32(fmt[4..8]), FromLe32(fmt[8..12]), FromLe16(fmt[12..14]),
                     FromLe16(fmt[14..16]), extension, rest);
    assert fmt == fmt[..2] + fmt[2..4] + fmt[4..8] + fmt[8..12] + fmt[12..14] + fmt[14..16] + fmt[16..];
  }

  function ChunkBytes(chunk: Chunk): bytes {
    chunk.id + LittleEndian(|chunk.payload|, 4) + chunk.payload + chunk.pad
  }

  function ChunksBytes(chunks: seq<Chunk>): bytes {
    if chunks == [] then [] else ChunkBytes(chunks[0]) + ChunksBytes(chunks[1..])
  }

  // A file: any size in its header, any chunks, and which of them are the last format and the last data.
  datatype Wave = Wave(size: bytes, chunks: seq<Chunk>, format: Format, formatAt: nat, dataAt: nat)

  predicate IsFmt(chunk: Chunk) {
    chunk.id == [0x66, 0x6d, 0x74, 0x20] && |chunk.payload| >= 16
  }

  predicate IsSound(chunk: Chunk) {
    chunk.id == [0x64, 0x61, 0x74, 0x61]
  }

  ghost predicate AllKnown(chunks: seq<Chunk>) {
    forall i :: 0 <= i < |chunks| && IsFmt(chunks[i]) ==>
      exists format :: Writable(format) && FormatBytes(format) == chunks[i].payload
  }

  // One frame holds a sample of whole bytes for each channel, and the data is whole frames.
  predicate WholeFrames(format: Format, length: nat) {
    && format.channels > 0 && format.rate > 0 && format.bits > 0 && format.bits % 8 == 0
    && var frame := format.channels * (format.bits / 8);
       frame > 0 && length % frame == 0
  }

  ghost predicate WellMade(wave: Wave) {
    && |wave.size| == 4
    && (forall i :: 0 <= i < |wave.chunks| ==>
          var chunk := wave.chunks[i];
          |chunk.id| == 4 && |chunk.payload| < 0x1_0000_0000 && |chunk.pad| == |chunk.payload| % 2)
    && AllKnown(wave.chunks) && wave.formatAt < |wave.chunks| && wave.dataAt < |wave.chunks|
    && IsFmt(wave.chunks[wave.formatAt]) && IsSound(wave.chunks[wave.dataAt])
    && (forall i :: wave.formatAt < i < |wave.chunks| ==> !IsFmt(wave.chunks[i]))
    && (forall i :: wave.dataAt < i < |wave.chunks| ==> !IsSound(wave.chunks[i]))
    && Writable(wave.format) && FormatBytes(wave.format) == wave.chunks[wave.formatAt].payload
    && WholeFrames(wave.format, |wave.chunks[wave.dataAt].payload|)
  }

  function BytesOf(wave: Wave): bytes {
    [0x52, 0x49, 0x46, 0x46] + wave.size + [0x57, 0x41, 0x56, 0x45] + ChunksBytes(wave.chunks)
  }

  function SizeOf(chunks: seq<Chunk>): nat {
    if chunks == [] then 0
    else SizeOf(chunks[..|chunks| - 1]) + 8 + |chunks[|chunks| - 1].payload| + |chunks[|chunks| - 1].pad|
  }

  // What the file says of its sound.
  function Told(wave: Wave): Metadata
    requires wave.dataAt < |wave.chunks| && WholeFrames(wave.format, |wave.chunks[wave.dataAt].payload|)
  {
    var length := |wave.chunks[wave.dataAt].payload|;
    Metadata(TagOf(wave.format), wave.format.channels, wave.format.rate, wave.format.bits,
             12 + SizeOf(wave.chunks[..wave.dataAt]) + 8, length,
             length / (wave.format.channels * (wave.format.bits / 8)))
  }

  lemma {:induction false} ChunkWritten(chunk: Chunk)
    requires WellFormed(chunk)
    ensures ChunkBytes(chunk) == Encoded(chunk) && |Encoded(chunk)| == 8 + |chunk.payload| + |chunk.pad|
  {
    var n := |chunk.payload|;
    FourBytes(n);
    LittleEndianBytes(LittleEndian(n, 4));
  }

  lemma {:induction false} ChunksWritten(chunks: seq<Chunk>)
    requires AllWellFormed(chunks)
    ensures ChunksBytes(chunks) == Flat(chunks)
  {
    hide Encoded, ChunkBytes;
    if chunks != [] {
      ChunkWritten(chunks[0]);
      ChunksWritten(chunks[1..]);
    }
  }

  lemma {:induction false} SizeIsFlat(chunks: seq<Chunk>)
    requires AllWellFormed(chunks)
    ensures |Flat(chunks)| == SizeOf(chunks)
  {
    hide Encoded, Flat;
    if chunks == [] {
      NoChunks();
    } else {
      var n := |chunks| - 1;
      SizeIsFlat(chunks[..n]);
      assert chunks == chunks[..n] + [chunks[n]];
      FlatConcat(chunks[..n], [chunks[n]]);
      FlatOne(chunks[n]);
      ChunkWritten(chunks[n]);
    }
  }

  lemma {:induction false} NoChunks()
    ensures Flat([]) == []
  {
  }

  lemma {:induction false} KnownAlike(chunks: seq<Chunk>)
    ensures AllKnown(chunks) <==> FormatsKnown(chunks)
  {
    hide FormatTag, FormatBytes, Writable;
    forall i | 0 <= i < |chunks| && IsFmt(chunks[i])
      ensures (exists format :: Writable(format) && FormatBytes(format) == chunks[i].payload) <==>
              FormatTag(chunks[i].payload).Some?
    {
      if FormatTag(chunks[i].payload).Some? {
        var format := FormatRead(chunks[i].payload);
      }
      forall format | Writable(format) && FormatBytes(format) == chunks[i].payload
        ensures FormatTag(chunks[i].payload).Some?
      {
        TagWritten(format);
      }
    }
  }

  lemma {:induction false} LastIs(chunks: seq<Chunk>, test: Chunk -> bool, i: nat)
    requires i < |chunks| && test(chunks[i]) && forall k :: i < k < |chunks| ==> !test(chunks[k])
    ensures Last(chunks, test) == Some(i)
  {
    var last := Last(chunks, test);
  }

  lemma {:induction false} WrittenTiles(wave: Wave)
    requires WellMade(wave)
    ensures Tiles(BytesOf(wave), wave.chunks)
  {
    hide Writable, FormatBytes, AllKnown, Flat;
    ChunksWritten(wave.chunks);
    var input := BytesOf(wave);
    assert input[..4] == RIFF && input[8..12] == WAVE && input[12..] == ChunksBytes(wave.chunks);
  }

  lemma {:induction false} WrittenIsDescribed(wave: Wave)
    requires WellMade(wave)
    ensures AllWellFormed(wave.chunks) && Describe(wave.chunks) == Some(Told(wave))
  {
    hide Writable, FormatBytes, FormatTag, AllKnown, FormatsKnown, Flat, Last, FromLe16, FromLe32;
    KnownAlike(wave.chunks);
    LastIs(wave.chunks, IsFormat, wave.formatAt);
    LastIs(wave.chunks, IsData, wave.dataAt);
    FieldsWritten(wave.format);
    TagWritten(wave.format);
    SizeIsFlat(wave.chunks[..wave.dataAt]);
  }

  lemma {:induction false} DescribedIsWritten(input: bytes, chunks: seq<Chunk>) returns (wave: Wave)
    requires Tiles(input, chunks) && Describe(chunks).Some?
    ensures WellMade(wave) && BytesOf(wave) == input && wave.chunks == chunks
  {
    hide Writable, FormatBytes, FormatTag, AllKnown, FormatsKnown, Flat, FromLe16, FromLe32, Describe, BytesOf;
    KnownAlike(chunks);
    var i, j := DescribedParts(chunks);
    var format := KnownFormat(chunks, i);
    FieldsWritten(format);
    wave := Wave(input[4..8], chunks, format, i, j);
    HeaderRead(input, wave);
  }

  // The chunks a description is of.
  lemma {:induction false} DescribedParts(chunks: seq<Chunk>) returns (i: nat, j: nat)
    requires AllWellFormed(chunks) && Describe(chunks).Some?
    ensures i < |chunks| && j < |chunks| && DescribesFormat(chunks[i]) && chunks[j].id == DATA && FormatsKnown(chunks)
    ensures forall k :: i < k < |chunks| ==> !DescribesFormat(chunks[k])
    ensures forall k :: j < k < |chunks| ==> chunks[k].id != DATA
    ensures var fmt, length := chunks[i].payload, |chunks[j].payload|;
      var channels, bits := FromLe16(fmt[2..4]), FromLe16(fmt[14..16]);
      && channels > 0 && FromLe32(fmt[4..8]) > 0 && bits > 0 && bits % 8 == 0
      && channels * (bits / 8) > 0 && length % (channels * (bits / 8)) == 0
  {
    hide FormatTag, Flat, FromLe16, FromLe32, FormatsKnown;
    i, j := Last(chunks, IsFormat).value, Last(chunks, IsData).value;
    FramePositive(FromLe16(chunks[i].payload[2..4]), FromLe16(chunks[i].payload[14..16]));
  }

  lemma {:induction false} HeaderRead(input: bytes, wave: Wave)
    requires Tiles(input, wave.chunks) && wave.size == input[4..8]
    ensures BytesOf(wave) == input
  {
    hide Flat, Encoded;
    ChunksWritten(wave.chunks);
    assert input == input[..4] + input[4..8] + input[8..12] + input[12..];
  }

  lemma {:induction false} KnownFormat(chunks: seq<Chunk>, i: nat) returns (format: Format)
    requires i < |chunks| && FormatsKnown(chunks) && DescribesFormat(chunks[i])
    ensures Writable(format) && FormatBytes(format) == chunks[i].payload
  {
    format := FormatRead(chunks[i].payload);
  }

  /** Some bytes are read as a sound if and only if they are written as one: a header with any size, and any chunks, of
      which the last format gives tag, channels, rate and bits, and the last data its place and whole frames. */
  lemma {:induction false} ReadAsWritten(input: bytes, metadata: Metadata)
    ensures (exists chunks :: Tiles(input, chunks) && Describe(chunks) == Some(metadata)) <==>
            (exists wave :: WellMade(wave) && BytesOf(wave) == input && Told(wave) == metadata)
  {
    hide BytesOf, Describe, Flat, FormatBytes, Writable, AllKnown, Encoded, HasHeader;
    forall chunks | Tiles(input, chunks) && Describe(chunks) == Some(metadata)
      ensures exists wave :: WellMade(wave) && BytesOf(wave) == input && Told(wave) == metadata
    {
      var wave := DescribedIsWritten(input, chunks);
      WrittenIsDescribed(wave);
    }
    forall wave | WellMade(wave) && BytesOf(wave) == input && Told(wave) == metadata
      ensures exists chunks :: Tiles(input, chunks) && Describe(chunks) == Some(metadata)
    {
      WrittenTiles(wave);
      WrittenIsDescribed(wave);
    }
  }

  /** Reading a file gives what was written, and nothing for what cannot be written. */
  method ParseWav(input: bytes) returns (r: Option<Metadata>)
    ensures r.Some? <==> exists wave :: WellMade(wave) && BytesOf(wave) == input
    ensures forall wave :: WellMade(wave) && BytesOf(wave) == input ==> r == Some(Told(wave))
  {
    r := ReadStructure(input);
    if r.Some? {
      ReadAsWritten(input, r.value);
    }
    forall wave | WellMade(wave) && BytesOf(wave) == input ensures r == Some(Told(wave)) {
      WrittenTiles(wave);
      WrittenIsDescribed(wave);
    }
  }
}
