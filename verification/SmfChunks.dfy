/** The header and the two track chunks of an exported file, read back. */
module SmfChunks {
  import opened Wrappers
  import opened Bytes
  import opened SmfFormat
  import SmfEncoder

  lemma {:induction false} HeaderBack(ppq: nat, rest: bytes)
    requires 0 < ppq <= SmfEncoder.MAX_SMF_PPQ
    ensures ParseHeader(SmfEncoder.Header(ppq) + rest) == Some(SmfFormat.Header(6, 2, ppq))
    ensures (SmfEncoder.Header(ppq) + rest)[14..] == rest
  {
    var input := SmfEncoder.Header(ppq) + rest;
    assert input[..4] == HEADER_TAG;
    assert input[4..8] == [0, 0, 0, 6] && input[10..12] == [0, 2] && input[12..14] == Be16(ppq);
    assert FromBe32([0, 0, 0, 6]) == 6 && FromBe16([0, 2]) == 2;
    BigEndianRoundTrip(ppq);
  }

  lemma {:induction false} ChunkBack(data: bytes, rest: bytes)
    requires |data| < U32_LIMIT
    ensures Chunk(TRACK_TAG + Be32(|data|) + data + rest) == Some((data, rest))
  {
    var input := TRACK_TAG + Be32(|data|) + data + rest;
    assert input[..4] == TRACK_TAG && input[4..8] == Be32(|data|);
    BigEndianRoundTrip(|data|);
    assert input[8..8 + |data|] == data && input[8 + |data|..] == rest;
  }

  /** An exported file is a header and two chunks, and reads back as such. */
  lemma {:induction false} FileBack(ppq: nat, clock: bytes, performance: bytes) returns (input: bytes)
    requires 0 < ppq <= SmfEncoder.MAX_SMF_PPQ && |clock| < U32_LIMIT && |performance| < U32_LIMIT
    ensures input ==
            SmfEncoder.Header(ppq) + (TRACK_TAG + Be32(|clock|) + clock) +
                (TRACK_TAG + Be32(|performance|) + performance)
    ensures ParseHeader(input) == Some(SmfFormat.Header(6, 2, ppq))
    ensures |input| >= 14 && Chunk(input[14..]).Some? && Chunk(input[14..]).value.0 == clock
    ensures Chunk(Chunk(input[14..]).value.1) == Some((performance, []))
  {
    hide ParseHeader, Chunk, Be32;
    var first, second := TRACK_TAG + Be32(|clock|) + clock, TRACK_TAG + Be32(|performance|) + performance;
    input := SmfEncoder.Header(ppq) + first + second;
    assert input == SmfEncoder.Header(ppq) + (first + second);
    HeaderBack(ppq, first + second);
    ChunkBack(clock, second);
    assert first + second == TRACK_TAG + Be32(|clock|) + clock + second;
    ChunkBack(performance, []);
    assert second == TRACK_TAG + Be32(|performance|) + performance + [];
  }
}
