/** How Standard MIDI Files 1.0 spells a whole file: a header, its track chunks, and what the parser leaves alone. */
module SmfFileSpelling {
  import opened Wrappers
  import opened Bytes
  import opened SmfFiles
  import opened SmfFormat

  // The most significant byte first.
  function BigEndian(n: nat, width: nat): bytes {
    if width == 0 then [] else BigEndian(n / 0x100, width - 1) + [n % 0x100]
  }

  // A header may be longer than its six bytes, and something may follow the last track.
  datatype File = File(format: nat, ppq: nat, extra: bytes, tracks: seq<bytes>, trailing: bytes)

  predicate Spellable(file: File) {
    && file.format < 0x1_0000 && 0 < file.ppq < 0x8000 && 6 + |file.extra| < 0x1_0000_0000
    && 0 < |file.tracks| < 0x1_0000
    && forall k :: 0 <= k < |file.tracks| ==> |file.tracks[k]| < 0x1_0000_0000
  }

  function TrackBytes(track: bytes): bytes {
    [0x4d, 0x54, 0x72, 0x6b] + BigEndian(|track|, 4) + track
  }

  function TracksBytes(tracks: seq<bytes>): bytes {
    if tracks == [] then [] else TrackBytes(tracks[0]) + TracksBytes(tracks[1..])
  }

  function HeaderBytes(file: File): bytes {
    [0x4d, 0x54, 0x68, 0x64] + BigEndian(6 + |file.extra|, 4) + BigEndian(file.format, 2)
    + BigEndian(|file.tracks|, 2) + BigEndian(file.ppq, 2) + file.extra
  }

  function FileBytes(file: File): bytes {
    HeaderBytes(file) + TracksBytes(file.tracks) + file.trailing
  }

  lemma {:induction false} Two(n: nat)
    requires n < 0x1_0000
    ensures |BigEndian(n, 2)| == 2 && FromBe16(BigEndian(n, 2)) == n
  {
    assert BigEndian(n, 2) == BigEndian(n / 0x100, 1) + [n % 0x100];
    assert BigEndian(n / 0x100, 1) == BigEndian(n / 0x100 / 0x100, 0) + [n / 0x100 % 0x100];
  }

  lemma {:induction false} Four(n: nat)
    requires n < 0x1_0000_0000
    ensures |BigEndian(n, 4)| == 4 && FromBe32(BigEndian(n, 4)) == n
  {
    var a, b, c := n / 0x100, n / 0x100 / 0x100, n / 0x100 / 0x100 / 0x100;
    assert BigEndian(c, 1) == BigEndian(c / 0x100, 0) + [c % 0x100];
    assert BigEndian(b, 2) == BigEndian(c, 1) + [b % 0x100] && BigEndian(a, 3) == BigEndian(b, 2) + [a % 0x100];
  }

  lemma {:induction false} TwoBack(b: bytes)
    requires |b| == 2
    ensures FromBe16(b) < 0x1_0000 && BigEndian(FromBe16(b), 2) == b
  {
    var n := FromBe16(b);
    Two(n);
    assert BigEndian(n, 2) == BigEndian(n / 0x100, 1) + [n % 0x100];
    assert BigEndian(n / 0x100, 1) == BigEndian(n / 0x100 / 0x100, 0) + [n / 0x100 % 0x100];
  }

  lemma {:induction false} FourBack(b: bytes)
    requires |b| == 4
    ensures FromBe32(b) < 0x1_0000_0000 && BigEndian(FromBe32(b), 4) == b
  {
    var n := FromBe32(b);
    var a, c, d := n / 0x100, n / 0x100 / 0x100, n / 0x100 / 0x100 / 0x100;
    assert a == b[0] as nat * 0x1_0000 + b[1] as nat * 0x100 + b[2];
    assert c == b[0] as nat * 0x100 + b[1];
    assert BigEndian(d, 1) == BigEndian(d / 0x100, 0) + [d % 0x100];
    assert BigEndian(c, 2) == BigEndian(d, 1) + [c % 0x100] && BigEndian(a, 3) == BigEndian(c, 2) + [a % 0x100];
    assert BigEndian(n, 4) == BigEndian(a, 3) + [n % 0x100];
  }

  lemma {:induction false} ChunkSpelled(track: bytes, rest: bytes)
    requires |track| < 0x1_0000_0000
    ensures Chunk(TrackBytes(track) + rest) == Some((track, rest))
  {
    var input := TrackBytes(track) + rest;
    Four(|track|);
    assert input[..4] == TRACK_TAG && input[4..8] == BigEndian(|track|, 4);
    assert input[8..8 + |track|] == track && input[8 + |track|..] == rest;
  }

  lemma {:induction false} ChunkRead(input: bytes)
    requires Chunk(input).Some?
    ensures var (track, rest) := Chunk(input).value;
      |track| < 0x1_0000_0000 && input == TrackBytes(track) + rest
  {
    FourBack(input[4..8]);
    assert input == input[..4] + input[4..8] + input[8..8 + FromBe32(input[4..8])]
                    + input[8 + FromBe32(input[4..8])..];
  }

  lemma {:induction false} TracksSpelled(tracks: seq<bytes>, rest: bytes)
    requires forall k :: 0 <= k < |tracks| ==> |tracks[k]| < 0x1_0000_0000
    ensures TrackDatas(TracksBytes(tracks) + rest, |tracks|) == Some(tracks)
    decreases |tracks|
  {
    hide Chunk, TrackBytes;
    if tracks != [] {
      var after := TracksBytes(tracks[1..]) + rest;
      assert TracksBytes(tracks) + rest == TrackBytes(tracks[0]) + after;
      ChunkSpelled(tracks[0], after);
      TracksSpelled(tracks[1..], rest);
      assert [tracks[0]] + tracks[1..] == tracks;
    } else {
      assert TracksBytes(tracks) + rest == rest;
    }
  }

  lemma {:induction false} TracksRead(input: bytes, count: nat) returns (rest: bytes)
    requires TrackDatas(input, count).Some?
    ensures var tracks := TrackDatas(input, count).value;
      && |tracks| == count && (forall k :: 0 <= k < |tracks| ==> |tracks[k]| < 0x1_0000_0000)
      && input == TracksBytes(tracks) + rest
    decreases count
  {
    hide Chunk, TrackBytes;
    if count == 0 {
      rest := input;
      assert [] + input == input;
    } else {
      var (track, after) := Chunk(input).value;
      ChunkRead(input);
      rest := TracksRead(after, count - 1);
      var tracks := TrackDatas(after, count - 1).value;
      assert ([track] + tracks)[1..] == tracks;
      assert TrackBytes(track) + (TracksBytes(tracks) + rest) == TracksBytes([track] + tracks) + rest;
    }
  }

  lemma {:induction false} HeaderSpelled(file: File, rest: bytes)
    requires Spellable(file)
    ensures ParseHeader(HeaderBytes(file) + rest) == Some(Header(6 + |file.extra|, |file.tracks|, file.ppq))
    ensures (HeaderBytes(file) + rest)[14 + |file.extra|..] == rest
  {
    var input := HeaderBytes(file) + rest;
    Four(6 + |file.extra|);
    Two(file.format);
    Two(|file.tracks|);
    Two(file.ppq);
    assert input[..4] == HEADER_TAG && input[4..8] == BigEndian(6 + |file.extra|, 4);
    assert input[10..12] == BigEndian(|file.tracks|, 2) && input[12..14] == BigEndian(file.ppq, 2);
  }

  lemma {:induction false} FileSpelled(file: File, target: Option<nat>)
    requires Spellable(file)
    ensures FileDatas(FileBytes(file)) == Some(file.tracks)
    ensures FileScale(FileBytes(file), target) == Scale(file.ppq, target.GetOr(file.ppq))
  {
    hide ParseHeader, HeaderBytes, TracksBytes, TrackDatas;
    var rest := TracksBytes(file.tracks) + file.trailing;
    assert FileBytes(file) == HeaderBytes(file) + rest;
    HeaderSpelled(file, rest);
    TracksSpelled(file.tracks, file.trailing);
  }

  lemma {:induction false} HeaderFields(input: bytes)
    requires ParseHeader(input).Some?
    ensures var header := ParseHeader(input).value;
      && 6 <= header.length && 8 + header.length <= |input| && input[..4] == [0x4d, 0x54, 0x68, 0x64]
      && FromBe32(input[4..8]) == header.length && FromBe16(input[10..12]) == header.tracks
      && FromBe16(input[12..14]) == header.ppq && header.ppq < 0x8000 && 0 < header.tracks
  {
  }

  lemma {:induction false} HeaderRead(input: bytes) returns (format: nat, extra: bytes)
    requires ParseHeader(input).Some?
    ensures var header := ParseHeader(input).value;
      && format < 0x1_0000 && header.ppq < 0x8000 && 0 < header.tracks < 0x1_0000 && header.length < 0x1_0000_0000
      && header.length == 6 + |extra|
      && input[..8 + header.length] ==
         [0x4d, 0x54, 0x68, 0x64] + BigEndian(header.length, 4) + BigEndian(format, 2)
         + BigEndian(header.tracks, 2) + BigEndian(header.ppq, 2) + extra
  {
    hide ParseHeader, BigEndian, FromBe16, FromBe32;
    HeaderFields(input);
    var header := ParseHeader(input).value;
    format, extra := FromBe16(input[8..10]), input[14..8 + header.length];
    FourBack(input[4..8]);
    TwoBack(input[8..10]);
    TwoBack(input[10..12]);
    TwoBack(input[12..14]);
    assert input[..8 + header.length] ==
           input[..4] + input[4..8] + input[8..10] + input[10..12] + input[12..14] + extra;
  }

  lemma {:induction false} FileRead(input: bytes) returns (file: File)
    requires FileDatas(input).Some?
    ensures Spellable(file) && FileBytes(file) == input
  {
    hide ParseHeader, TracksBytes, TrackDatas, BigEndian;
    var header := ParseHeader(input).value;
    var format, extra := HeaderRead(input);
    var trailing := TracksRead(input[8 + header.length..], header.tracks);
    file := File(format, header.ppq, extra, FileDatas(input).value, trailing);
    assert input == input[..8 + header.length] + input[8 + header.length..];
  }

  /** The parser finds tracks in some bytes, and a resolution, if and only if they are the bytes of a file with them: of
      any format number, with a header of any length from six on, and with anything after the last track. */
  lemma {:induction false} FilesAreSpelled(input: bytes, tracks: seq<bytes>, ppq: PulsesPerQuarter)
    ensures FileDatas(input) == Some(tracks) && FileScale(input, None).source == ppq <==>
      exists file :: Spellable(file) && FileBytes(file) == input && file.tracks == tracks && file.ppq == ppq
  {
    hide FileDatas, FileScale, FileBytes;
    if FileDatas(input) == Some(tracks) {
      var file := FileRead(input);
      FileSpelled(file, None);
    }
    forall file | Spellable(file) && FileBytes(file) == input && file.tracks == tracks && file.ppq == ppq
      ensures FileDatas(input) == Some(tracks) && FileScale(input, None).source == ppq
    {
      FileSpelled(file, None);
    }
  }

  lemma {:induction false} TracksAccepted(rest: bytes, count: nat, scale: Scale)
    ensures ParseTracks(rest, count, scale).Some? <==>
      TrackDatas(rest, count).Some?
      && forall data :: data in TrackDatas(rest, count).value ==> ParseTrack(data, scale).Some?
    decreases count
  {
    hide Chunk, ParseTrack;
    if count > 0 && Chunk(rest).Some? {
      TracksAccepted(Chunk(rest).value.1, count - 1, scale);
    }
  }

  /** A file is accepted if and only if it is spelled as a file, the target resolution is positive, and each track is
      accepted. */
  lemma {:induction false} FileAcceptedExactlyWhen(input: bytes, target: Option<nat>)
    ensures Parse(input, target).Some? <==>
      && (exists file :: Spellable(file) && FileBytes(file) == input) && target != Some(0)
      && FileDatas(input).Some?
      && forall data :: data in FileDatas(input).value ==> ParseTrack(data, FileScale(input, target)).Some?
  {
    hide ParseHeader, ParseTracks, TrackDatas, ParseTrack, Sing, FileBytes;
    if FileDatas(input).Some? {
      var file := FileRead(input);
    }
    if ParseHeader(input).Some? {
      var header := ParseHeader(input).value;
      TracksAccepted(input[8 + header.length..], header.tracks, FileScale(input, target));
    }
  }
}
