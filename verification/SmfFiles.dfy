/** What holds of every file the parser accepts, told from its bytes: the notes and their ends, and the duration. */
module SmfFiles {
  import opened Wrappers
  import opened Bytes
  import opened StableSort
  import opened SmfContents
  import opened SmfDuration
  import opened SmfFormat
  import opened SmfTracks
  import LyricMatching

  // The data of the track chunks at the head of the input.
  function TrackDatas(rest: bytes, count: nat): Option<seq<bytes>> {
    if count == 0 then Some([])
    else
      var (data, rest') :- Chunk(rest);
      var datas :- TrackDatas(rest', count - 1);
      Some([data] + datas)
  }

  lemma {:induction false} TracksAreParsed(rest: bytes, count: nat, scale: Scale)
    requires ParseTracks(rest, count, scale).Some?
    ensures TrackDatas(rest, count).Some?
    ensures AreParsed(TrackDatas(rest, count).value, scale, ParseTracks(rest, count, scale).value)
    decreases count
  {
    hide ParseTrack, Chunk;
    if count > 0 {
      TracksAreParsed(Chunk(rest).value.1, count - 1, scale);
    }
  }

  // Where the tracks of a file are, and at which resolutions it is read.
  function FileDatas(input: bytes): Option<seq<bytes>> {
    var header :- ParseHeader(input);
    TrackDatas(input[8 + header.length..], header.tracks)
  }

  function FileScale(input: bytes, target: Option<nat>): Scale {
    match ParseHeader(input)
    case None => Scale(1, 1)
    case Some(header) => Scale(header.ppq, target.GetOr(header.ppq))
  }

  function Wordless(): Note -> Note {
    (note: Note) => note.(lyric := None)
  }

  // The tracks of an accepted file, each parsed by itself, and the score put together from them.
  lemma {:induction false} FileTracks(input: bytes, target: Option<nat>) returns (tracks: seq<Track>)
    requires Parse(input, target).Some?
    ensures FileDatas(input).Some? && AreParsed(FileDatas(input).value, FileScale(input, target), tracks)
    ensures |Gather(tracks).notes| == |Gather(tracks).places| && Parse(input, target) == Some(Sing(Gather(tracks)))
  {
    hide ParseHeader, ParseTracks, Sing, Gather;
    var header := ParseHeader(input).value;
    var scale := FileScale(input, target);
    TracksAreParsed(input[8 + header.length..], header.tracks, scale);
    tracks := ParseTracks(input[8 + header.length..], header.tracks, scale).value;
    GatherSizes(tracks);
  }

  // Apart from their lyrics the notes are those gathered, stably sorted.
  lemma {:induction false} SungNotes(score: Score)
    requires |score.notes| == |score.places|
    ensures Map(Sing(score).notes, Wordless()) == Sort(Map(score.notes, Wordless()), ByStart)
    ensures forall limit :: NotesWithin(Sing(score).notes, limit) <==> NotesWithin(score.notes, limit)
  {
    hide Sort;
    var words := LyricMatching.Matched(score.places, LyricMatching.Unassigned(|score.places|), score.lyrics);
    var sung := WithLyrics(score.notes, words);
    MapSort(sung, ByStart, Wordless(), ByStart);
    assert Map(sung, Wordless()) == Map(score.notes, Wordless());
    SameElements(sung, ByStart);
    forall limit: int | limit >= 0 ensures NotesWithin(Sing(score).notes, limit) <==> NotesWithin(score.notes, limit) {
      SameEnds(score.notes, sung, limit);
    }
  }

  // What the tracks hold, track after track in the order of the file.
  function NotesOfAll(tracks: seq<Track>): seq<Note> {
    if tracks == [] then [] else NotesOfAll(tracks[..|tracks| - 1]) + NotesOf(tracks[|tracks| - 1].notes)
  }

  function ControlsOfAll(tracks: seq<Track>): seq<Control> {
    if tracks == [] then [] else ControlsOfAll(tracks[..|tracks| - 1]) + tracks[|tracks| - 1].controls
  }

  // Where each note and lyric stands: the number of its track, its source tick, and its event number.
  function PlacesOfAll(tracks: seq<Track>): seq<LyricMatching.Place> {
    if tracks == [] then []
    else
      var n := |tracks| - 1;
      PlacesOfAll(tracks[..n])
      + seq(|tracks[n].notes|, i requires 0 <= i < |tracks[n].notes| =>
            LyricMatching.Place(n, tracks[n].notes[i].tick, tracks[n].notes[i].order))
  }

  function LyricsOfAll(tracks: seq<Track>): seq<LyricMatching.Lyric> {
    if tracks == [] then []
    else
      var n := |tracks| - 1;
      LyricsOfAll(tracks[..n])
      + seq(|tracks[n].sung|, i requires 0 <= i < |tracks[n].sung| =>
            LyricMatching.Lyric(n, tracks[n].sung[i].tick, tracks[n].sung[i].order, tracks[n].sung[i].text))
  }

  lemma {:induction false} GatheredAll(tracks: seq<Track>)
    ensures var score := Gather(tracks);
      && score.notes == NotesOfAll(tracks) && score.controls == ControlsOfAll(tracks)
      && score.places == PlacesOfAll(tracks) && score.lyrics == LyricsOfAll(tracks)
  {
    if tracks != [] {
      var n := |tracks| - 1;
      GatheredAll(tracks[..n]);
      assert PlacesOf(n, tracks[n].notes) == seq(|tracks[n].notes|, i requires 0 <= i < |tracks[n].notes| =>
            LyricMatching.Place(n, tracks[n].notes[i].tick, tracks[n].notes[i].order));
      assert LyricsOf(n, tracks[n].sung) == seq(|tracks[n].sung|, i requires 0 <= i < |tracks[n].sung| =>
            LyricMatching.Lyric(n, tracks[n].sung[i].tick, tracks[n].sung[i].order, tracks[n].sung[i].text));
    }
  }

  // The notes with the words the lyrics of the file give them.
  ghost predicate Worded(notes: seq<Note>, tracks: seq<Track>) {
    var places := PlacesOfAll(tracks);
    && |NotesOfAll(tracks)| == |places|
    && notes == Sort(WithLyrics(NotesOfAll(tracks), LyricMatching.Matched(places, seq(|places|, _ => None),
                                                                          LyricsOfAll(tracks))), ByStart)
  }

  lemma {:induction false} SungAll(tracks: seq<Track>)
    requires |Gather(tracks).notes| == |Gather(tracks).places|
    ensures Worded(Sing(Gather(tracks)).notes, tracks)
    ensures Sing(Gather(tracks)).controls == Sort(ControlsOfAll(tracks), ByTick)
  {
    hide Gather, Sort, LyricMatching.Matched;
    GatheredAll(tracks);
    var places := PlacesOfAll(tracks);
    assert LyricMatching.Unassigned(|places|) == seq(|places|, _ => None);
  }

  // What a track holds is what its events say, and its notes end in turn.
  ghost predicate Faithful(data: bytes, scale: Scale, track: Track) {
    && Decode(data, 0).Some?
    && HeadsOf(track.notes) == NotesIn(Decode(data, 0).value, 0, 0, scale)
    && track.controls == ControlsIn(Decode(data, 0).value, 0, scale)
    && track.sung == LyricsIn(Decode(data, 0).value, 0, 0)
    && Ordered(track) && Lasting(track.notes)
    && forall i :: 0 <= i < |track.notes| ==> EndsInTurn(data, scale, track, i) && !track.notes[i].open
  }

  lemma {:induction false} ParsedIsFaithful(data: bytes, scale: Scale)
    requires ParseTrack(data, scale).Some?
    ensures Faithful(data, scale, ParseTrack(data, scale).value)
  {
    hide ParseTrack, Decode, EndsInTurn, Ordered, Lasting, NotesIn, ControlsIn, LyricsIn, HeadsOf;
    TrackHolds(data, scale);
    ParsedIsOrdered(data, scale);
    var track := ParseTrack(data, scale).value;
    forall i | 0 <= i < |track.notes| ensures EndsInTurn(data, scale, track, i) {
      FirstInFirstOut(data, scale, i);
    }
  }

  /** Every accepted file: each track holds one note, control or lyric for each event that says so, its notes ending in
      turn, none shorter than one tick; the notes of the file are those of its tracks, track after track, with the words
      its lyrics give them, and the controls likewise, each stably sorted. */
  lemma {:induction false} FileNotes(input: bytes, target: Option<nat>) returns (tracks: seq<Track>)
    requires Parse(input, target).Some?
    ensures FileDatas(input).Some? && |tracks| == |FileDatas(input).value|
    ensures forall k :: 0 <= k < |tracks| ==> Faithful(FileDatas(input).value[k], FileScale(input, target), tracks[k])
    ensures Worded(Parse(input, target).value.notes, tracks)
    ensures Map(Parse(input, target).value.notes, Wordless()) == Sort(Map(NotesOfAll(tracks), Wordless()), ByStart)
    ensures Parse(input, target).value.controls == Sort(ControlsOfAll(tracks), ByTick)
  {
    hide Parse, FileDatas, FileScale, ParseTrack, Sing, Gather, Faithful, Sort, Worded;
    tracks := FileTracks(input, target);
    SungNotes(Gather(tracks));
    SungAll(tracks);
    GatheredAll(tracks);
    forall k | 0 <= k < |tracks| ensures Faithful(FileDatas(input).value[k], FileScale(input, target), tracks[k]) {
      ParsedIsFaithful(FileDatas(input).value[k], FileScale(input, target));
    }
  }

  /** The reported duration of every accepted file is the least that covers one tick, every event of every track at its
      converted tick, every note to its end, and every control and the tick after it. */
  lemma {:induction false} FileDuration(input: bytes, target: Option<nat>, limit: nat)
    requires Parse(input, target).Some?
    ensures FileDatas(input).Some?
    ensures var parsed := Parse(input, target).value;
      parsed.duration <= limit <==>
        1 <= limit && AllTicksWithin(FileDatas(input).value, FileScale(input, target), limit)
        && NotesWithin(parsed.notes, limit) && ControlsWithin(parsed.controls, limit)
  {
    hide Parse, FileDatas, FileScale, Gather, Sort, Duration, AreParsed, AllTicksWithin, NotesWithin;
    var tracks := FileTracks(input, target);
    var score := Gather(tracks);
    SungNotes(score);
    DurationIsLeast(FileDatas(input).value, FileScale(input, target), tracks, limit);
    SameElements(score.controls, ByTick);
  }
}
