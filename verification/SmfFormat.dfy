/** What a Standard MIDI File means to the parser: events, tracks and scores, as functions of the bytes. */
module SmfFormat {
  import opened Wrappers
  import opened Bytes
  import opened TickConversion
  import opened StableSort
  import VariableLength
  import LyricMatching

  type PulsesPerQuarter = x: nat | 0 < x witness 1

  const HEADER_TAG: bytes := [0x4d, 0x54, 0x68, 0x64]
  const TRACK_TAG: bytes := [0x4d, 0x54, 0x72, 0x6b]
  const META_STATUS: byte := 0xff
  const LYRIC: byte := 0x05

  datatype Note = Note(key: nat, start: nat, duration: nat, velocity: nat, channel: nat, lyric: Option<bytes>)

  datatype ControlKind = ControlChange | PitchBend | ChannelPressure

  datatype Control = Control(kind: ControlKind, tick: nat, channel: nat, data1: nat, data2: nat)

  datatype Event =
    | Meta(kind: byte, data: bytes)
    | System
    | Channel(command: nat, channel: nat, data1: byte, data2: byte)

  datatype Decoded = Decoded(event: Event, rest: bytes, running: nat)

  datatype Scale = Scale(source: PulsesPerQuarter, target: nat)

  function Max(a: int, b: int): int {
    if a < b then b else a
  }

  // The event at the head of the input, after its delta time.
  function DecodeEvent(rest: bytes, running: nat): (r: Option<Decoded>)
    ensures r.Some? ==> |r.value.rest| <= |rest|
  {
    if rest == [] || (rest[0] < 0x80 && running < 0x80) then None
    else
      var explicit := rest[0] >= 0x80;
      var status := if explicit then rest[0] as nat else running;
      var running' := if explicit && rest[0] < 0xf0 then rest[0] as nat else running;
      var body := if explicit then rest[1..] else rest;
      if status == META_STATUS then
        if body == [] then None
        else
          var data :- Payload(body[1..]);
          Some(Decoded(Meta(body[0], data.0), data.1, running'))
      else if status == 0xf0 || status == 0xf7 then
        var data :- Payload(body);
        Some(Decoded(System, data.1, running'))
      else DecodeChannel(status, body, running')
  }

  // A length-prefixed payload and what follows it.
  function Payload(rest: bytes): (r: Option<(bytes, bytes)>)
    ensures r.Some? ==> |r.value.1| <= |rest|
  {
    var (length, data) :- VariableLength.Read(rest);
    VariableLength.ReadSuffix(rest, 0, VariableLength.MAX_BYTES);
    if length > |data| then None else Some((data[..length], data[length..]))
  }

  function DecodeChannel(status: nat, body: bytes, running: nat): (r: Option<Decoded>)
    ensures r.Some? ==> |r.value.rest| <= |body|
  {
    var command, channel := status / 16, status % 16 + 1;
    if body == [] then None
    else if command == 0xc || command == 0xd then
      Some(Decoded(Channel(command, channel, body[0], 0), body[1..], running))
    else if |body| < 2 then None
    else Some(Decoded(Channel(command, channel, body[0], body[1]), body[2..], running))
  }

  // A note of one track: where its note-on stands, and whether it still sounds.
  datatype Placed = Placed(tick: nat, order: nat, note: Note, open: bool)

  datatype Sung = Sung(tick: nat, order: nat, text: bytes)

  // One track read so far.
  datatype Track = Track(tick: nat, order: nat, last: nat, notes: seq<Placed>, controls: seq<Control>, sung: seq<Sung>)

  const START: Track := Track(0, 0, 0, [], [], [])

  predicate Sounds(placed: Placed, channel: nat, key: nat) {
    placed.open && placed.note.channel == channel && placed.note.key == key
  }

  // The oldest note of this channel and key that still sounds: a plain search.
  function Oldest(notes: seq<Placed>, channel: nat, key: nat): (r: Option<nat>)
    ensures r.Some? ==> r.value < |notes|
  {
    if notes == [] then None
    else if Sounds(notes[0], channel, key) then Some(0)
    else
      var i :- Oldest(notes[1..], channel, key);
      Some(i + 1)
  }

  /** The search finds the first sounding note of the channel and key, and fails only when there is none. */
  lemma {:induction false} OldestIsFirst(notes: seq<Placed>, channel: nat, key: nat)
    ensures Oldest(notes, channel, key).None? ==> forall i :: 0 <= i < |notes| ==> !Sounds(notes[i], channel, key)
    ensures Oldest(notes, channel, key).Some? ==>
      && Sounds(notes[Oldest(notes, channel, key).value], channel, key)
      && forall i :: 0 <= i < Oldest(notes, channel, key).value ==> !Sounds(notes[i], channel, key)
  {
    if notes != [] {
      OldestIsFirst(notes[1..], channel, key);
    }
  }

  function Close(placed: Placed, end: nat): Placed {
    placed.(open := false, note := placed.note.(duration := Max(0, end - placed.note.start)))
  }

  function Release(track: Track, channel: nat, key: nat, at: nat): Option<Track> {
    match Oldest(track.notes, channel, key)
    case None => Some(track)
    case Some(i) =>
      var start := track.notes[i].note.start;
      if start + 1 > U64_MAX then None
      else
        var end := Max(at, start + 1);
        Some(EndNote(track, i, end))
  }

  function EndNote(track: Track, i: nat, end: nat): Track
    requires i < |track.notes|
  {
    track.(notes := track.notes[i := Close(track.notes[i], end)], last := Max(track.last, end))
  }

  function Press(track: Track, channel: nat, key: nat, velocity: nat, at: nat): Track {
    track.(notes := track.notes +
             [Placed(track.tick, track.order, Note(key, at, 1, Max(velocity, 1), channel, None), true)])
  }

  function KindOf(command: nat): Option<ControlKind> {
    if command == 0xb then Some(ControlChange)
    else if command == 0xd then Some(ChannelPressure)
    else if command == 0xe then Some(PitchBend)
    else None
  }

  // One event, `delta` source ticks after the previous one.
  function Advance(track: Track, scale: Scale, delta: nat, event: Event): Option<Track> {
    if track.tick + delta > U64_MAX then None
    else
      var at :- Convert(track.tick + delta, scale.source, scale.target);
      var moved := track.(tick := track.tick + delta, order := track.order + 1, last := Max(track.last, at));
      Play(moved, at, event)
  }

  function Play(track: Track, at: nat, event: Event): Option<Track> {
    match event
    case Meta(kind, data) =>
      if kind == LYRIC && IsUtf8(data)
      then Some(track.(sung := track.sung + [Sung(track.tick, track.order, data)]))
      else Some(track)
    case System => Some(track)
    case Channel(command, channel, data1, data2) =>
      if command == 0x8 || (command == 0x9 && data2 == 0) then Release(track, channel, data1, at)
      else if command == 0x9 then Some(Press(track, channel, data1, data2, at))
      else match KindOf(command)
        case None => Some(track)
        case Some(kind) => Some(track.(controls := track.controls + [Control(kind, at, channel, data1, data2)]))
  }

  // All the events of a track.
  function Run(track: Track, scale: Scale, rest: bytes, running: nat): Option<Track>
    decreases |rest|
  {
    if rest == [] then Some(track)
    else
      var (delta, body) :- VariableLength.Read(rest);
      VariableLength.ReadSuffix(rest, 0, VariableLength.MAX_BYTES);
      var decoded :- DecodeEvent(body, running);
      var next :- Advance(track, scale, delta, decoded.event);
      Run(next, scale, decoded.rest, decoded.running)
  }

  datatype Step = Step(delta: nat, event: Event)

  // The same track as a list of timed events, before any of them is played.
  function Decode(rest: bytes, running: nat): Option<seq<Step>>
    decreases |rest|
  {
    if rest == [] then Some([])
    else
      var (delta, body) :- VariableLength.Read(rest);
      VariableLength.ReadSuffix(rest, 0, VariableLength.MAX_BYTES);
      var decoded :- DecodeEvent(body, running);
      var steps :- Decode(decoded.rest, decoded.running);
      Some([Step(delta, decoded.event)] + steps)
  }

  function RunSteps(track: Track, scale: Scale, steps: seq<Step>): Option<Track>
    decreases |steps|
  {
    if steps == [] then Some(track)
    else
      var next :- Advance(track, scale, steps[0].delta, steps[0].event);
      RunSteps(next, scale, steps[1..])
  }

  lemma {:induction false} RunIsDecodeThenPlay(track: Track, scale: Scale, rest: bytes, running: nat)
    ensures Run(track, scale, rest, running) ==
      match Decode(rest, running)
      case None => None
      case Some(steps) => RunSteps(track, scale, steps)
    decreases |rest|
  {
    if rest != [] && VariableLength.Read(rest).Some? {
      var (delta, body) := VariableLength.Read(rest).value;
      VariableLength.ReadSuffix(rest, 0, VariableLength.MAX_BYTES);
      if DecodeEvent(body, running).Some? {
        var decoded := DecodeEvent(body, running).value;
        var next := Advance(track, scale, delta, decoded.event);
        if next.Some? {
          RunIsDecodeThenPlay(next.value, scale, decoded.rest, decoded.running);
        }
        var steps := Decode(decoded.rest, decoded.running);
        if steps.Some? {
          assert ([Step(delta, decoded.event)] + steps.value)[1..] == steps.value;
        }
      }
    }
  }

  // Notes still sounding end with their own track.
  function EndNotes(notes: seq<Placed>, at: nat): (r: Option<seq<Placed>>)
    ensures r.Some? ==> |r.value| == |notes|
    ensures r.Some? ==> forall i :: 0 <= i < |notes| ==> r.value[i] == Ended(notes[i], at)
    ensures r.None? <==> exists i :: 0 <= i < |notes| && notes[i].open && notes[i].note.start + 1 > U64_MAX
  {
    if notes == [] then Some([])
    else if notes[0].open && notes[0].note.start + 1 > U64_MAX then None
    else
      var rest :- EndNotes(notes[1..], at);
      Some([Ended(notes[0], at)] + rest)
  }

  function Ended(placed: Placed, at: nat): Placed {
    if placed.open then Close(placed, Max(at, placed.note.start + 1)) else placed
  }

  function Finish(track: Track, scale: Scale): Option<Track> {
    var at :- Convert(track.tick, scale.source, scale.target);
    var notes :- EndNotes(track.notes, at);
    Some(track.(notes := notes))
  }

  function ParseTrack(data: bytes, scale: Scale): Option<Track> {
    var track :- Run(START, scale, data, 0);
    Finish(track, scale)
  }

  // The length-prefixed data of the track chunk at the head of the input, and what follows it.
  function Chunk(rest: bytes): (r: Option<(bytes, bytes)>)
    ensures r.Some? ==> |r.value.1| < |rest|
  {
    if |rest| < 8 || rest[..4] != TRACK_TAG then None
    else
      var length := FromBe32(rest[4..8]);
      if 8 + length > |rest| then None else Some((rest[8..8 + length], rest[8 + length..]))
  }

  function ParseTracks(rest: bytes, count: nat, scale: Scale): Option<seq<Track>> {
    if count == 0 then Some([])
    else
      var (data, rest') :- Chunk(rest);
      var track :- ParseTrack(data, scale);
      var tracks :- ParseTracks(rest', count - 1, scale);
      Some([track] + tracks)
  }

  // The tracks put together, in file order.
  datatype Score = Score(notes: seq<Note>, places: seq<LyricMatching.Place>, lyrics: seq<LyricMatching.Lyric>,
                         controls: seq<Control>, last: nat)

  const SILENCE: Score := Score([], [], [], [], 0)

  function NotesOf(placed: seq<Placed>): (r: seq<Note>)
    ensures |r| == |placed| && forall i :: 0 <= i < |r| ==> r[i] == placed[i].note
  {
    seq(|placed|, i requires 0 <= i < |placed| => placed[i].note)
  }

  function PlacesOf(index: nat, placed: seq<Placed>): (r: seq<LyricMatching.Place>)
    ensures |r| == |placed|
    ensures forall i :: 0 <= i < |r| ==> r[i] == LyricMatching.Place(index, placed[i].tick, placed[i].order)
  {
    seq(|placed|, i requires 0 <= i < |placed| => LyricMatching.Place(index, placed[i].tick, placed[i].order))
  }

  function LyricsOf(index: nat, sung: seq<Sung>): (r: seq<LyricMatching.Lyric>)
    ensures |r| == |sung|
    ensures forall i :: 0 <= i < |r| ==> r[i] == LyricMatching.Lyric(index, sung[i].tick, sung[i].order, sung[i].text)
  {
    seq(|sung|, i requires 0 <= i < |sung| => LyricMatching.Lyric(index, sung[i].tick, sung[i].order, sung[i].text))
  }

  function AddTrack(score: Score, index: nat, track: Track): Score {
    Score(score.notes + NotesOf(track.notes),
          score.places + PlacesOf(index, track.notes),
          score.lyrics + LyricsOf(index, track.sung),
          score.controls + track.controls,
          Max(score.last, track.last))
  }

  function Gather(tracks: seq<Track>): Score {
    if tracks == [] then SILENCE
    else AddTrack(Gather(tracks[..|tracks| - 1]), |tracks| - 1, tracks[|tracks| - 1])
  }

  function WithLyrics(notes: seq<Note>, words: LyricMatching.Words): (r: seq<Note>)
    requires |words| == |notes|
    ensures |r| == |notes| && forall i :: 0 <= i < |r| ==> r[i] == notes[i].(lyric := words[i])
  {
    seq(|notes|, i requires 0 <= i < |notes| => notes[i].(lyric := words[i]))
  }

  function Saturate(n: nat): nat {
    if n > U64_MAX then U64_MAX else n
  }

  function LatestNote(notes: seq<Note>): nat {
    if notes == [] then 0
    else Max(LatestNote(notes[..|notes| - 1]), Saturate(notes[|notes| - 1].start + notes[|notes| - 1].duration))
  }

  function LatestControl(controls: seq<Control>): nat {
    if controls == [] then 0
    else Max(LatestControl(controls[..|controls| - 1]), Saturate(controls[|controls| - 1].tick + 1))
  }

  function Duration(score: Score): nat {
    Max(1, Max(score.last, Max(LatestNote(score.notes), LatestControl(score.controls))))
  }

  datatype Parsed = Parsed(duration: nat, notes: seq<Note>, controls: seq<Control>)

  const ByStart: Note -> int := (n: Note) => n.start
  const ByTick: Control -> int := (c: Control) => c.tick

  lemma {:induction false} GatherSizes(tracks: seq<Track>)
    ensures |Gather(tracks).notes| == |Gather(tracks).places|
  {
    if tracks != [] {
      GatherSizes(tracks[..|tracks| - 1]);
    }
  }

  ghost function Sing(score: Score): Parsed
    requires |score.notes| == |score.places|
  {
    var words := LyricMatching.Matched(score.places, LyricMatching.Unassigned(|score.places|), score.lyrics);
    Parsed(Duration(score), Sort(WithLyrics(score.notes, words), ByStart), Sort(score.controls, ByTick))
  }

  datatype Header = Header(length: nat, tracks: nat, ppq: PulsesPerQuarter)

  function ParseHeader(input: bytes): (r: Option<Header>)
    ensures r.Some? ==> 8 + r.value.length <= |input|
  {
    if |input| < 14 || input[..4] != HEADER_TAG then None
    else
      var length := FromBe32(input[4..8]);
      var tracks := FromBe16(input[10..12]);
      var ppq := FromBe16(input[12..14]);
      if length < 6 || 8 + length > |input| || ppq == 0 || ppq >= 0x8000 || tracks == 0 then None
      else Some(Header(length, tracks, ppq))
  }

  /** The meaning of a whole file, at its own resolution when no target is given. */
  ghost function Parse(input: bytes, target: Option<nat>): Option<Parsed> {
    var header :- ParseHeader(input);
    var ppq := target.GetOr(header.ppq);
    if ppq == 0 then None
    else
      var tracks :- ParseTracks(input[8 + header.length..], header.tracks, Scale(header.ppq, ppq));
      GatherSizes(tracks);
      Some(Sing(Gather(tracks)))
  }
}
