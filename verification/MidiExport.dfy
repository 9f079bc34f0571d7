/** Exporting one clip, or all clips of one track, with the project's clock: what the file means. */
module MidiExport {
  import opened Wrappers
  import opened Bytes
  import opened StableSort
  import opened SmfFormat
  import opened SmfEncoder
  import opened SmfStaging
  import opened MusicalClock
  import SmfRoundTrip

  datatype MidiClip = MidiClip(id: string, trackId: string, start: u64, duration: u64, notes: seq<Note>,
                               controls: seq<Control>)

  datatype Arrangement = Arrangement(timebase: Timebase, tracks: seq<string>, clips: seq<MidiClip>)

  datatype Selection = Selection(clips: seq<Placement>, origin: nat, end: Option<nat>)

  datatype Exported = Exported(file: bytes, noteCount: nat)

  function Find(clips: seq<MidiClip>, id: string): (r: Option<MidiClip>)
    ensures r.Some? ==> r.value in clips && r.value.id == id
    ensures r.None? ==> forall clip :: clip in clips ==> clip.id != id
  {
    if clips == [] then None else if clips[0].id == id then Some(clips[0]) else Find(clips[1..], id)
  }

  function OnTrack(id: string): MidiClip -> bool {
    (clip: MidiClip) => clip.trackId == id
  }

  const AtItsStart: MidiClip -> Placement := (clip: MidiClip) => Placement(Clip(clip.notes, clip.controls), clip.start)

  /** One clip from its own start to its end, or a whole track from the start of the project. */
  function Select(arrangement: Arrangement, clipId: Option<string>, trackId: Option<string>): Option<Selection> {
    match (clipId, trackId)
    case (Some(id), None) =>
      var clip :- Find(arrangement.clips, id);
      if clip.start + clip.duration > U64_MAX then None
      else Some(Selection([Placement(Clip(clip.notes, clip.controls), 0)], clip.start,
                          Some(clip.start + clip.duration)))
    case (None, Some(id)) =>
      if id !in arrangement.tracks then None
      else Some(Selection(Map(Filter(arrangement.clips, OnTrack(id)), AtItsStart), 0, None))
    case _ => None
  }

  ghost function Export(arrangement: Arrangement, clipId: Option<string>, trackId: Option<string>): Option<Exported> {
    var selection :- Select(arrangement, clipId, trackId);
    var file :- Encode(arrangement.timebase, selection.clips, selection.origin, selection.end);
    Some(Exported(file, CountNotes(selection.clips)))
  }

  function CountNotes(clips: seq<Placement>): nat {
    if clips == [] then 0 else CountNotes(clips[..|clips| - 1]) + |clips[|clips| - 1].clip.notes|
  }

  // A clip that can be found and whose end is a tick, or a track that is registered, and not both.
  ghost predicate Selectable(arrangement: Arrangement, clipId: Option<string>, trackId: Option<string>) {
    && (clipId.Some? <==> trackId.None?)
    && (clipId.Some? ==> exists i :: IsFirst(arrangement.clips, clipId.value, i)
                                     && arrangement.clips[i].start + arrangement.clips[i].duration <= U64_MAX)
    && (trackId.Some? ==> trackId.value in arrangement.tracks)
  }

  // The place of the first clip of this id.
  ghost predicate IsFirst(clips: seq<MidiClip>, id: string, i: int) {
    0 <= i < |clips| && clips[i].id == id && forall k :: 0 <= k < i ==> clips[k].id != id
  }

  ghost predicate EndOverflows(clips: seq<MidiClip>, id: string) {
    exists i :: IsFirst(clips, id, i) && clips[i].start + clips[i].duration > U64_MAX
  }

  lemma {:induction false} FindsFirst(clips: seq<MidiClip>, id: string)
    ensures Find(clips, id).Some? ==> exists i :: IsFirst(clips, id, i) && Find(clips, id).value == clips[i]
    ensures forall i, j :: IsFirst(clips, id, i) && IsFirst(clips, id, j) ==> i == j
  {
    if clips != [] && clips[0].id == id {
      assert IsFirst(clips, id, 0);
    } else if clips != [] {
      FindsFirst(clips[1..], id);
      if Find(clips[1..], id).Some? {
        var i :| IsFirst(clips[1..], id, i) && Find(clips[1..], id).value == clips[1..][i];
        assert IsFirst(clips, id, i + 1);
      }
    }
  }

  lemma {:induction false} SelectsExactly(arrangement: Arrangement, clipId: Option<string>, trackId: Option<string>)
    ensures Select(arrangement, clipId, trackId).Some? <==> Selectable(arrangement, clipId, trackId)
  {
    if clipId.Some? {
      FindsFirst(arrangement.clips, clipId.value);
      if i :| IsFirst(arrangement.clips, clipId.value, i) {
        assert arrangement.clips[i] in arrangement.clips;
      }
    }
  }

  /** An export is what it should be. It is refused for both selectors or neither, an unknown clip or track, and a clip
      whose end overflows, in each case by itself; what remains is the encoder's own refusal. */
  method ExportMidi(arrangement: Arrangement, clipId: Option<string>, trackId: Option<string>)
      returns (r: Option<Exported>)
    ensures r == Export(arrangement, clipId, trackId)
    ensures clipId.Some? == trackId.Some? ==> r.None?
    ensures clipId.Some? && (forall clip :: clip in arrangement.clips ==> clip.id != clipId.value) ==> r.None?
    ensures clipId.Some? && EndOverflows(arrangement.clips, clipId.value) ==> r.None?
    ensures trackId.Some? && trackId.value !in arrangement.tracks ==> r.None?
    ensures r.None? && Selectable(arrangement, clipId, trackId) ==>
      var selection := Select(arrangement, clipId, trackId);
      && selection.Some?
      && Encode(arrangement.timebase, selection.value.clips, selection.value.origin, selection.value.end).None?
  {
    hide Encode;
    SelectsExactly(arrangement, clipId, trackId);
    if clipId.Some? {
      FindsFirst(arrangement.clips, clipId.value);
    }
    var selection := Select(arrangement, clipId, trackId);
    if selection.None? {
      return None;
    }
    var file := EncodeSmf(arrangement.timebase, selection.value.clips, selection.value.origin, selection.value.end);
    if file.None? {
      return None;
    }
    return Some(Exported(file.value, CountNotes(selection.value.clips)));
  }

  lemma {:induction false} CountIsAll(clips: seq<Placement>)
    ensures CountNotes(clips) == |AllNotes(clips)|
  {
    if clips != [] {
      CountIsAll(clips[..|clips| - 1]);
    }
  }

  lemma {:induction false} ClipAlone(clip: Clip)
    ensures AllNotes([Placement(clip, 0)]) == clip.notes && AllControls([Placement(clip, 0)]) == clip.controls
  {
    var clips := [Placement(clip, 0)];
    assert clips[..0] == [];
    assert ClipNotes(clip.notes, 0) == clip.notes && ClipControls(clip.controls, 0) == clip.controls;
    assert AllNotes([]) + clip.notes == clip.notes && AllControls([]) + clip.controls == clip.controls;
  }

  lemma {:induction false} ClipFile(arrangement: Arrangement, id: string, i: nat)
    requires IsFirst(arrangement.clips, id, i)
    ensures var exported, clip := Export(arrangement, Some(id), None), arrangement.clips[i];
      exported.Some? ==>
        && exported.value.noteCount == |clip.notes|
        && Encode(arrangement.timebase, [Placement(Clip(clip.notes, clip.controls), 0)], clip.start,
                  Some(clip.start + clip.duration)) == Some(exported.value.file)
  {
    hide Encode;
    FindsFirst(arrangement.clips, id);
    var clip := arrangement.clips[i];
    var placement := Placement(Clip(clip.notes, clip.controls), 0);
    ClipAlone(placement.clip);
    CountIsAll([placement]);
  }

  /** The file of one clip holds the notes and controls of the clip at their ticks in the clip, and at each of its ticks
      the clock of the project at the same place, up to its end. */
  lemma {:induction false} ClipExportMeans(arrangement: Arrangement, id: string, i: nat)
    requires IsFirst(arrangement.clips, id, i)
    ensures var exported, clip := Export(arrangement, Some(id), None), arrangement.clips[i];
      exported.Some? && Singable(clip.notes) ==>
        var parsed := Parse(exported.value.file, Some(arrangement.timebase.ppq));
        && parsed.Some?
        && parsed.value.notes == Sort(clip.notes, ByStart) && |clip.notes| == exported.value.noteCount
        && parsed.value.controls == Sort(Map(clip.controls, ReadingBack), ByTick)
        && (forall at: nat :: at < clip.duration ==>
              SameClock(arrangement.timebase, clip.start, exported.value.file, at))
        && Encode(arrangement.timebase, [Placement(Clip(clip.notes, clip.controls), 0)], clip.start,
                  Some(clip.start + clip.duration)) == Some(exported.value.file)
  {
    hide Encode, Parse, Sort, SameClock, Export, Singable, Map, AllNotes, AllControls;
    var clip := arrangement.clips[i];
    var placement, end := Placement(Clip(clip.notes, clip.controls), 0), Some(clip.start + clip.duration);
    ClipAlone(placement.clip);
    ClipFile(arrangement, id, i);
    SmfRoundTrip.ExportRoundTrip(arrangement.timebase, [placement], clip.start, end);
    forall at: nat | at < clip.duration
      ensures var file := Encode(arrangement.timebase, [placement], clip.start, end);
        file.Some? ==> SameClock(arrangement.timebase, clip.start, file.value, at)
    {
      ExportKeepsClock(arrangement.timebase, [placement], clip.start, end, at);
    }
  }

  // What a clip holds, at ticks of the project.
  function NotesOfClip(clip: MidiClip): seq<Note> {
    seq(|clip.notes|, i requires 0 <= i < |clip.notes| =>
        clip.notes[i].(start := clip.start + clip.notes[i].start))
  }

  function ControlsOfClip(clip: MidiClip): seq<Control> {
    seq(|clip.controls|, i requires 0 <= i < |clip.controls| =>
        clip.controls[i].(tick := clip.start + clip.controls[i].tick))
  }

  // What the clips of a track hold, in the order of the clips.
  function NotesOnTrack(clips: seq<MidiClip>, id: string): seq<Note> {
    if clips == [] then []
    else
      var before, clip := NotesOnTrack(clips[..|clips| - 1], id), clips[|clips| - 1];
      if clip.trackId == id then before + NotesOfClip(clip) else before
  }

  function ControlsOnTrack(clips: seq<MidiClip>, id: string): seq<Control> {
    if clips == [] then []
    else
      var before, clip := ControlsOnTrack(clips[..|clips| - 1], id), clips[|clips| - 1];
      if clip.trackId == id then before + ControlsOfClip(clip) else before
  }

  lemma {:induction false} OneMorePlaced(clips: seq<MidiClip>, clip: MidiClip, id: string)
    ensures var before, after := Map(Filter(clips, OnTrack(id)), AtItsStart),
        Map(Filter(clips + [clip], OnTrack(id)), AtItsStart);
      after == if clip.trackId == id then before + [AtItsStart(clip)] else before
  {
    FilterConcat(clips, [clip], OnTrack(id));
    FilterCons(clip, [], OnTrack(id));
    MapConcat(Filter(clips, OnTrack(id)), [clip], AtItsStart);
  }

  lemma {:induction false} OneMoreHeld(before: seq<Placement>, next: Placement)
    ensures AllNotes(before + [next]) == AllNotes(before) + ClipNotes(next.clip.notes, next.offset)
    ensures AllControls(before + [next]) == AllControls(before) + ClipControls(next.clip.controls, next.offset)
  {
    assert (before + [next])[..|before|] == before;
  }

  lemma {:induction false} PlacedOnTrack(clips: seq<MidiClip>, id: string)
    ensures var placed := Map(Filter(clips, OnTrack(id)), AtItsStart);
      AllNotes(placed) == NotesOnTrack(clips, id) && AllControls(placed) == ControlsOnTrack(clips, id)
  {
    hide NotesOfClip, ControlsOfClip, ClipNotes, ClipControls, Filter, Map, AllNotes, AllControls;
    if clips == [] {
      NothingPlaced(id);
    } else {
      var n := |clips| - 1;
      var clip := clips[n];
      PlacedOnTrack(clips[..n], id);
      assert clips == clips[..n] + [clip];
      OneMorePlaced(clips[..n], clip, id);
      OneMoreHeld(Map(Filter(clips[..n], OnTrack(id)), AtItsStart), AtItsStart(clip));
      MovedClip(clip);
    }
  }

  lemma {:induction false} NothingPlaced(id: string)
    ensures var placed := Map(Filter([], OnTrack(id)), AtItsStart); AllNotes(placed) == [] && AllControls(placed) == []
  {
  }

  lemma {:induction false} MovedClip(clip: MidiClip)
    ensures ClipNotes(clip.notes, AtItsStart(clip).offset) == NotesOfClip(clip)
    ensures ClipControls(clip.controls, AtItsStart(clip).offset) == ControlsOfClip(clip)
    ensures AtItsStart(clip).clip == Clip(clip.notes, clip.controls)
  {
  }

  /** The file of one track holds the notes and controls of all its clips at their ticks in the project, in the order of
      the clips where ticks are equal, and at every tick the clock of the project. */
  lemma {:induction false} TrackExportMeans(arrangement: Arrangement, id: string)
    ensures var exported, notes := Export(arrangement, None, Some(id)), NotesOnTrack(arrangement.clips, id);
      exported.Some? && Singable(notes) ==>
        var parsed := Parse(exported.value.file, Some(arrangement.timebase.ppq));
        && id in arrangement.tracks && parsed.Some?
        && parsed.value.notes == Sort(notes, ByStart) && |notes| == exported.value.noteCount
        && parsed.value.controls == Sort(Map(ControlsOnTrack(arrangement.clips, id), ReadingBack), ByTick)
        && forall at: nat :: SameClock(arrangement.timebase, 0, exported.value.file, at)
  {
    hide Encode, Parse, Sort, SameClock, Filter;
    var clips := Map(Filter(arrangement.clips, OnTrack(id)), AtItsStart);
    CountIsAll(clips);
    PlacedOnTrack(arrangement.clips, id);
    SmfRoundTrip.ExportRoundTrip(arrangement.timebase, clips, 0, None);
    forall at: nat
      ensures var file := Encode(arrangement.timebase, clips, 0, None);
        file.Some? ==> SameClock(arrangement.timebase, 0, file.value, at)
    {
      ExportKeepsClock(arrangement.timebase, clips, 0, None, at);
    }
  }
}
