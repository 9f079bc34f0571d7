/** How long a parsed score is said to last: for every file, and for what has been exported. */
module SmfDuration {
  import opened Wrappers
  import opened Bytes
  import opened StableSort
  import opened TickConversion
  import opened SmfFormat
  import opened SmfEncoder
  import opened SmfStaging
  import SmfPlayback
  import SmfSinging

  lemma {:induction false} LatestNoteCovers(notes: seq<Note>)
    ensures forall n :: n in notes ==> Saturate(n.start + n.duration) <= LatestNote(notes)
    ensures notes != [] ==> exists n :: n in notes && Saturate(n.start + n.duration) == LatestNote(notes)
  {
    if notes != [] {
      var k := |notes| - 1;
      LatestNoteCovers(notes[..k]);
      assert notes == notes[..k] + [notes[k]];
      assert notes[k] in notes;
    }
  }

  lemma {:induction false} LatestControlCovers(controls: seq<Control>)
    ensures forall c :: c in controls ==> Saturate(c.tick + 1) <= LatestControl(controls)
    ensures controls != [] ==> exists c :: c in controls && Saturate(c.tick + 1) == LatestControl(controls)
  {
    if controls != [] {
      var k := |controls| - 1;
      LatestControlCovers(controls[..k]);
      assert controls == controls[..k] + [controls[k]];
      assert controls[k] in controls;
    }
  }

  // A duration of 64 bits is as good as one beyond it.
  predicate Reaches(limit: nat, tick: nat) {
    tick <= limit || limit >= 0xffff_ffff_ffff_ffff
  }

  ghost predicate NotesWithin(notes: seq<Note>, limit: nat) {
    forall n :: n in notes ==> Reaches(limit, n.start + n.duration)
  }

  ghost predicate ControlsWithin(controls: seq<Control>, limit: nat) {
    forall c :: c in controls ==> Reaches(limit, c.tick + 1)
  }

  lemma {:induction false} DurationCovers(score: Score, limit: nat)
    ensures Duration(score) <= limit <==>
      1 <= limit && score.last <= limit && NotesWithin(score.notes, limit) && ControlsWithin(score.controls, limit)
  {
    LatestNoteCovers(score.notes);
    LatestControlCovers(score.controls);
  }

  // Every event of a track stands at or before the limit, in target ticks.
  ghost predicate TicksWithin(steps: seq<Step>, tick: nat, scale: Scale, limit: nat)
    decreases |steps|
  {
    steps == [] ||
    (Scaled(tick + steps[0].delta, scale.source, scale.target) <= limit
       && TicksWithin(steps[1..], tick + steps[0].delta, scale, limit))
  }

  function EndOf(placed: Placed): nat {
    placed.note.start + placed.note.duration
  }

  ghost predicate EndedWithin(notes: seq<Placed>, limit: nat) {
    forall i :: 0 <= i < |notes| && !notes[i].open && EndOf(notes[i]) <= U64_MAX ==> EndOf(notes[i]) <= limit
  }

  // Notes that have ended stay as they are.
  ghost predicate EndedKept(before: seq<Placed>, after: seq<Placed>) {
    |before| <= |after| && forall i :: 0 <= i < |before| && !before[i].open ==> after[i] == before[i]
  }

  // The last tick is `last`, or the later end of a note that has ended.
  predicate LastAfter(last: nat, next: Track, ended: Option<nat>) {
    match ended
    case None => next.last == last
    case Some(i) =>
      && i < |next.notes| && !next.notes[i].open && EndOf(next.notes[i]) <= U64_MAX
      && next.last == Max(last, EndOf(next.notes[i]))
  }

  lemma {:induction false} ReleaseLast(track: Track, channel: nat, key: nat, at: nat) returns (ended: Option<nat>)
    requires Release(track, channel, key, at).Some? && at <= U64_MAX
    ensures var next := Release(track, channel, key, at).value;
      LastAfter(track.last, next, ended) && EndedKept(track.notes, next.notes)
  {
    OldestIsFirst(track.notes, channel, key);
    ended := Oldest(track.notes, channel, key);
  }

  // The last tick grows with the tick of an event and with the end of the note it ends.
  lemma {:induction false} StepLast(track: Track, scale: Scale, step: Step) returns (ended: Option<nat>)
    requires Advance(track, scale, step.delta, step.event).Some?
    ensures var next := Advance(track, scale, step.delta, step.event).value;
      && next.tick == track.tick + step.delta && EndedKept(track.notes, next.notes)
      && LastAfter(Max(track.last, Scaled(track.tick + step.delta, scale.source, scale.target)), next, ended)
  {
    hide Release, Oldest;
    var at := Scaled(track.tick + step.delta, scale.source, scale.target);
    var moved := track.(tick := track.tick + step.delta, order := track.order + 1, last := Max(track.last, at));
    ended := None;
    if step.event.Channel? {
      var Channel(command, channel, data1, data2) := step.event;
      if command == 0x8 || (command == 0x9 && data2 == 0) {
        ended := ReleaseLast(moved, channel, data1, at);
        ReleaseKeepsTick(moved, channel, data1, at);
      }
    }
  }

  lemma {:induction false} ReleaseKeepsTick(track: Track, channel: nat, key: nat, at: nat)
    requires Release(track, channel, key, at).Some?
    ensures Release(track, channel, key, at).value.tick == track.tick
  {
  }

  lemma {:induction false} EndedStays(track: Track, scale: Scale, steps: seq<Step>, i: nat)
    requires RunSteps(track, scale, steps).Some? && i < |track.notes| && !track.notes[i].open
    ensures i < |RunSteps(track, scale, steps).value.notes|
    ensures RunSteps(track, scale, steps).value.notes[i] == track.notes[i]
    decreases |steps|
  {
    hide Advance;
    if steps != [] {
      var ended := StepLast(track, scale, steps[0]);
      EndedStays(Advance(track, scale, steps[0].delta, steps[0].event).value, scale, steps[1..], i);
    }
  }

  /** Once the notes that ended are within a limit, the last tick of a track is within it exactly when every event
      is. */
  lemma {:induction false} LastWithin(track: Track, scale: Scale, steps: seq<Step>, limit: nat)
    requires RunSteps(track, scale, steps).Some? && EndedWithin(RunSteps(track, scale, steps).value.notes, limit)
    ensures RunSteps(track, scale, steps).value.last <= limit <==>
            track.last <= limit && TicksWithin(steps, track.tick, scale, limit)
    decreases |steps|
  {
    hide Advance;
    if steps != [] {
      var next := Advance(track, scale, steps[0].delta, steps[0].event).value;
      var ended := StepLast(track, scale, steps[0]);
      LastWithin(next, scale, steps[1..], limit);
      if ended.Some? {
        EndedStays(next, scale, steps[1..], ended.value);
      }
    }
  }

  // The tracks of a file, each parsed.
  ghost predicate AreParsed(datas: seq<bytes>, scale: Scale, tracks: seq<Track>) {
    |tracks| == |datas| && forall k :: 0 <= k < |datas| ==> ParseTrack(datas[k], scale) == Some(tracks[k])
  }

  ghost predicate AllTicksWithin(datas: seq<bytes>, scale: Scale, limit: nat) {
    forall k :: 0 <= k < |datas| ==>
      Decode(datas[k], 0).Some? && TicksWithin(Decode(datas[k], 0).value, 0, scale, limit)
  }

  lemma {:induction false} TrackWithin(data: bytes, scale: Scale, limit: nat)
    requires ParseTrack(data, scale).Some? && NotesWithin(NotesOf(ParseTrack(data, scale).value.notes), limit)
    ensures Decode(data, 0).Some?
    ensures ParseTrack(data, scale).value.last <= limit <==> TicksWithin(Decode(data, 0).value, 0, scale, limit)
  {
    hide RunSteps, Run, Decode, TicksWithin;
    RunIsDecodeThenPlay(START, scale, data, 0);
    var steps := Decode(data, 0).value;
    var before, after := RunSteps(START, scale, steps).value, ParseTrack(data, scale).value;
    FinishedWithin(before, after, scale, limit);
    LastWithin(START, scale, steps, limit);
  }

  lemma {:induction false} FinishedWithin(before: Track, after: Track, scale: Scale, limit: nat)
    requires Finish(before, scale) == Some(after) && NotesWithin(NotesOf(after.notes), limit)
    ensures EndedWithin(before.notes, limit) && after.last == before.last
  {
    forall i | 0 <= i < |before.notes| && !before.notes[i].open && EndOf(before.notes[i]) <= U64_MAX
      ensures EndOf(before.notes[i]) <= limit
    {
      assert after.notes[i] == before.notes[i];
      assert NotesOf(after.notes)[i] in NotesOf(after.notes);
    }
  }

  lemma {:induction false} GatheredWithin(tracks: seq<Track>, limit: nat)
    ensures Gather(tracks).last <= limit <==> forall k :: 0 <= k < |tracks| ==> tracks[k].last <= limit
    ensures NotesWithin(Gather(tracks).notes, limit) ==>
            forall k :: 0 <= k < |tracks| ==> NotesWithin(NotesOf(tracks[k].notes), limit)
  {
    if tracks != [] {
      var n := |tracks| - 1;
      GatheredWithin(tracks[..n], limit);
      assert Gather(tracks).notes == Gather(tracks[..n]).notes + NotesOf(tracks[n].notes);
    }
  }

  /** The reported duration of a file is the least that covers one tick, every event of every track at its converted
      tick, every note to its end, and every control and the tick after it. */
  lemma {:induction false} DurationIsLeast(datas: seq<bytes>, scale: Scale, tracks: seq<Track>, limit: nat)
    requires AreParsed(datas, scale, tracks)
    ensures var score := Gather(tracks);
      Duration(score) <= limit <==>
        1 <= limit && AllTicksWithin(datas, scale, limit) && NotesWithin(score.notes, limit)
            && ControlsWithin(score.controls, limit)
  {
    hide Gather, Duration, ParseTrack, Decode, TicksWithin, NotesWithin;
    DurationCovers(Gather(tracks), limit);
    GatheredWithin(tracks, limit);
    if NotesWithin(Gather(tracks).notes, limit) {
      forall k | 0 <= k < |datas|
        ensures Decode(datas[k], 0).Some?
        ensures (tracks[k].last <= limit <==> TicksWithin(Decode(datas[k], 0).value, 0, scale, limit))
      {
        TrackWithin(datas[k], scale, limit);
      }
    }
  }

  function LastTick(items: seq<Item>): nat {
    if items == [] then 0 else Max(LastTick(items[..|items| - 1]), items[|items| - 1].tick)
  }

  lemma {:induction false} LastTickCovers(items: seq<Item>, limit: nat)
    ensures LastTick(items) <= limit <==> forall item :: item in items ==> item.tick <= limit
  {
    if items != [] {
      var n := |items| - 1;
      LastTickCovers(items[..n], limit);
      assert items == items[..n] + [items[n]];
    }
  }

  // The last of one tick, the clock events, the note ends and the ticks after the controls.
  function ExportedDuration(clock: seq<Item>, notes: seq<Note>, controls: seq<Control>): nat {
    Max(1, Max(LastTick(clock), Max(LatestNote(notes), LatestControl(controls))))
  }

  lemma {:induction false} ExportedWithin(clock: seq<Item>, notes: seq<Note>, controls: seq<Control>, limit: nat)
    ensures ExportedDuration(clock, notes, controls) <= limit <==>
      && 1 <= limit && (forall item :: item in clock ==> item.tick <= limit)
      && NotesWithin(notes, limit) && ControlsWithin(controls, limit)
  {
    LastTickCovers(clock, limit);
    LatestNoteCovers(notes);
    LatestControlCovers(controls);
  }

  lemma {:induction false} SortedLast(items: seq<Item>, limit: nat)
    ensures var sorted := Sort(items, ByMoment);
      (sorted == [] || sorted[|sorted| - 1].tick <= limit) <==> forall item :: item in items ==> item.tick <= limit
  {
    hide Sort;
    var sorted := Sort(items, ByMoment);
    SortIsSorted(items, ByMoment);
    SameElements(items, ByMoment);
    if sorted != [] {
      var n := |sorted| - 1;
      assert sorted[n] in sorted;
      forall i | 0 <= i < n ensures sorted[i].tick <= sorted[n].tick {
        assert ByMoment(sorted[i]) <= ByMoment(sorted[n]);
      }
    }
  }

  // The parsed notes and controls of an export last as long as those given.
  lemma {:induction false} SameExtent(clips: seq<Placement>, cues: seq<Cue>, track: Track, limit: nat)
    requires SmfPlayback.Staged(cues) && SmfSinging.Performed(cues, track)
    requires SmfPlayback.Pressed(cues, |cues|) == Sort(AllNotes(clips), ByStart)
    requires SmfPlayback.Changed(cues, |cues|) == Sort(Map(AllControls(clips), ReadingBack), ByTick)
    ensures NotesWithin(NotesOf(track.notes), limit) <==> NotesWithin(AllNotes(clips), limit)
    ensures ControlsWithin(track.controls, limit) <==> ControlsWithin(AllControls(clips), limit)
  {
    hide Sort, SmfPlayback.Staged, SmfPlayback.Pressed, SmfPlayback.Changed, AllNotes, AllControls, SmfSinging.Words,
        Map;
    SmfSinging.NotesReturn(cues, track);
    SameElements(AllNotes(clips), ByStart);
    SameElements(Map(AllControls(clips), ReadingBack), ByTick);
    SameEnds(NotesOf(track.notes), WithLyrics(NotesOf(track.notes), SmfSinging.Words(track)), limit);
    SameTicks(AllControls(clips), limit);
    PerformedControls(cues, track);
  }

  lemma {:induction false} PerformedControls(cues: seq<Cue>, track: Track)
    requires SmfSinging.Performed(cues, track)
    ensures track.controls == SmfPlayback.Changed(cues, |cues|)
  {
  }

  lemma {:induction false} SameEnds(a: seq<Note>, b: seq<Note>, limit: nat)
    requires |a| == |b| && forall i :: 0 <= i < |a| ==> a[i].start == b[i].start && a[i].duration == b[i].duration
    ensures NotesWithin(a, limit) <==> NotesWithin(b, limit)
  {
    assert forall i :: 0 <= i < |a| ==> a[i] in a && b[i] in b;
  }

  lemma {:induction false} SameTicks(controls: seq<Control>, limit: nat)
    ensures ControlsWithin(Map(controls, ReadingBack), limit) <==> ControlsWithin(controls, limit)
  {
    var back := Map(controls, ReadingBack);
    assert forall i :: 0 <= i < |controls| ==>
      controls[i] in controls && back[i] in back && back[i].tick == controls[i].tick;
  }

  // The last cue is no later than the notes and controls.
  lemma {:induction false} LastCueWithin(cues: seq<Cue>, notes: seq<Note>, limit: nat)
    requires AllCued(cues, notes) && AllPlayable(notes) && cues != []
    requires NotesWithin(notes, limit) && ControlsWithin(SmfPlayback.Changed(cues, |cues|), limit)
    ensures cues[|cues| - 1].tick <= limit
  {
    var n := |cues| - 1;
    assert Cued(cues[n], notes);
    match cues[n].message
    case Change(control) =>
      var changed := SmfPlayback.Changed(cues, n + 1);
      assert changed[|changed| - 1] in changed;
    case Press(id, note) =>
      assert notes[id] in notes && Playable(notes[id]);
    case Lift(id, note) =>
      assert notes[id] in notes && Playable(notes[id]);
  }

  lemma {:induction false} ExportLastsWithin(clips: seq<Placement>, clock: seq<Item>, cues: seq<Cue>, track: Track,
                                             score: Score, limit: nat)
    requires SmfPlayback.Staged(cues) && SmfSinging.Performed(cues, track)
    requires SmfPlayback.Pressed(cues, |cues|) == Sort(AllNotes(clips), ByStart)
    requires SmfPlayback.Changed(cues, |cues|) == Sort(Map(AllControls(clips), ReadingBack), ByTick)
    requires AllCued(cues, AllNotes(clips)) && AllPlayable(AllNotes(clips))
    requires score.notes == NotesOf(track.notes) && score.controls == track.controls
    requires var sorted := Sort(clock, ByMoment);
      score.last == Max(if sorted == [] then 0 else sorted[|sorted| - 1].tick, track.last)
    ensures Duration(score) <= limit <==> ExportedDuration(clock, AllNotes(clips), AllControls(clips)) <= limit
  {
    hide Sort, SmfPlayback.Staged, SmfPlayback.Pressed, SmfPlayback.Changed, AllNotes, AllControls, AllCued,
        AllPlayable,
         Duration, ExportedDuration, NotesWithin, ControlsWithin, Map;
    DurationCovers(score, limit);
    ExportedWithin(clock, AllNotes(clips), AllControls(clips), limit);
    SortedLast(clock, limit);
    SameExtent(clips, cues, track, limit);
    if cues != [] && NotesWithin(AllNotes(clips), limit) && ControlsWithin(track.controls, limit) {
      LastCueWithin(cues, AllNotes(clips), limit);
    }
  }

  /** The score of an export lasts exactly as long as its clock, its notes and its controls. */
  lemma {:induction false} ExportLasts(clips: seq<Placement>, clock: seq<Item>, cues: seq<Cue>, track: Track,
                                       score: Score)
    requires SmfPlayback.Staged(cues) && SmfSinging.Performed(cues, track)
    requires SmfPlayback.Pressed(cues, |cues|) == Sort(AllNotes(clips), ByStart)
    requires SmfPlayback.Changed(cues, |cues|) == Sort(Map(AllControls(clips), ReadingBack), ByTick)
    requires AllCued(cues, AllNotes(clips)) && AllPlayable(AllNotes(clips))
    requires score.notes == NotesOf(track.notes) && score.controls == track.controls
    requires var sorted := Sort(clock, ByMoment);
      score.last == Max(if sorted == [] then 0 else sorted[|sorted| - 1].tick, track.last)
    ensures Duration(score) == ExportedDuration(clock, AllNotes(clips), AllControls(clips))
  {
    hide SmfPlayback.Staged, SmfSinging.Performed, AllCued, AllPlayable, Duration, ExportedDuration;
    ExportLastsWithin(clips, clock, cues, track, score, Duration(score));
    ExportLastsWithin(clips, clock, cues, track, score, ExportedDuration(clock, AllNotes(clips), AllControls(clips)));
  }
}
