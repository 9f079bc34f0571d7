/** What is exported parses back to the notes and controls that were given. */
module SmfRoundTrip {
  import opened Wrappers
  import opened Bytes
  import opened StableSort
  import opened SmfFormat
  import opened SmfEncoder
  import opened SmfPlayback
  import opened SmfSinging
  import opened SmfStaging
  import opened SmfClockTrack
  import LyricMatching
  import SmfChunks
  import SmfDuration
  import MusicalClock

  ghost predicate Silent(track: Track) {
    track.notes == [] && track.controls == [] && track.sung == []
  }

  lemma {:induction false} PlayMeta(track: Track, scale: Scale, item: Item)
    requires Silent(track) && track.last == track.tick && scale.source == scale.target
    requires IsMeta(item.data) && track.tick <= item.tick <= U64_MAX
    ensures var step := ClockStep(item, track.tick);
      var next := Advance(track, scale, step.delta, step.event);
      next.Some? && Silent(next.value) && next.value.tick == item.tick == next.value.last
  {
    AdvanceTo(track, scale, item.tick, ClockStep(item, track.tick).event);
  }

  lemma {:induction false} PlayClock(items: seq<Item>, track: Track, scale: Scale)
    requires Silent(track) && track.last == track.tick && scale.source == scale.target
    requires Clocking(items, track.tick) && track.tick <= U64_MAX
    ensures var end := RunSteps(track, scale, ClockSteps(items, track.tick));
      && end.Some? && Silent(end.value) && end.value.tick <= U64_MAX
      && end.value.last == end.value.tick == if items == [] then track.tick else items[|items| - 1].tick
    decreases |items|
  {
    hide Advance;
    if items == [] {
      RunEnd(track, scale);
    } else {
      PlayMeta(track, scale, items[0]);
      var step := ClockStep(items[0], track.tick);
      var next := Advance(track, scale, step.delta, step.event).value;
      PlayClock(items[1..], next, scale);
      assert ClockSteps(items, track.tick)[1..] == ClockSteps(items[1..], items[0].tick);
    }
  }

  // The clock track parses, holds no note, control or lyric, and ends with its last event.
  lemma {:induction false} ParseClock(items: seq<Item>, scale: Scale) returns (track: Track)
    requires Clocking(items, 0) && Deltas(items, 0).Some? && scale.source == scale.target
    ensures ParseTrack(Deltas(items, 0).value, scale) == Some(track) && Silent(track)
    ensures track.last == if items == [] then 0 else items[|items| - 1].tick
  {
    hide RunSteps, Decode, Run, Deltas, ClockSteps;
    DecodeClock(items, 0, 0);
    RunIsDecodeThenPlay(START, scale, Deltas(items, 0).value, 0);
    PlayClock(items, START, scale);
    track := RunSteps(START, scale, ClockSteps(items, 0)).value;
    FinishClosed(track, scale);
  }

  lemma {:induction false} GatherTwo(first: Track, second: Track)
    requires Silent(first)
    ensures var score := Gather([first, second]);
      && score.notes == NotesOf(second.notes) && score.places == PlacesOf(1, second.notes)
      && score.lyrics == LyricsOf(1, second.sung) && score.controls == second.controls
      && score.last == Max(first.last, second.last)
  {
    assert [first, second][..1] == [first] && [first][..0] == [];
    assert Gather([first]) == AddTrack(SILENCE, 0, first);
    assert Gather([first, second]) == AddTrack(Gather([first]), 1, second);
  }

  lemma {:induction false} SingTwo(first: Track, second: Track, cues: seq<Cue>)
    requires Silent(first) && Staged(cues) && Performed(cues, second)
    ensures var score := Gather([first, second]);
      && |score.notes| == |score.places| && Sing(score).duration == Duration(score)
      && Sing(score).notes == Sort(Pressed(cues, |cues|), ByStart)
      && Sing(score).controls == Sort(Changed(cues, |cues|), ByTick)
  {
    hide Gather, Sort, Staged, LyricMatching.Matched;
    GatherTwo(first, second);
    NotesReturn(cues, second);
  }

  lemma {:induction false} ParseTwo(file: bytes, ppq: nat, clock: bytes, performance: bytes, first: Track,
                                    second: Track)
    requires 0 < ppq && ParseHeader(file) == Some(SmfFormat.Header(6, 2, ppq)) && |file| >= 14
    requires Chunk(file[14..]).Some? && Chunk(file[14..]).value.0 == clock
    requires Chunk(Chunk(file[14..]).value.1) == Some((performance, []))
    requires ParseTrack(clock, Scale(ppq, ppq)) == Some(first)
    requires ParseTrack(performance, Scale(ppq, ppq)) == Some(second)
    ensures |Gather([first, second]).notes| == |Gather([first, second]).places|
    ensures Parse(file, Some(ppq)) == Some(Sing(Gather([first, second])))
  {
    hide ParseHeader, Chunk, ParseTrack, Sing, Gather;
    var scale, rest := Scale(ppq, ppq), Chunk(file[14..]).value.1;
    assert ParseTracks([], 0, scale) == Some([]);
    assert ParseTracks(rest, 1, scale) == Some([second] + []);
    assert [first] + ([second] + []) == [first, second];
    assert ParseTracks(file[14..], 2, scale) == Some([first, second]);
    GatherSizes([first, second]);
  }

  lemma {:induction false} SayingKeepsMoments(cues: seq<Cue>)
    ensures Sort(Map(cues, Saying), ByMoment) == Map(Sort(cues, CueMoment), Saying)
  {
    MapSort(cues, CueMoment, Saying, ByMoment);
  }

  lemma {:induction false} SortTwice<T(!new)>(s: seq<T>, key: T -> int)
    ensures Sort(Sort(s, key), key) == Sort(s, key)
  {
    SortIsSorted(s, key);
    SortOfSorted(Sort(s, key), key);
  }

  /** Whenever an export succeeds, parsing the file at the resolution of the project succeeds and gives back exactly
      the notes (key, exported start, duration, velocity, channel and lyric) and the controls, each in the stable
      order of their ticks; channel pressure comes back with its second byte 0. The reported duration is that of the
      export: one tick, the last clock event, the last note end, or the tick after the last control, whichever is
      latest. */
  lemma {:induction false} ExportRoundTrip(timebase: Timebase, clips: seq<Placement>, origin: nat, end: Option<nat>)
    ensures Encode(timebase, clips, origin, end).Some? && Singable(AllNotes(clips)) ==>
      var parsed := Parse(Encode(timebase, clips, origin, end).value, Some(timebase.ppq));
      && parsed.Some?
      && parsed.value.notes == Sort(AllNotes(clips), ByStart)
      && parsed.value.controls == Sort(Map(AllControls(clips), ReadingBack), ByTick)
      && parsed.value.duration ==
         SmfDuration.ExportedDuration(ClockItems(timebase, origin, end).value, AllNotes(clips), AllControls(clips))
  {
    hide Deltas, Decode, Sort, Cues, Parse, ParseTrack, ParseHeader, Chunk, ClockItems, Staged, Pressed, Changed,
        Gather, Sing, AllCued;
    if Encode(timebase, clips, origin, end).Some? && Singable(AllNotes(clips)) {
      var file := Encode(timebase, clips, origin, end).value;
      var ppq, items := timebase.ppq, ClockItems(timebase, origin, end).value;
      var sorted, cues := Sort(items, ByMoment), Sort(Cues(clips), CueMoment);
      SayingKeepsMoments(Cues(clips));
      var clock, performance := Deltas(sorted, 0).value, Deltas(Map(cues, Saying), 0).value;
      var input := SmfChunks.FileBack(ppq, clock, performance);
      assert file == input;
      MusicalClock.ClockIsMeta(timebase, origin, end);
      var first := ParseClock(sorted, Scale(ppq, ppq));
      ExportIsStaged(clips);
      var second := ParsePerformance(cues, performance, Scale(ppq, ppq));
      ParseTwo(file, ppq, clock, performance, first, second);
      SingTwo(first, second, cues);
      CuesComplete(clips);
      PressedInOrder(clips);
      ChangedInOrder(clips);
      SortTwice(AllNotes(clips), ByStart);
      SortTwice(Map(AllControls(clips), ReadingBack), ByTick);
      CuesOnce(clips);
      SortKeepsCues(Cues(clips), AllNotes(clips));
      GatherTwo(first, second);
      SmfDuration.ExportLasts(clips, items, cues, second, Gather([first, second]));
    }
  }
}
