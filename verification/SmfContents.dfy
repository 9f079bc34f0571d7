/** What a track holds, told from its events alone: which notes, controls and lyrics, at which ticks, and when it is
    accepted at all. */
module SmfContents {
  import opened Wrappers
  import opened Bytes
  import opened SmfFormat
  import opened TickConversion

  // A note as its note-on tells it.
  datatype Head = Head(tick: nat, order: nat, key: nat, channel: nat, velocity: nat, start: nat)

  function HeadOf(placed: Placed): Head {
    Head(placed.tick, placed.order, placed.note.key, placed.note.channel, placed.note.velocity, placed.note.start)
  }

  function HeadsOf(notes: seq<Placed>): (r: seq<Head>)
    ensures |r| == |notes| && forall i :: 0 <= i < |r| ==> r[i] == HeadOf(notes[i])
  {
    seq(|notes|, i requires 0 <= i < |notes| => HeadOf(notes[i]))
  }

  predicate IsNoteOn(event: Event) {
    event.Channel? && event.command == 0x9 && event.data2 > 0
  }

  // What one event holds, at a source tick and with its number in the track.
  function NoteAt(event: Event, now: nat, order: nat, at: nat): seq<Head> {
    if IsNoteOn(event) then [Head(now, order, event.data1, event.channel, event.data2, at)] else []
  }

  function ControlAt(event: Event, at: nat): seq<Control> {
    if !event.Channel? then []
    else if event.command == 0xb then [Control(ControlChange, at, event.channel, event.data1, event.data2)]
    else if event.command == 0xd then [Control(ChannelPressure, at, event.channel, event.data1, event.data2)]
    else if event.command == 0xe then [Control(PitchBend, at, event.channel, event.data1, event.data2)]
    else []
  }

  function LyricAt(event: Event, now: nat, order: nat): seq<Sung> {
    if event.Meta? && event.kind == 0x05 && IsUtf8(event.data) then [Sung(now, order, event.data)] else []
  }

  // The events of a track come `delta` source ticks after one another and are numbered from one.
  function NotesIn(steps: seq<Step>, tick: nat, order: nat, scale: Scale): seq<Head> {
    if steps == [] then []
    else
      var now := tick + steps[0].delta;
      NoteAt(steps[0].event, now, order + 1, Scaled(now, scale.source, scale.target))
      + NotesIn(steps[1..], now, order + 1, scale)
  }

  function ControlsIn(steps: seq<Step>, tick: nat, scale: Scale): seq<Control> {
    if steps == [] then []
    else
      var now := tick + steps[0].delta;
      ControlAt(steps[0].event, Scaled(now, scale.source, scale.target)) + ControlsIn(steps[1..], now, scale)
  }

  function LyricsIn(steps: seq<Step>, tick: nat, order: nat): seq<Sung> {
    if steps == [] then []
    else
      var now := tick + steps[0].delta;
      LyricAt(steps[0].event, now, order + 1) + LyricsIn(steps[1..], now, order + 1)
  }

  function LengthOf(steps: seq<Step>): nat {
    if steps == [] then 0 else steps[0].delta + LengthOf(steps[1..])
  }

  // The tick stays in the 64-bit range, before and after conversion, and a note begun there can end.
  predicate StepFits(step: Step, now: nat, scale: Scale) {
    && now <= U64_MAX && Scaled(now, scale.source, scale.target) <= U64_MAX
    && (IsNoteOn(step.event) ==> Scaled(now, scale.source, scale.target) < U64_MAX)
  }

  predicate Fits(steps: seq<Step>, tick: nat, scale: Scale) {
    steps != [] ==>
      StepFits(steps[0], tick + steps[0].delta, scale) && Fits(steps[1..], tick + steps[0].delta, scale)
  }

  ghost predicate CanEnd(placed: Placed) {
    placed.note.start < U64_MAX
  }

  ghost predicate AllCanEnd(notes: seq<Placed>) {
    forall i :: 0 <= i < |notes| ==> CanEnd(notes[i])
  }

  // Those that have ended could.
  ghost predicate EndedCould(notes: seq<Placed>) {
    forall i :: 0 <= i < |notes| && !notes[i].open ==> CanEnd(notes[i])
  }

  lemma {:induction false} ReleaseAdds(track: Track, channel: nat, key: nat, at: nat)
    ensures AllCanEnd(track.notes) ==> Release(track, channel, key, at).Some?
    ensures Release(track, channel, key, at).Some? ==>
      var next := Release(track, channel, key, at).value;
      && HeadsOf(next.notes) == HeadsOf(track.notes) && (EndedCould(track.notes) ==> EndedCould(next.notes))
      && next.(notes := track.notes, last := track.last) == track
  {
  }

  // What is held after one more event.
  ghost predicate Adds(before: Track, after: Track, scale: Scale, step: Step) {
    var now := before.tick + step.delta;
    var at := Scaled(now, scale.source, scale.target);
    && HeadsOf(after.notes) == HeadsOf(before.notes) + NoteAt(step.event, now, before.order + 1, at)
    && after.controls == before.controls + ControlAt(step.event, at)
    && after.sung == before.sung + LyricAt(step.event, now, before.order + 1)
    && after.tick == now && after.order == before.order + 1
    && (EndedCould(before.notes) ==> EndedCould(after.notes))
  }

  lemma {:induction false} StepAdds(track: Track, scale: Scale, step: Step)
    ensures AllCanEnd(track.notes) && StepFits(step, track.tick + step.delta, scale) ==>
      Advance(track, scale, step.delta, step.event).Some?
    ensures Advance(track, scale, step.delta, step.event).Some? ==>
      && Adds(track, Advance(track, scale, step.delta, step.event).value, scale, step)
      && track.tick + step.delta <= U64_MAX && Scaled(track.tick + step.delta, scale.source, scale.target) <= U64_MAX
  {
    hide Release, Scaled;
    var at := Scaled(track.tick + step.delta, scale.source, scale.target);
    var moved := track.(tick := track.tick + step.delta, order := track.order + 1, last := Max(track.last, at));
    if step.event.Channel? {
      ReleaseAdds(moved, step.event.channel, step.event.data1, at);
    }
  }

  // What is held after all the events, from any state on.
  ghost predicate Holds(before: Track, after: Track, scale: Scale, steps: seq<Step>) {
    && HeadsOf(after.notes) == HeadsOf(before.notes) + NotesIn(steps, before.tick, before.order, scale)
    && after.controls == before.controls + ControlsIn(steps, before.tick, scale)
    && after.sung == before.sung + LyricsIn(steps, before.tick, before.order)
    && after.tick == before.tick + LengthOf(steps)
    && (EndedCould(before.notes) ==> EndedCould(after.notes))
  }

  lemma {:induction false} HoldsMore(before: Track, next: Track, after: Track, scale: Scale, steps: seq<Step>)
    requires steps != [] && Adds(before, next, scale, steps[0]) && Holds(next, after, scale, steps[1..])
    ensures Holds(before, after, scale, steps)
  {
    hide NoteAt, ControlAt, LyricAt, Scaled, HeadsOf;
    var now, order, event, rest := next.tick, next.order, steps[0].event, steps[1..];
    var at := Scaled(now, scale.source, scale.target);
    Joined(HeadsOf(before.notes), NoteAt(event, now, order, at), NotesIn(rest, now, order, scale));
    Joined(before.controls, ControlAt(event, at), ControlsIn(rest, now, scale));
    Joined(before.sung, LyricAt(event, now, order), LyricsIn(rest, now, order));
  }

  lemma {:induction false} Joined<T>(a: seq<T>, b: seq<T>, c: seq<T>)
    ensures a + b + c == a + (b + c)
  {
  }

  lemma {:induction false} StepsHold(track: Track, scale: Scale, steps: seq<Step>)
    requires RunSteps(track, scale, steps).Some?
    ensures Holds(track, RunSteps(track, scale, steps).value, scale, steps)
    decreases |steps|
  {
    hide Advance, Adds, Holds;
    if steps == [] {
      NothingHeld(track, scale);
    } else {
      StepAdds(track, scale, steps[0]);
      var next := Advance(track, scale, steps[0].delta, steps[0].event).value;
      StepsHold(next, scale, steps[1..]);
      HoldsMore(track, next, RunSteps(track, scale, steps).value, scale, steps);
    }
  }

  lemma {:induction false} NothingHeld(track: Track, scale: Scale)
    ensures Holds(track, track, scale, [])
  {
  }

  lemma {:induction false} FinishKeeps(track: Track, scale: Scale)
    requires EndedCould(track.notes) && Finish(track, scale).Some?
    ensures var after := Finish(track, scale).value;
      && HeadsOf(after.notes) == HeadsOf(track.notes) && after.controls == track.controls && after.sung == track.sung
      && after.tick == track.tick && AllCanEnd(track.notes)
  {
    hide Scaled;
  }

  lemma {:induction false} FinishWorks(track: Track, scale: Scale)
    requires AllCanEnd(track.notes) && Scaled(track.tick, scale.source, scale.target) <= U64_MAX
    ensures Finish(track, scale).Some?
  {
    hide Scaled;
  }

  /** An accepted track holds exactly one note for every note-on, one control for every control change, channel pressure
      and pitch bend, and one lyric for every lyric that is text, in their order, at their ticks. */
  lemma {:induction false} TrackHolds(data: bytes, scale: Scale)
    requires ParseTrack(data, scale).Some?
    ensures Decode(data, 0).Some?
    ensures var track, steps := ParseTrack(data, scale).value, Decode(data, 0).value;
      && HeadsOf(track.notes) == NotesIn(steps, 0, 0, scale) && track.controls == ControlsIn(steps, 0, scale)
      && track.sung == LyricsIn(steps, 0, 0) && track.tick == LengthOf(steps)
  {
    hide RunSteps, Run, Decode, Scaled, Finish;
    RunIsDecodeThenPlay(START, scale, data, 0);
    var steps := Decode(data, 0).value;
    var run := Run(START, scale, data, 0).value;
    StepsHold(START, scale, steps);
    FinishKeeps(run, scale);
  }

  lemma {:induction false} HeadsCanEnd(notes: seq<Placed>, heads: seq<Head>)
    requires HeadsOf(notes) == heads
    ensures AllCanEnd(notes) <==> forall head :: head in heads ==> head.start < U64_MAX
  {
    assert forall i :: 0 <= i < |notes| ==> heads[i] in heads && heads[i].start == notes[i].note.start;
  }

  // Ticks alone.
  predicate TicksFit(steps: seq<Step>, tick: nat, scale: Scale) {
    steps != [] ==>
      var now := tick + steps[0].delta;
      now <= U64_MAX && Scaled(now, scale.source, scale.target) <= U64_MAX && TicksFit(steps[1..], now, scale)
  }

  lemma {:induction false} FitsInTwo(steps: seq<Step>, tick: nat, order: nat, scale: Scale)
    ensures Fits(steps, tick, scale) <==>
      && TicksFit(steps, tick, scale)
      && forall head :: head in NotesIn(steps, tick, order, scale) ==> head.start < U64_MAX
  {
    hide Scaled;
    if steps != [] {
      var now := tick + steps[0].delta;
      FitsInTwo(steps[1..], now, order + 1, scale);
      var first := NoteAt(steps[0].event, now, order + 1, Scaled(now, scale.source, scale.target));
      var rest, all := NotesIn(steps[1..], now, order + 1, scale), NotesIn(steps, tick, order, scale);
      assert all == first + rest;
      assert forall head :: head in all <==> head in first || head in rest;
    }
  }

  lemma {:induction false} RunningTicksFit(track: Track, scale: Scale, steps: seq<Step>)
    requires RunSteps(track, scale, steps).Some?
    ensures TicksFit(steps, track.tick, scale)
    decreases |steps|
  {
    hide Advance, Scaled;
    if steps != [] {
      StepAdds(track, scale, steps[0]);
      RunningTicksFit(Advance(track, scale, steps[0].delta, steps[0].event).value, scale, steps[1..]);
    }
  }

  lemma {:induction false} FittingRuns(track: Track, scale: Scale, steps: seq<Step>)
    requires AllCanEnd(track.notes) && Fits(steps, track.tick, scale)
    ensures RunSteps(track, scale, steps).Some? && AllCanEnd(RunSteps(track, scale, steps).value.notes)
    decreases |steps|
  {
    hide Advance, Scaled, AllCanEnd;
    if steps != [] {
      StepAdds(track, scale, steps[0]);
      var next := Advance(track, scale, steps[0].delta, steps[0].event).value;
      StepCanEnd(track, next, scale, steps[0]);
      FittingRuns(next, scale, steps[1..]);
    }
  }

  lemma {:induction false} StepCanEnd(before: Track, after: Track, scale: Scale, step: Step)
    requires AllCanEnd(before.notes) && StepFits(step, before.tick + step.delta, scale)
    requires Adds(before, after, scale, step)
    ensures AllCanEnd(after.notes)
  {
    hide Scaled;
    var heads := HeadsOf(after.notes);
    HeadsCanEnd(before.notes, HeadsOf(before.notes));
    HeadsCanEnd(after.notes, heads);
  }

  lemma {:induction false} LastTickFits(steps: seq<Step>, tick: nat, scale: Scale)
    requires TicksFit(steps, tick, scale) && Scaled(tick, scale.source, scale.target) <= U64_MAX
    ensures Scaled(tick + LengthOf(steps), scale.source, scale.target) <= U64_MAX
  {
    hide Scaled;
    if steps != [] {
      LastTickFits(steps[1..], tick + steps[0].delta, scale);
    }
  }

  lemma {:induction false} NoTick(scale: Scale)
    ensures Scaled(0, scale.source, scale.target) == 0
  {
    HalfTick(0, scale.source, scale.target);
    NearestIsScaled(0, scale.source, scale.target, 0);
  }

  /** A track is accepted if and only if its bytes spell events, no tick leaves the 64-bit range before or after
      conversion, and no note begins at the very last tick. */
  lemma {:induction false} TrackAcceptedExactlyWhen(data: bytes, scale: Scale)
    ensures ParseTrack(data, scale).Some? <==>
      && Decode(data, 0).Some?
      && var steps := Decode(data, 0).value;
         && TicksFit(steps, 0, scale)
         && forall head :: head in NotesIn(steps, 0, 0, scale) ==> head.start < U64_MAX
  {
    hide RunSteps, Run, Decode, Scaled, Finish, TicksFit, NotesIn, AllCanEnd;
    RunIsDecodeThenPlay(START, scale, data, 0);
    if Decode(data, 0).Some? {
      var steps := Decode(data, 0).value;
      FitsInTwo(steps, 0, 0, scale);
      if ParseTrack(data, scale).Some? {
        RunningTicksFit(START, scale, steps);
        TrackHolds(data, scale);
        StepsHold(START, scale, steps);
        FinishKeeps(Run(START, scale, data, 0).value, scale);
        HeadsCanEnd(Run(START, scale, data, 0).value.notes, NotesIn(steps, 0, 0, scale));
      }
      if Fits(steps, 0, scale) {
        NoNotes();
        FittingRuns(START, scale, steps);
        StepsHold(START, scale, steps);
        NoTick(scale);
        LastTickFits(steps, 0, scale);
        FinishWorks(RunSteps(START, scale, steps).value, scale);
      }
    }
  }

  lemma {:induction false} NoNotes()
    ensures AllCanEnd(START.notes)
  {
  }
}
