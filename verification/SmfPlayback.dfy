/** Playing the cues of an export, in track order, gives back its notes, lyrics and controls. */
module SmfPlayback {
  import opened Wrappers
  import opened Bytes
  import opened StableSort
  import opened SmfFormat
  import opened SmfEncoder
  import opened SmfDecoding
  import NoteOverlap
  import TickConversion

  const CueMoment: Cue -> int := (cue: Cue) => 2 * cue.tick + cue.order

  predicate WellPlaced(cue: Cue) {
    && Sayable(cue.message)
    && match cue.message
       case Press(id, note) => cue == PressCue(id, note) && (note.lyric.Some? ==> IsUtf8(note.lyric.value))
       case Lift(id, note) => cue == LiftCue(id, note)
       case Change(control) => cue == ChangeCue(control)
  }

  // Two cues of one export: one press and one lift a note, and different notes of one key apart.
  predicate Compatible(a: Cue, b: Cue) {
    a.message.Change? || b.message.Change? ||
    if a.message.id == b.message.id then a.message.note == b.message.note && a.message.Press? != b.message.Press?
    else NoteOverlap.Apart(RangeOf(a.message.note), RangeOf(b.message.note))
  }

  // A performance in track order.
  ghost predicate Staged(cues: seq<Cue>) {
    && SortedBy(cues, CueMoment)
    && (forall i :: 0 <= i < |cues| ==> WellPlaced(cues[i]))
    && Pairwise(cues, Compatible)
    && (forall i :: 0 <= i < |cues| && cues[i].message.Press? ==>
          LiftCue(cues[i].message.id, cues[i].message.note) in cues)
    && (forall i :: 0 <= i < |cues| && cues[i].message.Lift? ==>
          PressCue(cues[i].message.id, cues[i].message.note) in cues)
  }

  // The notes pressed, and the controls, among the first n cues.
  function Pressed(cues: seq<Cue>, n: nat): seq<Note>
    requires n <= |cues|
  {
    if n == 0 then [] else Pressed(cues, n - 1) + if cues[n - 1].message.Press? then [cues[n - 1].message.note] else []
  }

  function Changed(cues: seq<Cue>, n: nat): seq<Control>
    requires n <= |cues|
  {
    if n == 0 then []
    else Changed(cues, n - 1) + if cues[n - 1].message.Change? then [ReadBack(cues[n - 1].message.control)] else []
  }

  function EventCount(message: Message): nat {
    if message.Press? && message.note.lyric.Some? then 2 else 1
  }

  function Order(cues: seq<Cue>, n: nat): nat
    requires n <= |cues|
  {
    if n == 0 then 0 else Order(cues, n - 1) + EventCount(cues[n - 1].message)
  }

  function SungIn(cues: seq<Cue>, n: nat): seq<Sung>
    requires n <= |cues|
  {
    if n == 0 then []
    else
      var cue := cues[n - 1];
      SungIn(cues, n - 1) +
      if EventCount(cue.message) == 2 then [Sung(cue.tick, Order(cues, n - 1) + 1, cue.message.note.lyric.value)]
      else []
  }

  // The note each of those lyrics belongs to.
  function Targets(cues: seq<Cue>, n: nat): seq<nat>
    requires n <= |cues|
  {
    if n == 0 then []
    else Targets(cues, n - 1) + if EventCount(cues[n - 1].message) == 2 then [|Pressed(cues, n - 1)|] else []
  }

  ghost predicate Lifted(cues: seq<Cue>, n: nat, id: nat)
    requires n <= |cues|
  {
    exists j :: 0 <= j < n && cues[j].message.Lift? && cues[j].message.id == id
  }

  // What the parser holds, after n cues, of the note pressed by cue i.
  ghost function PlacedBy(cues: seq<Cue>, i: nat, n: nat): Placed
    requires i < n <= |cues| && cues[i].message.Press?
  {
    var Press(id, note) := cues[i].message;
    var done := Lifted(cues, n, id);
    Placed(note.start, Order(cues, i + 1), note.(lyric := None, duration := if done then note.duration else 1), !done)
  }

  ghost predicate Played(cues: seq<Cue>, n: nat, track: Track)
    requires n <= |cues|
  {
    && track.tick == (if n == 0 then 0 else cues[n - 1].tick) && track.last == track.tick
    && track.order == Order(cues, n)
    && track.controls == Changed(cues, n)
    && track.sung == SungIn(cues, n)
    && AllPlaced(cues, n, track.notes)
  }

  lemma {:induction false} PressedRises(cues: seq<Cue>, i: nat, n: nat)
    requires i < n <= |cues|
    ensures |Pressed(cues, i)| <= |Pressed(cues, n)|
    ensures cues[i].message.Press? ==> |Pressed(cues, i)| < |Pressed(cues, n)|
    ensures cues[i].message.Press? ==> Pressed(cues, n)[|Pressed(cues, i)|] == cues[i].message.note
  {
    if i < n - 1 {
      PressedRises(cues, i, n - 1);
    }
  }

  lemma {:induction false} PressedBy(cues: seq<Cue>, n: nat, m: nat) returns (i: nat)
    requires n <= |cues| && m < |Pressed(cues, n)|
    ensures i < n && cues[i].message.Press? && |Pressed(cues, i)| == m
  {
    if m < |Pressed(cues, n - 1)| {
      i := PressedBy(cues, n - 1, m);
    } else {
      i := n - 1;
    }
  }

  lemma {:induction false} SamePress(cues: seq<Cue>, i: nat, j: nat)
    requires Staged(cues) && i < |cues| && j < |cues|
    requires cues[i].message.Press? && cues[j].message.Press?
    ensures cues[i].message.id == cues[j].message.id ==> i == j
    ensures cues[i].message.id != cues[j].message.id ==>
      NoteOverlap.Apart(RangeOf(cues[i].message.note), RangeOf(cues[j].message.note))
  {
    hide Staged;
    TwoCues(cues, i, j);
  }

  // Two places of a staged performance: in order, and compatible.
  lemma {:induction false} TwoCues(cues: seq<Cue>, i: nat, j: nat)
    requires Staged(cues) && i < |cues| && j < |cues|
    ensures WellPlaced(cues[i]) && WellPlaced(cues[j])
    ensures i <= j ==> CueMoment(cues[i]) <= CueMoment(cues[j])
    ensures j <= i ==> CueMoment(cues[j]) <= CueMoment(cues[i])
    ensures i < j ==> Compatible(cues[i], cues[j])
    ensures j < i ==> Compatible(cues[j], cues[i])
  {
  }

  // A note is lifted after it is pressed, and once.
  lemma {:induction false} LiftAfterPress(cues: seq<Cue>, i: nat, j: nat)
    requires Staged(cues) && i < |cues| && j < |cues|
    requires cues[i].message.Press? && cues[j].message.Lift? && cues[i].message.id == cues[j].message.id
    ensures i < j && cues[i].message.note == cues[j].message.note
  {
    hide Staged;
    TwoCues(cues, i, j);
  }

  lemma {:induction false} LiftedOnce(cues: seq<Cue>, n: nat)
    requires Staged(cues) && n < |cues| && cues[n].message.Lift?
    ensures !Lifted(cues, n, cues[n].message.id)
  {
    hide Staged;
    forall j | 0 <= j < n ensures !(cues[j].message.Lift? && cues[j].message.id == cues[n].message.id) {
      TwoCues(cues, j, n);
    }
  }

  lemma {:induction false} LiftOf(cues: seq<Cue>, i: nat) returns (j: nat)
    requires Staged(cues) && i < |cues| && cues[i].message.Press?
    ensures j < |cues| && cues[j] == LiftCue(cues[i].message.id, cues[i].message.note)
  {
    j :| 0 <= j < |cues| && cues[j] == LiftCue(cues[i].message.id, cues[i].message.note);
  }

  lemma {:induction false} PressOf(cues: seq<Cue>, j: nat) returns (i: nat)
    requires Staged(cues) && j < |cues| && cues[j].message.Lift?
    ensures i < |cues| && cues[i] == PressCue(cues[j].message.id, cues[j].message.note)
  {
    i :| 0 <= i < |cues| && cues[i] == PressCue(cues[j].message.id, cues[j].message.note);
  }

  // When cue n lifts a note, any note of its key still held is that note.
  lemma {:induction false} HeldAtLift(cues: seq<Cue>, n: nat, i: nat)
    requires Staged(cues) && n < |cues| && cues[n].message.Lift?
    requires i < n && cues[i].message.Press? && !Lifted(cues, n, cues[i].message.id)
    requires cues[i].message.note.channel == cues[n].message.note.channel
    requires cues[i].message.note.key == cues[n].message.note.key
    ensures cues[i].message.id == cues[n].message.id
  {
    hide Staged;
    var q := PressOf(cues, n);
    var j := LiftOf(cues, i);
    SamePress(cues, i, q);
    TwoCues(cues, n, j);
    TwoCues(cues, i, n);
  }

  /** The search for the oldest sounding note finds the note being lifted. */
  lemma {:induction false} LiftFindsItsNote(cues: seq<Cue>, n: nat, track: Track) returns (q: nat)
    requires Staged(cues) && n < |cues| && cues[n].message.Lift? && Played(cues, n, track)
    ensures q < n && cues[q].message == Press(cues[n].message.id, cues[n].message.note)
    ensures Oldest(track.notes, cues[n].message.note.channel, cues[n].message.note.key) == Some(|Pressed(cues, q)|)
  {
    var Lift(id, note) := cues[n].message;
    q := PressOf(cues, n);
    LiftAfterPress(cues, q, n);
    LiftedOnce(cues, n);
    var m := |Pressed(cues, q)|;
    assert track.notes[m] == PlacedBy(cues, q, n);
    assert Sounds(track.notes[m], note.channel, note.key);
    OldestIsFirst(track.notes, note.channel, note.key);
    var first := Oldest(track.notes, note.channel, note.key).value;
    var i := PressedBy(cues, n, first);
    assert track.notes[first] == PlacedBy(cues, i, n);
    HeldAtLift(cues, n, i);
    SamePress(cues, i, q);
  }

  lemma {:induction false} LiftedNext(cues: seq<Cue>, n: nat, id: nat)
    requires n < |cues|
    ensures Lifted(cues, n + 1, id) <==> Lifted(cues, n, id) || (cues[n].message.Lift? && cues[n].message.id == id)
  {
  }

  lemma {:induction false} AdvanceTo(track: Track, scale: Scale, tick: nat, event: Event)
    requires scale.source == scale.target && track.tick <= tick <= U64_MAX
    ensures Advance(track, scale, tick - track.tick, event) ==
            Play(track.(tick := tick, order := track.order + 1, last := Max(track.last, tick)), tick, event)
  {
    TickConversion.Identity(tick, scale.source);
  }

  lemma {:induction false} RunBoth(track: Track, scale: Scale, first: seq<Step>, second: seq<Step>)
    ensures RunSteps(track, scale, first + second) ==
      match RunSteps(track, scale, first)
      case None => None
      case Some(next) => RunSteps(next, scale, second)
    decreases |first|
  {
    if first == [] {
      assert first + second == second;
    } else {
      assert (first + second)[1..] == first[1..] + second;
      var next := Advance(track, scale, first[0].delta, first[0].event);
      if next.Some? {
        RunBoth(next.value, scale, first[1..], second);
      }
    }
  }

  lemma {:induction false} RunOne(track: Track, scale: Scale, step: Step)
    ensures RunSteps(track, scale, [step]) == Advance(track, scale, step.delta, step.event)
  {
    var next := Advance(track, scale, step.delta, step.event);
    if next.Some? {
      assert [step][1..] == [];
      assert RunSteps(next.value, scale, []) == next;
    }
  }

  lemma {:induction false} RunTwo(track: Track, scale: Scale, a: Step, b: Step)
    requires Advance(track, scale, a.delta, a.event).Some?
    ensures RunSteps(track, scale, [a, b]) ==
            Advance(Advance(track, scale, a.delta, a.event).value, scale, b.delta, b.event)
  {
    assert [a, b] == [a] + [b];
    RunBoth(track, scale, [a], [b]);
    RunOne(track, scale, a);
    RunOne(Advance(track, scale, a.delta, a.event).value, scale, b);
  }

  lemma {:induction false} PlacedNext(cues: seq<Cue>, i: nat, n: nat)
    requires i < n < |cues| && cues[i].message.Press?
    requires cues[n].message.Lift? ==> cues[n].message.id != cues[i].message.id
    ensures PlacedBy(cues, i, n + 1) == PlacedBy(cues, i, n)
  {
    LiftedNext(cues, n, cues[i].message.id);
  }

  function Stepped(track: Track, tick: nat, count: nat): Track {
    track.(tick := tick, order := track.order + count, last := Max(track.last, tick))
  }

  function Changing(track: Track, control: Control): Track {
    Stepped(track, control.tick, 1).(controls := track.controls + [ReadBack(control)])
  }

  lemma {:induction false} ControlChanges(control: Control, track: Track, scale: Scale)
    requires Settable(control) && scale.source == scale.target && track.tick <= control.tick
    ensures Advance(track, scale, control.tick - track.tick,
                    Channel(CommandOf(control.kind), control.channel, control.data1, ReadBack(control).data2)) ==
            Some(Changing(track, control))
  {
    hide Advance;
    AdvanceTo(track, scale, control.tick,
              Channel(CommandOf(control.kind), control.channel, control.data1, ReadBack(control).data2));
  }

  lemma {:induction false} RunChange(control: Control, track: Track, scale: Scale)
    requires Settable(control) && scale.source == scale.target && track.tick <= control.tick
    ensures RunSteps(track, scale, StepsOf(Change(control), control.tick - track.tick)) ==
            Some(Changing(track, control))
  {
    hide RunSteps, Advance, Changing;
    var steps := StepsOf(Change(control), control.tick - track.tick);
    ControlChanges(control, track, scale);
    assert steps == [steps[0]];
    RunOne(track, scale, steps[0]);
  }

  function Lifting(track: Track, note: Note, m: nat): Track
    requires m < |track.notes|
  {
    EndNote(Stepped(track, note.start + note.duration, 1), m, note.start + note.duration)
  }

  lemma {:induction false} NoteEnds(note: Note, track: Track, scale: Scale, m: nat)
    requires Playable(note) && scale.source == scale.target && track.tick <= note.start + note.duration
    requires Oldest(track.notes, note.channel, note.key) == Some(m) && track.notes[m].note.start == note.start
    ensures Advance(track, scale, note.start + note.duration - track.tick, Channel(0x8, note.channel, note.key, 0)) ==
            Some(Lifting(track, note, m))
  {
    hide Advance, Oldest;
    AdvanceTo(track, scale, note.start + note.duration, Channel(0x8, note.channel, note.key, 0));
  }

  lemma {:induction false} RunLift(id: nat, note: Note, track: Track, scale: Scale, m: nat)
    requires Playable(note) && scale.source == scale.target && track.tick <= note.start + note.duration
    requires Oldest(track.notes, note.channel, note.key) == Some(m) && track.notes[m].note.start == note.start
    ensures RunSteps(track, scale, StepsOf(Lift(id, note), note.start + note.duration - track.tick)) ==
            Some(Lifting(track, note, m))
  {
    hide RunSteps, Advance, Lifting, Oldest;
    var steps := StepsOf(Lift(id, note), note.start + note.duration - track.tick);
    NoteEnds(note, track, scale, m);
    assert steps == [steps[0]];
    RunOne(track, scale, steps[0]);
  }

  function Fresh(note: Note, order: nat): Placed {
    Placed(note.start, order, note.(duration := 1, lyric := None), true)
  }

  function Pressing(track: Track, note: Note): Track {
    Stepped(track, note.start, 1).(notes := track.notes + [Fresh(note, track.order + 1)])
  }

  lemma {:induction false} NoteStarts(note: Note, track: Track, scale: Scale)
    requires Playable(note) && scale.source == scale.target && track.tick <= note.start
    ensures Advance(track, scale, note.start - track.tick, NoteOn(note)) ==
            Some(Pressing(track, note))
  {
    hide Advance;
    AdvanceTo(track, scale, note.start, NoteOn(note));
  }

  lemma {:induction false} RunPress(id: nat, note: Note, track: Track, scale: Scale)
    requires Playable(note) && scale.source == scale.target && track.tick <= note.start && note.lyric.None?
    ensures RunSteps(track, scale, StepsOf(Press(id, note), note.start - track.tick)) ==
            Some(Pressing(track, note))
  {
    hide RunSteps, Advance, Pressing;
    var steps := StepsOf(Press(id, note), note.start - track.tick);
    NoteStarts(note, track, scale);
    assert steps == [steps[0]];
    RunOne(track, scale, steps[0]);
    assert steps[0] == Step(note.start - track.tick, NoteOn(note));
  }

  function Singing(track: Track, note: Note): Track
    requires note.lyric.Some?
  {
    Stepped(track, note.start, 1).(sung := track.sung + [Sung(note.start, track.order + 1, note.lyric.value)])
  }

  lemma {:induction false} LyricSings(note: Note, track: Track, scale: Scale)
    requires Playable(note) && scale.source == scale.target && track.tick <= note.start
    requires note.lyric.Some? && IsUtf8(note.lyric.value)
    ensures Advance(track, scale, note.start - track.tick, Meta(LYRIC, note.lyric.value)) == Some(Singing(track, note))
  {
    hide Advance, IsUtf8;
    AdvanceTo(track, scale, note.start, Meta(LYRIC, note.lyric.value));
  }

  lemma {:induction false} RunSungPress(id: nat, note: Note, track: Track, scale: Scale)
    requires Playable(note) && scale.source == scale.target && track.tick <= note.start
    requires note.lyric.Some? && IsUtf8(note.lyric.value)
    ensures RunSteps(track, scale, StepsOf(Press(id, note), note.start - track.tick)) ==
            Some(Pressing(Singing(track, note), note))
  {
    hide RunSteps, Advance, IsUtf8, Pressing;
    var steps := StepsOf(Press(id, note), note.start - track.tick);
    LyricSings(note, track, scale);
    NoteStarts(note, Singing(track, note), scale);
    assert steps == [steps[0], steps[1]];
    RunTwo(track, scale, steps[0], steps[1]);
  }

  ghost predicate AllPlaced(cues: seq<Cue>, n: nat, notes: seq<Placed>)
    requires n <= |cues|
  {
    && |notes| == |Pressed(cues, n)|
    && forall i :: 0 <= i < n && cues[i].message.Press? ==>
         |Pressed(cues, i)| < |notes| && notes[|Pressed(cues, i)|] == PlacedBy(cues, i, n)
  }

  lemma {:induction false} PlacedAfterChange(cues: seq<Cue>, n: nat, notes: seq<Placed>)
    requires n < |cues| && AllPlaced(cues, n, notes) && cues[n].message.Change?
    ensures AllPlaced(cues, n + 1, notes)
  {
    forall i | 0 <= i < n && cues[i].message.Press? ensures notes[|Pressed(cues, i)|] == PlacedBy(cues, i, n + 1) {
      PlacedNext(cues, i, n);
    }
  }

  lemma {:induction false} NotYetLifted(cues: seq<Cue>, n: nat)
    requires Staged(cues) && n < |cues| && cues[n].message.Press?
    ensures !Lifted(cues, n + 1, cues[n].message.id)
  {
    if j :| 0 <= j < n + 1 && cues[j].message.Lift? && cues[j].message.id == cues[n].message.id {
      LiftAfterPress(cues, n, j);
    }
  }

  lemma {:induction false} PlacedAfterPress(cues: seq<Cue>, n: nat, notes: seq<Placed>)
    requires Staged(cues) && n < |cues| && AllPlaced(cues, n, notes) && cues[n].message.Press?
    ensures AllPlaced(cues, n + 1, notes + [Fresh(cues[n].message.note, Order(cues, n + 1))])
  {
    hide Staged, Lifted;
    NotYetLifted(cues, n);
    var after := notes + [Fresh(cues[n].message.note, Order(cues, n + 1))];
    forall i | 0 <= i < n && cues[i].message.Press? ensures after[|Pressed(cues, i)|] == PlacedBy(cues, i, n + 1) {
      assert notes[|Pressed(cues, i)|] == PlacedBy(cues, i, n);
      PlacedNext(cues, i, n);
    }
  }

  lemma {:induction false} ClosedByLift(cues: seq<Cue>, n: nat, placed: Placed, q: nat)
    requires Staged(cues) && n < |cues| && cues[n].message.Lift?
    requires q < n && cues[q].message == Press(cues[n].message.id, cues[n].message.note)
    requires placed == PlacedBy(cues, q, n)
    ensures Close(placed, cues[n].tick) == PlacedBy(cues, q, n + 1)
  {
    assert WellPlaced(cues[n]);
    LiftedNext(cues, n, cues[n].message.id);
    LiftedOnce(cues, n);
  }

  lemma {:induction false} OtherPlace(cues: seq<Cue>, i: nat, j: nat)
    requires i < |cues| && j < |cues| && i != j && cues[i].message.Press? && cues[j].message.Press?
    ensures |Pressed(cues, i)| != |Pressed(cues, j)|
  {
    if i < j {
      PressedRises(cues, i, j);
    } else {
      PressedRises(cues, j, i);
    }
  }

  lemma {:induction false} PlacedAfterLift(cues: seq<Cue>, n: nat, notes: seq<Placed>, q: nat)
    requires Staged(cues) && n < |cues| && AllPlaced(cues, n, notes) && cues[n].message.Lift?
    requires q < n && cues[q].message == Press(cues[n].message.id, cues[n].message.note)
    requires |Pressed(cues, q)| < |notes|
    ensures AllPlaced(cues, n + 1, notes[|Pressed(cues, q)| := Close(notes[|Pressed(cues, q)|], cues[n].tick)])
  {
    hide PlacedBy, Staged;
    var m := |Pressed(cues, q)|;
    var after := notes[m := Close(notes[m], cues[n].tick)];
    ClosedByLift(cues, n, notes[m], q);
    assert Pressed(cues, n + 1) == Pressed(cues, n) + [];
    forall i | 0 <= i < n && cues[i].message.Press? && i != q
      ensures after[|Pressed(cues, i)|] == PlacedBy(cues, i, n + 1)
    {
      assert notes[|Pressed(cues, i)|] == PlacedBy(cues, i, n);
      LeavesOther(cues, n, i, q);
    }
  }

  lemma {:induction false} LeavesOther(cues: seq<Cue>, n: nat, i: nat, q: nat)
    requires Staged(cues) && n < |cues| && cues[n].message.Lift? && i < n && i != q && cues[i].message.Press?
    requires q < n && cues[q].message == Press(cues[n].message.id, cues[n].message.note)
    ensures PlacedBy(cues, i, n + 1) == PlacedBy(cues, i, n) && |Pressed(cues, i)| != |Pressed(cues, q)|
  {
    SamePress(cues, i, q);
    PlacedNext(cues, i, n);
    OtherPlace(cues, i, q);
  }

  lemma {:induction false} HasPlaced(cues: seq<Cue>, n: nat, notes: seq<Placed>, i: nat)
    requires n <= |cues| && AllPlaced(cues, n, notes) && i < n && cues[i].message.Press?
    ensures |Pressed(cues, i)| < |notes| && notes[|Pressed(cues, i)|] == PlacedBy(cues, i, n)
  {
  }

  lemma {:induction false} PlayChange(cues: seq<Cue>, n: nat, track: Track, scale: Scale) returns (next: Track)
    requires Staged(cues) && n < |cues| && Played(cues, n, track) && scale.source == scale.target
    requires track.tick <= cues[n].tick && cues[n].message.Change? && WellPlaced(cues[n])
    ensures RunSteps(track, scale, StepsOf(cues[n].message, cues[n].tick - track.tick)) == Some(next)
    ensures Played(cues, n + 1, next)
  {
    hide RunSteps, StepsOf, IsUtf8, AllPlaced;
    var control := cues[n].message.control;
    RunChange(control, track, scale);
    PlacedAfterChange(cues, n, track.notes);
    next := Changing(track, control);
  }

  lemma {:induction false} PlayLift(cues: seq<Cue>, n: nat, track: Track, scale: Scale) returns (next: Track)
    requires Staged(cues) && n < |cues| && Played(cues, n, track) && scale.source == scale.target
    requires track.tick <= cues[n].tick && cues[n].message.Lift? && WellPlaced(cues[n])
    ensures RunSteps(track, scale, StepsOf(cues[n].message, cues[n].tick - track.tick)) == Some(next)
    ensures Played(cues, n + 1, next)
  {
    hide RunSteps, StepsOf, IsUtf8, AllPlaced, Oldest, Staged;
    var Lift(id, note) := cues[n].message;
    var q := LiftFindsItsNote(cues, n, track);
    HasPlaced(cues, n, track.notes, q);
    RunLift(id, note, track, scale, |Pressed(cues, q)|);
    PlacedAfterLift(cues, n, track.notes, q);
    next := Lifting(track, note, |Pressed(cues, q)|);
  }

  lemma {:induction false} PlayPress(cues: seq<Cue>, n: nat, track: Track, scale: Scale) returns (next: Track)
    requires Staged(cues) && n < |cues| && Played(cues, n, track) && scale.source == scale.target
    requires track.tick <= cues[n].tick && cues[n].message.Press? && WellPlaced(cues[n])
    ensures RunSteps(track, scale, StepsOf(cues[n].message, cues[n].tick - track.tick)) == Some(next)
    ensures Played(cues, n + 1, next)
  {
    hide RunSteps, StepsOf, IsUtf8, AllPlaced, Staged;
    var Press(id, note) := cues[n].message;
    PlacedAfterPress(cues, n, track.notes);
    if note.lyric.None? {
      RunPress(id, note, track, scale);
      next := Pressing(track, note);
    } else {
      RunSungPress(id, note, track, scale);
      next := Pressing(Singing(track, note), note);
    }
  }

  lemma {:induction false} PlayOne(cues: seq<Cue>, n: nat, track: Track, scale: Scale) returns (next: Track)
    requires Staged(cues) && n < |cues| && Played(cues, n, track) && scale.source == scale.target
    requires track.tick <= cues[n].tick && Sayable(cues[n].message)
    ensures RunSteps(track, scale, StepsOf(cues[n].message, cues[n].tick - track.tick)) == Some(next)
    ensures Played(cues, n + 1, next)
  {
    hide RunSteps, StepsOf, Played;
    match cues[n].message
    case Change(_) => next := PlayChange(cues, n, track, scale);
    case Lift(_, _) => next := PlayLift(cues, n, track, scale);
    case Press(_, _) => next := PlayPress(cues, n, track, scale);
  }

  lemma {:induction false} RunEnd(track: Track, scale: Scale)
    requires scale.source == scale.target && track.tick <= U64_MAX
    ensures RunSteps(track, scale, [END_OF_TRACK]) == Some(Stepped(track, track.tick, 1))
  {
    hide RunSteps;
    AdvanceTo(track, scale, track.tick, END_OF_TRACK.event);
    RunOne(track, scale, END_OF_TRACK);
  }

  lemma {:induction false} AscendingCues(cues: seq<Cue>)
    requires Staged(cues)
    ensures Ascending(cues, 0)
  {
    forall i, j | 0 <= i < j < |cues| ensures cues[i].tick <= cues[j].tick {
      assert CueMoment(cues[i]) <= CueMoment(cues[j]);
    }
    forall i | 0 <= i < |cues| ensures Sayable(cues[i].message) {
      assert WellPlaced(cues[i]);
    }
  }

  /** Running the rest of a performance carries what the parser holds on to the last cue. */
  lemma {:induction false} PlayRest(cues: seq<Cue>, n: nat, rest: seq<Cue>, track: Track, scale: Scale)
        returns (final: Track)
    requires Staged(cues) && n <= |cues| && rest == cues[n..] && Played(cues, n, track) && scale.source == scale.target
    requires Ascending(rest, track.tick) && track.tick <= U64_MAX
    ensures RunSteps(track, scale, AllSteps(rest, track.tick)) == Some(Stepped(final, final.tick, 1))
    ensures Played(cues, |cues|, final) && final.tick <= U64_MAX
    decreases |rest|
  {
    hide RunSteps, StepsOf, Staged, Played, Stepped, Order, Pressed, Changed, SungIn;
    if rest == [] {
      final := track;
      RunEnd(track, scale);
    } else {
      var head := rest[0];
      var first := StepsOf(head.message, head.tick - track.tick);
      var next := PlayOne(cues, n, track, scale);
      MovedTo(cues, n + 1, next);
      CueTick(cues, n);
      final := PlayRest(cues, n + 1, rest[1..], next, scale);
      StepsHead(rest, track.tick);
      RunBoth(track, scale, first, AllSteps(rest[1..], next.tick));
    }
  }

  lemma {:induction false} CueTick(cues: seq<Cue>, n: nat)
    requires Staged(cues) && n < |cues|
    ensures cues[n].tick <= U64_MAX
  {
    assert WellPlaced(cues[n]);
  }

  lemma {:induction false} MovedTo(cues: seq<Cue>, n: nat, track: Track)
    requires 0 < n <= |cues| && Played(cues, n, track)
    ensures track.tick == cues[n - 1].tick
  {
  }
}
