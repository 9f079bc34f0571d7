/** An export in track order: each note pressed and lifted once, and the notes and controls in the order of their
    ticks. */
module SmfStaging {
  import opened Wrappers
  import opened Bytes
  import opened StableSort
  import opened SmfFormat
  import opened SmfEncoder
  import opened SmfDecoding
  import opened SmfPlayback
  import NoteOverlap

  ghost predicate Singable(notes: seq<Note>) {
    forall i :: 0 <= i < |notes| && notes[i].lyric.Some? ==> IsUtf8(notes[i].lyric.value)
  }

  // What a cue of an export of these notes may be.
  predicate Cued(cue: Cue, notes: seq<Note>) {
    match cue.message
    case Press(id, note) => id < |notes| && note == notes[id] && cue == PressCue(id, note)
    case Lift(id, note) => id < |notes| && note == notes[id] && cue == LiftCue(id, note)
    case Change(control) => Settable(control) && cue == ChangeCue(control)
  }

  ghost predicate AllCued(cues: seq<Cue>, notes: seq<Note>) {
    forall i :: 0 <= i < |cues| ==> Cued(cues[i], notes)
  }

  // Each note pressed once and lifted once.
  predicate Once(a: Cue, b: Cue) {
    a.message.Change? || b.message.Change? || a.message.id != b.message.id || a.message.Press? != b.message.Press?
  }

  ghost predicate Numbered(cues: seq<Cue>, from: nat, to: nat) {
    forall i :: 0 <= i < |cues| && !cues[i].message.Change? ==> from <= cues[i].message.id < to
  }

  ghost predicate Complete(cues: seq<Cue>, notes: seq<Note>, from: nat) {
    forall id :: from <= id < |notes| ==> PressCue(id, notes[id]) in cues && LiftCue(id, notes[id]) in cues
  }

  lemma {:induction false} NoteCuesComplete(before: seq<Note>, notes: seq<Note>)
    ensures var cues := NoteCues(notes, |before|);
      AllCued(cues, before + notes) && Complete(cues, before + notes, |before|)
  {
    if notes != [] {
      var n := |notes| - 1;
      NoteCuesComplete(before, notes[..n]);
      var cues, rest := NoteCues(notes, |before|), NoteCues(notes[..n], |before|);
      assert before + notes == (before + notes[..n]) + [notes[n]];
      forall i | 0 <= i < |cues| ensures Cued(cues[i], before + notes) {
        assert i < |rest| ==> Cued(rest[i], before + notes[..n]);
      }
      assert cues[|rest|] == PressCue(|before| + n, notes[n]) && cues[|rest| + 1] == LiftCue(|before| + n, notes[n]);
    }
  }

  lemma {:induction false} OnceBoth(a: seq<Cue>, b: seq<Cue>, from: nat, mid: nat, to: nat)
    requires Pairwise(a, Once) && Numbered(a, from, mid) && Pairwise(b, Once) && Numbered(b, mid, to)
    requires from <= mid <= to
    ensures Pairwise(a + b, Once) && Numbered(a + b, from, to)
  {
    var all := a + b;
    forall i, j | 0 <= i < j < |all| ensures Once(all[i], all[j]) {
      if j < |a| {
        assert Once(a[i], a[j]);
      } else if |a| <= i {
        assert Once(b[i - |a|], b[j - |a|]);
      }
    }
  }

  lemma {:induction false} NoteCuesOnce(notes: seq<Note>, first: nat)
    ensures Pairwise(NoteCues(notes, first), Once) && Numbered(NoteCues(notes, first), first, first + |notes|)
  {
    if notes != [] {
      var n := |notes| - 1;
      NoteCuesOnce(notes[..n], first);
      OnceBoth(NoteCues(notes[..n], first), [PressCue(first + n, notes[n]), LiftCue(first + n, notes[n])], first,
               first + n, first + n + 1);
    }
  }

  lemma {:induction false} ControlCuesOnce(controls: seq<Control>, n: nat)
    ensures Pairwise(ControlCues(controls), Once) && Numbered(ControlCues(controls), n, n)
  {
  }

  lemma {:induction false} MoreCued(cues: seq<Cue>, notes: seq<Note>, more: seq<Note>)
    requires AllCued(cues, notes)
    ensures AllCued(cues, notes + more)
  {
    forall i | 0 <= i < |cues| ensures Cued(cues[i], notes + more) {
      assert Cued(cues[i], notes);
    }
  }

  lemma {:induction false} CuesOnce(clips: seq<Placement>)
    ensures Pairwise(Cues(clips), Once) && Numbered(Cues(clips), 0, |AllNotes(clips)|)
  {
    if clips != [] {
      var n := |clips| - 1;
      var notes, controls := ClipNotes(clips[n].clip.notes, clips[n].offset),
          ClipControls(clips[n].clip.controls, clips[n].offset);
      var first := |AllNotes(clips[..n])|;
      CuesOnce(clips[..n]);
      NoteCuesOnce(notes, first);
      ControlCuesOnce(controls, first + |notes|);
      OnceBoth(Cues(clips[..n]), NoteCues(notes, first), 0, first, first + |notes|);
      OnceBoth(Cues(clips[..n]) + NoteCues(notes, first), ControlCues(controls), 0, first + |notes|, first + |notes|);
    }
  }

  lemma {:induction false} CuesComplete(clips: seq<Placement>)
    requires AllSettable(AllControls(clips))
    ensures AllCued(Cues(clips), AllNotes(clips)) && Complete(Cues(clips), AllNotes(clips), 0)
  {
    if clips != [] {
      var n := |clips| - 1;
      var notes, controls := ClipNotes(clips[n].clip.notes, clips[n].offset),
          ClipControls(clips[n].clip.controls, clips[n].offset);
      var before := AllNotes(clips[..n]);
      BothSettable(AllControls(clips[..n]), controls);
      CuesComplete(clips[..n]);
      NoteCuesComplete(before, notes);
      MoreCued(Cues(clips[..n]), before, notes);
      assert AllCued(ControlCues(controls), AllNotes(clips));
      assert forall id :: 0 <= id < |before| ==> AllNotes(clips)[id] == before[id];
    }
  }

  lemma {:induction false} CuedPair(a: Cue, b: Cue, notes: seq<Note>)
    requires Cued(a, notes) && Cued(b, notes) && Once(a, b) && Pairwise(Ranges(notes), NoteOverlap.Apart)
    ensures Compatible(a, b)
  {
    if !a.message.Change? && !b.message.Change? {
      var ranges, i, j := Ranges(notes), a.message.id, b.message.id;
      if i < j {
        assert NoteOverlap.Apart(ranges[i], ranges[j]);
      } else if j < i {
        assert NoteOverlap.Apart(ranges[j], ranges[i]);
      }
    }
  }

  lemma {:induction false} CuedWell(cue: Cue, notes: seq<Note>)
    requires Cued(cue, notes) && AllPlayable(notes) && Singable(notes)
    ensures WellPlaced(cue)
  {
  }

  lemma {:induction false} CuedIsStaged(cues: seq<Cue>, notes: seq<Note>)
    requires SortedBy(cues, CueMoment) && AllCued(cues, notes) && Complete(cues, notes, 0) && Pairwise(cues, Once)
    requires AllPlayable(notes) && Singable(notes) && Pairwise(Ranges(notes), NoteOverlap.Apart)
    ensures Staged(cues)
  {
    hide Cued, WellPlaced, Compatible, Once, Complete;
    forall i | 0 <= i < |cues| ensures WellPlaced(cues[i]) {
      CuedWell(cues[i], notes);
    }
    forall i, j | 0 <= i < j < |cues| ensures Compatible(cues[i], cues[j]) {
      CuedPair(cues[i], cues[j], notes);
    }
    forall i | 0 <= i < |cues| && !cues[i].message.Change?
      ensures PressCue(cues[i].message.id, cues[i].message.note) in cues
      ensures LiftCue(cues[i].message.id, cues[i].message.note) in cues
    {
      BothCues(cues, cues[i], notes);
    }
  }

  lemma {:induction false} SortKeepsCues(cues: seq<Cue>, notes: seq<Note>)
    requires AllCued(cues, notes) && Complete(cues, notes, 0) && Pairwise(cues, Once)
    ensures var sorted := Sort(cues, CueMoment);
      AllCued(sorted, notes) && Complete(sorted, notes, 0) && Pairwise(sorted, Once)
  {
    hide Sort, Cued, Once;
    var sorted := Sort(cues, CueMoment);
    SameElements(cues, CueMoment);
    forall i | 0 <= i < |sorted| ensures Cued(sorted[i], notes) {
      assert sorted[i] in sorted;
    }
    OncePermuted(cues, sorted);
  }

  /** Sorting an accepted export stages it: notes of one key never overlap, so each lift meets its own press. */
  lemma {:induction false} ExportIsStaged(clips: seq<Placement>)
    requires AllPlayable(AllNotes(clips)) && AllSettable(AllControls(clips)) && Singable(AllNotes(clips))
    requires Pairwise(Ranges(AllNotes(clips)), NoteOverlap.Apart)
    ensures Staged(Sort(Cues(clips), CueMoment))
  {
    hide Sort, AllCued, Complete, Once, Staged;
    CuesOnce(clips);
    CuesComplete(clips);
    SortIsSorted(Cues(clips), CueMoment);
    SortKeepsCues(Cues(clips), AllNotes(clips));
    CuedIsStaged(Sort(Cues(clips), CueMoment), AllNotes(clips));
  }

  lemma {:induction false} BothCues(cues: seq<Cue>, cue: Cue, notes: seq<Note>)
    requires Cued(cue, notes) && Complete(cues, notes, 0) && !cue.message.Change?
    ensures PressCue(cue.message.id, cue.message.note) in cues && LiftCue(cue.message.id, cue.message.note) in cues
  {
  }

  lemma {:induction false} OncePermuted(s: seq<Cue>, t: seq<Cue>)
    requires multiset(s) == multiset(t) && Pairwise(s, Once)
    ensures Pairwise(t, Once)
  {
    PairwisePermuted(s, t, Once);
  }

  const IsPressCue: Cue -> bool := (cue: Cue) => cue.message.Press?
  const IsChangeCue: Cue -> bool := (cue: Cue) => cue.message.Change?
  const SILENT: Note := Note(0, 0, 0, 0, 0, None)
  const NO_CONTROL: Control := Control(ControlChange, 0, 0, 0, 0)
  const NoteOfCue: Cue -> Note := (cue: Cue) => if cue.message.Press? then cue.message.note else SILENT
  const ControlOfCue: Cue -> Control := (cue: Cue) => if cue.message.Change? then ReadBack(cue.message.control)
                                                      else NO_CONTROL
  const ReadingBack: Control -> Control := (control: Control) => ReadBack(control)

  lemma {:induction false} PressedIsFiltered(cues: seq<Cue>, n: nat)
    requires n <= |cues|
    ensures Pressed(cues, n) == Map(Filter(cues[..n], IsPressCue), NoteOfCue)
    ensures Changed(cues, n) == Map(Filter(cues[..n], IsChangeCue), ControlOfCue)
  {
    if n != 0 {
      PressedIsFiltered(cues, n - 1);
      assert cues[..n] == cues[..n - 1] + [cues[n - 1]];
      FilterConcat(cues[..n - 1], [cues[n - 1]], IsPressCue);
      FilterConcat(cues[..n - 1], [cues[n - 1]], IsChangeCue);
    }
  }

  lemma {:induction false} FilterPair(a: Cue, b: Cue, p: Cue -> bool)
    ensures Filter([a, b], p) == (if p(a) then [a] else []) + (if p(b) then [b] else [])
  {
    assert [a, b] == [a] + [b] && [b] == [b] + [];
    FilterCons(a, [b], p);
    FilterCons(b, [], p);
  }

  lemma {:induction false} OneNoteMore(rest: seq<Cue>, press: Cue, lift: Cue)
    requires press.message.Press? && lift.message.Lift?
    ensures Filter(rest + [press, lift], IsPressCue) == Filter(rest, IsPressCue) + [press]
    ensures Filter(rest + [press, lift], IsChangeCue) == Filter(rest, IsChangeCue)
  {
    hide Filter;
    FilterConcat(rest, [press, lift], IsPressCue);
    FilterConcat(rest, [press, lift], IsChangeCue);
    FilterPair(press, lift, IsPressCue);
    FilterPair(press, lift, IsChangeCue);
  }

  lemma {:induction false} NoNotes(first: nat)
    ensures NoteCues([], first) == [] && Filter([], IsPressCue) == [] && Filter([], IsChangeCue) == []
    ensures Map([], NoteOfCue) == []
  {
  }

  lemma {:induction false} NoteCuesHold(notes: seq<Note>, first: nat)
    ensures Map(Filter(NoteCues(notes, first), IsPressCue), NoteOfCue) == notes
  {
    hide Map, Filter, NoteCues;
    if notes == [] {
      NoNotes(first);
    } else {
      var n := |notes| - 1;
      var rest, press, lift := notes[..n], PressCue(first + n, notes[n]), LiftCue(first + n, notes[n]);
      NoteCuesHold(rest, first);
      NoteCuesNext(rest, notes[n], first);
      assert rest + [notes[n]] == notes;
      OneNoteMore(NoteCues(rest, first), press, lift);
      MapConcat(Filter(NoteCues(rest, first), IsPressCue), [press], NoteOfCue);
      assert Map([press], NoteOfCue) == [notes[n]];
    }
  }

  lemma {:induction false} NoteCuesChangeNothing(notes: seq<Note>, first: nat)
    ensures Filter(NoteCues(notes, first), IsChangeCue) == []
  {
    hide Filter, NoteCues;
    if notes == [] {
      NoNotes(first);
    } else {
      var n := |notes| - 1;
      NoteCuesChangeNothing(notes[..n], first);
      NoteCuesNext(notes[..n], notes[n], first);
      assert notes[..n] + [notes[n]] == notes;
      OneNoteMore(NoteCues(notes[..n], first), PressCue(first + n, notes[n]), LiftCue(first + n, notes[n]));
    }
  }

  lemma {:induction false} ControlCuesHold(controls: seq<Control>)
    ensures Map(Filter(ControlCues(controls), IsChangeCue), ControlOfCue) == Map(controls, ReadingBack)
    ensures Filter(ControlCues(controls), IsPressCue) == []
  {
    if controls != [] {
      ControlCuesHold(controls[1..]);
      assert ControlCues(controls) == [ChangeCue(controls[0])] + ControlCues(controls[1..]);
    }
  }

  lemma {:induction false} NoneAfter(a: seq<Cue>, b: seq<Cue>)
    ensures a + [] == a && b + [] == b
  {
  }

  /** The cues hold every note and every control once, in input order. */
  lemma {:induction false} CuesHold(clips: seq<Placement>)
    ensures Map(Filter(Cues(clips), IsPressCue), NoteOfCue) == AllNotes(clips)
    ensures Map(Filter(Cues(clips), IsChangeCue), ControlOfCue) == Map(AllControls(clips), ReadingBack)
  {
    if clips != [] {
      var n := |clips| - 1;
      var notes, controls := ClipNotes(clips[n].clip.notes, clips[n].offset),
          ClipControls(clips[n].clip.controls, clips[n].offset);
      var a, b, c := Cues(clips[..n]), NoteCues(notes, |AllNotes(clips[..n])|), ControlCues(controls);
      CuesHold(clips[..n]);
      NoteCuesHold(notes, |AllNotes(clips[..n])|);
      NoteCuesChangeNothing(notes, |AllNotes(clips[..n])|);
      ControlCuesHold(controls);
      FilterConcat(a + b, c, IsPressCue);
      FilterConcat(a, b, IsPressCue);
      FilterConcat(a + b, c, IsChangeCue);
      FilterConcat(a, b, IsChangeCue);
      MapConcat(Filter(a, IsPressCue), Filter(b, IsPressCue), NoteOfCue);
      MapConcat(Filter(a, IsChangeCue), Filter(c, IsChangeCue), ControlOfCue);
      MapConcat(AllControls(clips[..n]), controls, ReadingBack);
      NoneAfter(Filter(a, IsPressCue) + Filter(b, IsPressCue), Filter(a, IsChangeCue));
    }
  }

  /** The notes pressed, in track order, are the stable sort by start of the notes of the export. */
  lemma {:induction false} PressedInOrder(clips: seq<Placement>)
    requires AllCued(Cues(clips), AllNotes(clips))
    ensures var sorted := Sort(Cues(clips), CueMoment);
      Pressed(sorted, |sorted|) == Sort(AllNotes(clips), ByStart)
  {
    hide Sort, Filter, Map, Changed, Pressed, Cues, AllNotes, Cued;
    var cues, sorted := Cues(clips), Sort(Cues(clips), CueMoment);
    var presses := Filter(cues, IsPressCue);
    var late: Note -> int := (note: Note) => 2 * note.start + 1;
    PressedIsFiltered(sorted, |sorted|);
    assert sorted[..|sorted|] == sorted;
    FilterSort(cues, CueMoment, IsPressCue);
    FilterMembers(cues, IsPressCue);
    forall cue | cue in presses ensures late(NoteOfCue(cue)) == CueMoment(cue) {
      CuedMoment(cue, AllNotes(clips));
    }
    MapSort(presses, CueMoment, NoteOfCue, late);
    CuesHold(clips);
    SameOrder(AllNotes(clips), late, ByStart);
  }

  lemma {:induction false} ChangedInOrder(clips: seq<Placement>)
    requires AllCued(Cues(clips), AllNotes(clips))
    ensures var sorted := Sort(Cues(clips), CueMoment);
      Changed(sorted, |sorted|) == Sort(Map(AllControls(clips), ReadingBack), ByTick)
  {
    hide Sort, Filter, Map, Changed, Pressed, Cues, AllNotes, AllControls, Cued;
    var cues, sorted := Cues(clips), Sort(Cues(clips), CueMoment);
    var changes := Filter(cues, IsChangeCue);
    var late: Control -> int := (control: Control) => 2 * control.tick + 1;
    PressedIsFiltered(sorted, |sorted|);
    assert sorted[..|sorted|] == sorted;
    FilterSort(cues, CueMoment, IsChangeCue);
    FilterMembers(cues, IsChangeCue);
    forall cue | cue in changes ensures late(ControlOfCue(cue)) == CueMoment(cue) {
      CuedMoment(cue, AllNotes(clips));
    }
    MapSort(changes, CueMoment, ControlOfCue, late);
    CuesHold(clips);
    SameOrder(Map(AllControls(clips), ReadingBack), late, ByTick);
  }

  // Presses and changes come second at their tick.
  lemma {:induction false} CuedMoment(cue: Cue, notes: seq<Note>)
    requires Cued(cue, notes)
    ensures cue.message.Press? ==> CueMoment(cue) == 2 * cue.message.note.start + 1
    ensures cue.message.Change? ==> CueMoment(cue) == 2 * cue.message.control.tick + 1
  {
  }
}
