/** Exactly which exports are accepted. */
module SmfAcceptance {
  import opened Wrappers
  import opened StableSort
  import opened SmfFormat
  import opened SmfEncoder
  import NoteOverlap

  predicate Representable(bpm: real)
    requires bpm > 0.0
  {
    1 <= Micros(bpm) <= 0xff_ffff
  }

  lemma {:induction false} TemposAccepted(tempos: seq<Tempo>, origin: nat, end: Option<nat>)
    requires Positive(tempos)
    ensures TempoItems(tempos, origin, end).Some? <==>
            forall i :: 0 <= i < |tempos| && Within(tempos[i].tick, origin, end) ==> Representable(tempos[i].bpm)
  {
    hide Micros;
    if tempos != [] {
      TemposAccepted(tempos[..|tempos| - 1], origin, end);
    }
  }

  lemma {:induction false} MetersAccepted(meters: seq<Meter>, origin: nat, end: Option<nat>)
    requires forall i :: 0 <= i < |meters| ==> meters[i].denominator in {1, 2, 4, 8, 16, 32}
    ensures MeterItems(meters, origin, end).Some?
  {
    if meters != [] {
      MetersAccepted(meters[..|meters| - 1], origin, end);
    }
  }

  lemma {:induction false} InForceExists(tempos: seq<Tempo>, tick: nat)
    requires tempos != [] && tempos[0].tick == 0
    ensures TempoAt(tempos, tick).Some?
  {
    if |tempos| > 1 {
      InForceExists(tempos[..|tempos| - 1], tick);
    }
  }

  lemma {:induction false} MeterInForce(meters: seq<Meter>, tick: nat)
    requires meters != [] && meters[0].tick == 0
    requires forall i :: 0 <= i < |meters| ==> meters[i].denominator in {1, 2, 4, 8, 16, 32}
    ensures MeterAt(meters, tick).Some? && MeterAt(meters, tick).value.denominator in {1, 2, 4, 8, 16, 32}
  {
    if |meters| > 1 {
      MeterInForce(meters[..|meters| - 1], tick);
    }
  }

  // Every tempo the export has to write is one SMF can hold.
  ghost predicate TemposFit(timebase: Timebase, origin: nat, end: Option<nat>)
    requires ValidTimebase(timebase)
  {
    && (forall tempo :: TempoAt(timebase.tempos, origin) == Some(tempo) ==> Representable(tempo.bpm))
    && forall i :: 0 <= i < |timebase.tempos| && Within(timebase.tempos[i].tick, origin, end) ==>
         Representable(timebase.tempos[i].bpm)
  }

  /** The clock of a valid timebase is refused only for a tempo out of range, in force at the origin or inside the
      range. */
  lemma {:induction false} ClockAccepted(timebase: Timebase, origin: nat, end: Option<nat>)
    requires ValidTimebase(timebase)
    ensures ClockItems(timebase, origin, end).Some? <==> TemposFit(timebase, origin, end)
  {
    hide Micros;
    TemposAccepted(timebase.tempos, origin, end);
    MetersAccepted(timebase.meters, origin, end);
    InForceExists(timebase.tempos, origin);
    MeterInForce(timebase.meters, origin);
  }

  // The sorted events of a track leave no gap too long and fill no more than a chunk.
  ghost predicate TrackFits(items: seq<Item>) {
    var sorted := Sort(items, ByMoment);
    GapsFit(sorted, 0) && (Deltas(sorted, 0).Some? ==> |Deltas(sorted, 0).value| < 0x1_0000_0000)
  }

  lemma {:induction false} TrackAccepted(items: seq<Item>)
    ensures TrackChunk(items).Some? <==> TrackFits(items)
  {
    hide Deltas, Sort, GapsFit;
    SortIsSorted(items, ByMoment);
    GapsDecide(Sort(items, ByMoment), 0);
  }

  lemma {:induction false} AcceptedInTerms(timebase: Timebase, clips: seq<Placement>, origin: nat, end: Option<nat>)
    ensures Encode(timebase, clips, origin, end).Some? <==>
      && ValidTimebase(timebase) && timebase.ppq <= MAX_SMF_PPQ
      && TemposFit(timebase, origin, end)
      && AllPlayable(AllNotes(clips)) && AllSettable(AllControls(clips))
      && Pairwise(Ranges(AllNotes(clips)), NoteOverlap.Apart)
      && ClockItems(timebase, origin, end).Some? && TrackFits(ClockItems(timebase, origin, end).value)
      && TrackFits(Map(Cues(clips), Saying))
  {
    hide TemposFit, TrackFits, ClockItems, TrackChunk, AllNotes, AllControls, Cues, Playable, Settable;
    if ValidTimebase(timebase) {
      ClockAccepted(timebase, origin, end);
      if ClockItems(timebase, origin, end).Some? {
        TrackAccepted(ClockItems(timebase, origin, end).value);
        TrackAccepted(Map(Cues(clips), Saying));
      }
    }
  }

  // A resolution SMF can hold, and changes of tempo and meter that begin at tick zero and come one after the other.
  ghost predicate GoodClock(timebase: Timebase) {
    var tempos, meters := timebase.tempos, timebase.meters;
    && 0 < timebase.ppq <= 0x7fff
    && tempos != [] && tempos[0].tick == 0 && (forall i, j :: 0 <= i < j < |tempos| ==> tempos[i].tick < tempos[j].tick)
    && meters != [] && meters[0].tick == 0 && (forall i, j :: 0 <= i < j < |meters| ==> meters[i].tick < meters[j].tick)
    && (forall tempo :: tempo in tempos ==> tempo.bpm > 0.0)
    && (forall meter :: meter in meters ==> meter.numerator > 0 && meter.denominator in [1, 2, 4, 8, 16, 32])
  }

  // In force somewhere in the range.
  ghost predicate Heard(tempos: seq<Tempo>, i: nat, origin: nat, end: Option<nat>)
    requires i < |tempos|
  {
    if tempos[i].tick <= origin then i + 1 < |tempos| ==> origin < tempos[i + 1].tick
    else end.Some? ==> tempos[i].tick < end.value
  }

  // Microseconds per quarter, rounded, are a number of three bytes and not zero.
  ghost predicate TempoHolds(bpm: real) {
    bpm > 0.0 && 0.5 <= 60000000.0 / bpm < 16777215.5
  }

  ghost predicate NoteHolds(note: Note) {
    && 0 <= note.key < 128 && 0 < note.velocity < 128 && 0 < note.channel <= 16 && 0 < note.duration
    && note.start + note.duration < 0x1_0000_0000_0000_0000
    && (note.lyric.Some? ==> |note.lyric.value| < 0x1000_0000)
  }

  ghost predicate ControlHolds(control: Control) {
    && 0 <= control.data1 < 128 && 0 <= control.data2 < 128 && 0 < control.channel <= 16
    && control.tick < 0x1_0000_0000_0000_0000
  }

  predicate SoundsAt(note: Note, tick: nat) {
    note.start <= tick < note.start + note.duration
  }

  // Both sound at some tick, on one channel and key.
  ghost predicate Together(a: Note, b: Note) {
    a.channel == b.channel && a.key == b.key && exists tick: nat :: SoundsAt(a, tick) && SoundsAt(b, tick)
  }

  lemma {:induction false} ApartMeans(a: Note, b: Note)
    requires a.duration > 0 && b.duration > 0
    ensures NoteOverlap.Apart(RangeOf(a), RangeOf(b)) <==> !Together(a, b)
  {
    var tick: nat := Max(a.start, b.start);
    assert SoundsAt(a, tick) && SoundsAt(b, tick) <==> a.start < b.start + b.duration && b.start < a.start + a.duration;
  }

  ghost predicate NoTwoTogether(notes: seq<Note>) {
    forall i, j :: 0 <= i < j < |notes| ==> !Together(notes[i], notes[j])
  }

  lemma {:induction false} ApartOf(notes: seq<Note>)
    requires forall note :: note in notes ==> note.duration > 0
    ensures Pairwise(Ranges(notes), NoteOverlap.Apart) <==> NoTwoTogether(notes)
  {
    hide RangeOf, NoteOverlap.Apart, Together;
    forall i, j | 0 <= i < j < |notes|
      ensures NoteOverlap.Apart(Ranges(notes)[i], Ranges(notes)[j]) <==> !Together(notes[i], notes[j])
    {
      ApartMeans(notes[i], notes[j]);
    }
  }

  lemma {:induction false} RoundsInto(bpm: real)
    requires bpm > 0.0
    ensures Representable(bpm) <==> TempoHolds(bpm)
  {
    var micros := 60000000.0 / bpm;
  }

  lemma {:induction false} RisingTempos(tempos: seq<Tempo>)
    requires forall i :: 0 <= i < |tempos| - 1 ==> tempos[i].tick < tempos[i + 1].tick
    ensures forall i, j :: 0 <= i < j < |tempos| ==> tempos[i].tick < tempos[j].tick
  {
    if |tempos| > 1 {
      var n := |tempos| - 1;
      RisingTempos(tempos[..n]);
      forall i | 0 <= i < n ensures tempos[i].tick < tempos[n].tick {
        assert tempos[n - 1].tick < tempos[n - 1 + 1].tick;
        assert i < n - 1 ==> tempos[..n][i].tick < tempos[..n][n - 1].tick;
      }
    }
  }

  lemma {:induction false} RisingMeters(meters: seq<Meter>)
    requires forall i :: 0 <= i < |meters| - 1 ==> meters[i].tick < meters[i + 1].tick
    ensures forall i, j :: 0 <= i < j < |meters| ==> meters[i].tick < meters[j].tick
  {
    if |meters| > 1 {
      var n := |meters| - 1;
      RisingMeters(meters[..n]);
      forall i | 0 <= i < n ensures meters[i].tick < meters[n].tick {
        assert meters[n - 1].tick < meters[n - 1 + 1].tick;
        assert i < n - 1 ==> meters[..n][i].tick < meters[..n][n - 1].tick;
      }
    }
  }

  lemma {:induction false} ValidIsGood(timebase: Timebase)
    ensures ValidTimebase(timebase) && timebase.ppq <= MAX_SMF_PPQ <==> GoodClock(timebase)
  {
    if ValidTimebase(timebase) {
      RisingTempos(timebase.tempos);
      RisingMeters(timebase.meters);
    }
  }

  lemma {:induction false} FirstHeard(tempos: seq<Tempo>, origin: nat, end: Option<nat>, i: nat)
    requires forall i, j :: 0 <= i < j < |tempos| ==> tempos[i].tick < tempos[j].tick
    requires i < |tempos| && tempos[i].tick <= origin
    ensures Heard(tempos, i, origin, end) <==> TempoAt(tempos, origin) == Some(tempos[i])
    decreases |tempos|
  {
    var n := |tempos| - 1;
    if i < n && origin < tempos[n].tick {
      FirstHeard(tempos[..n], origin, end, i);
    }
  }

  lemma {:induction false} HeardAtOrigin(tempos: seq<Tempo>, origin: nat) returns (i: nat)
    requires tempos != [] && tempos[0].tick == 0
    ensures i < |tempos| && tempos[i].tick <= origin && TempoAt(tempos, origin) == Some(tempos[i])
    decreases |tempos|
  {
    var n := |tempos| - 1;
    if tempos[n].tick <= origin {
      i := n;
    } else {
      i := HeardAtOrigin(tempos[..n], origin);
    }
  }

  lemma {:induction false} HeardFit(timebase: Timebase, origin: nat, end: Option<nat>)
    requires ValidTimebase(timebase)
    ensures TemposFit(timebase, origin, end) <==>
            forall i: nat :: i < |timebase.tempos| && Heard(timebase.tempos, i, origin, end) ==>
              TempoHolds(timebase.tempos[i].bpm)
  {
    hide Representable, TempoHolds, TempoAt;
    var tempos := timebase.tempos;
    RisingTempos(tempos);
    forall i: nat | i < |tempos| ensures Representable(tempos[i].bpm) <==> TempoHolds(tempos[i].bpm) {
      RoundsInto(tempos[i].bpm);
    }
    forall i: nat | i < |tempos| && tempos[i].tick <= origin
      ensures Heard(tempos, i, origin, end) <==> TempoAt(tempos, origin) == Some(tempos[i])
    {
      FirstHeard(tempos, origin, end, i);
    }
    var first := HeardAtOrigin(tempos, origin);
    HeardLater(tempos, origin, end);
  }

  lemma {:induction false} HeardLater(tempos: seq<Tempo>, origin: nat, end: Option<nat>)
    ensures forall i: nat :: i < |tempos| && tempos[i].tick > origin ==>
              (Heard(tempos, i, origin, end) <==> Within(tempos[i].tick, origin, end))
  {
  }

  lemma {:induction false} AllHold(notes: seq<Note>, controls: seq<Control>)
    ensures AllPlayable(notes) <==> forall note :: note in notes ==> NoteHolds(note)
    ensures AllSettable(controls) <==> forall control :: control in controls ==> ControlHolds(control)
    ensures AllPlayable(notes) ==> forall note :: note in notes ==> note.duration > 0
  {
    assert forall i :: 0 <= i < |notes| ==> notes[i] in notes;
    assert forall i :: 0 <= i < |controls| ==> controls[i] in controls;
  }

  /** An export is accepted exactly when its resolution and its changes of clock are good, every tempo heard in the
      range fits, every note and control does, no two notes of one channel and key sound together, and neither track has
      a gap or a length that is too long. */
  lemma {:induction false} AcceptedExactlyWhen(timebase: Timebase, clips: seq<Placement>, origin: nat, end: Option<nat>)
    ensures Encode(timebase, clips, origin, end).Some? <==>
      && GoodClock(timebase)
      && (forall i: nat :: i < |timebase.tempos| && Heard(timebase.tempos, i, origin, end) ==>
            TempoHolds(timebase.tempos[i].bpm))
      && (forall note :: note in AllNotes(clips) ==> NoteHolds(note))
      && (forall control :: control in AllControls(clips) ==> ControlHolds(control))
      && NoTwoTogether(AllNotes(clips))
      && ClockItems(timebase, origin, end).Some? && TrackFits(ClockItems(timebase, origin, end).value)
      && TrackFits(Map(Cues(clips), Saying))
  {
    hide TemposFit, TrackFits, ClockItems, AllNotes, AllControls, Cues, Encode, Heard, TempoHolds, ValidTimebase,
        GoodClock, NoTwoTogether, Ranges, Playable, Settable, NoteHolds, ControlHolds;
    AcceptedInTerms(timebase, clips, origin, end);
    ValidIsGood(timebase);
    if GoodClock(timebase) {
      HeardFit(timebase, origin, end);
    }
    AllHold(AllNotes(clips), AllControls(clips));
    if AllPlayable(AllNotes(clips)) {
      ApartOf(AllNotes(clips));
    }
  }
}
