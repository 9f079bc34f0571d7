/** The parsed performance track: every note back in its place, and every lyric back on its note. */
module SmfSinging {
  import opened Wrappers
  import opened Bytes
  import opened StableSort
  import opened SmfFormat
  import opened SmfEncoder
  import opened SmfDecoding
  import opened SmfPlayback
  import LyricMatching
  import TickConversion
  import SmfTracks

  // A performance track parsed: the notes closed and still without lyrics.
  ghost predicate Performed(cues: seq<Cue>, track: Track) {
    && |track.notes| == |Pressed(cues, |cues|)|
    && (forall i :: 0 <= i < |cues| && cues[i].message.Press? ==> HeardAt(cues, i, track.notes))
    && track.controls == Changed(cues, |cues|)
    && track.sung == SungIn(cues, |cues|)
    && track.last == (if cues == [] then 0 else cues[|cues| - 1].tick)
    && SmfTracks.Ordered(track)
  }

  ghost predicate HeardAt(cues: seq<Cue>, i: nat, notes: seq<Placed>)
    requires i < |cues| && cues[i].message.Press?
  {
    var m, note := |Pressed(cues, i)|, cues[i].message.note;
    m < |notes| && notes[m] == Placed(note.start, Order(cues, i + 1), note.(lyric := None), false)
  }

  lemma {:induction false} LiftedAtLast(cues: seq<Cue>, i: nat)
    requires Staged(cues) && i < |cues| && cues[i].message.Press?
    ensures Lifted(cues, |cues|, cues[i].message.id)
  {
    var j :| 0 <= j < |cues| && cues[j] == LiftCue(cues[i].message.id, cues[i].message.note);
    assert cues[j].message.Lift?;
  }

  lemma {:induction false} AllClosed(cues: seq<Cue>, notes: seq<Placed>)
    requires Staged(cues) && AllPlaced(cues, |cues|, notes)
    ensures |notes| == |Pressed(cues, |cues|)| && forall m :: 0 <= m < |notes| ==> !notes[m].open
    ensures forall i :: 0 <= i < |cues| && cues[i].message.Press? ==> HeardAt(cues, i, notes)
  {
    forall i | 0 <= i < |cues| && cues[i].message.Press? ensures HeardAt(cues, i, notes) {
      HasPlaced(cues, |cues|, notes, i);
      LiftedAtLast(cues, i);
    }
    forall m | 0 <= m < |notes| ensures !notes[m].open {
      var i := PressedBy(cues, |cues|, m);
      assert HeardAt(cues, i, notes);
    }
  }

  lemma {:induction false} FinishClosed(track: Track, scale: Scale)
    requires scale.source == scale.target && track.tick <= U64_MAX
    requires forall m :: 0 <= m < |track.notes| ==> !track.notes[m].open
    ensures Finish(track, scale) == Some(track)
  {
    TickConversion.Identity(track.tick, scale.source);
    var ended := EndNotes(track.notes, track.tick);
    assert ended.Some? && ended.value == track.notes;
  }

  /** The bytes of a performance, parsed at their own resolution, hold exactly its notes, lyrics and controls. */
  lemma {:induction false} ParsePerformance(cues: seq<Cue>, data: bytes, scale: Scale) returns (track: Track)
    requires Staged(cues) && scale.source == scale.target && Deltas(Map(cues, Saying), 0) == Some(data)
    ensures ParseTrack(data, scale) == Some(track) && Performed(cues, track)
  {
    hide RunSteps, Decode, Run, Staged, AllPlaced, AllSteps, Deltas;
    AscendingCues(cues);
    DecodeTrack(cues, 0, 0);
    RunIsDecodeThenPlay(START, scale, data, 0);
    assert cues[0..] == cues;
    NothingPlayed(cues);
    var final := PlayRest(cues, 0, cues, START, scale);
    AllClosed(cues, final.notes);
    track := Stepped(final, final.tick, 1);
    FinishClosed(track, scale);
    SmfTracks.ParsedIsOrdered(data, scale);
  }

  lemma {:induction false} NothingPlayed(cues: seq<Cue>)
    ensures Played(cues, 0, START)
  {
  }

  predicate Sings(cues: seq<Cue>, i: nat) {
    i < |cues| && cues[i].message.Press? && cues[i].message.note.lyric.Some?
  }

  lemma {:induction false} SungBy(cues: seq<Cue>, n: nat, k: nat) returns (i: nat)
    requires n <= |cues| && k < |SungIn(cues, n)|
    ensures |Targets(cues, n)| == |SungIn(cues, n)|
    ensures i < n && Sings(cues, i) && Targets(cues, n)[k] == |Pressed(cues, i)|
    ensures SungIn(cues, n)[k] == Sung(cues[i].tick, Order(cues, i) + 1, cues[i].message.note.lyric.value)
  {
    TargetsMatch(cues, n - 1);
    if k < |SungIn(cues, n - 1)| {
      i := SungBy(cues, n - 1, k);
    } else {
      i := n - 1;
    }
  }

  lemma {:induction false} TargetsMatch(cues: seq<Cue>, n: nat)
    requires n <= |cues|
    ensures |Targets(cues, n)| == |SungIn(cues, n)|
  {
    if n != 0 {
      TargetsMatch(cues, n - 1);
    }
  }

  lemma {:induction false} TargetsRise(cues: seq<Cue>, n: nat)
    requires n <= |cues|
    ensures forall k :: 0 <= k < |Targets(cues, n)| ==> Targets(cues, n)[k] < |Pressed(cues, n)|
    ensures forall k, l :: 0 <= k < l < |Targets(cues, n)| ==> Targets(cues, n)[k] < Targets(cues, n)[l]
  {
    if n != 0 {
      TargetsRise(cues, n - 1);
    }
  }

  lemma {:induction false} HasTarget(cues: seq<Cue>, n: nat, i: nat) returns (k: nat)
    requires n <= |cues| && i < n && Sings(cues, i)
    ensures k < |Targets(cues, n)| && Targets(cues, n)[k] == |Pressed(cues, i)|
    ensures k < |SungIn(cues, n)| && SungIn(cues, n)[k].text == cues[i].message.note.lyric.value
  {
    TargetsMatch(cues, n - 1);
    if i < n - 1 {
      k := HasTarget(cues, n - 1, i);
    } else {
      k := |Targets(cues, n - 1)|;
    }
  }

  lemma {:induction false} NoTarget(cues: seq<Cue>, i: nat)
    requires i < |cues| && cues[i].message.Press? && !Sings(cues, i)
    ensures |Pressed(cues, i)| !in Targets(cues, |cues|)
  {
    if k :| 0 <= k < |Targets(cues, |cues|)| && Targets(cues, |cues|)[k] == |Pressed(cues, i)| {
      TargetsMatch(cues, |cues|);
      var j := SungBy(cues, |cues|, k);
      OtherPlace(cues, i, j);
    }
  }

  lemma {:induction false} OrderBySinging(cues: seq<Cue>, i: nat)
    requires Sings(cues, i)
    ensures Order(cues, i + 1) == Order(cues, i) + 2
  {
  }

  // In the file, the performance is track 1.
  lemma {:induction false} LyricFollowed(cues: seq<Cue>, track: Track, k: nat)
    requires Staged(cues) && Performed(cues, track) && k < |track.sung|
    ensures |Targets(cues, |cues|)| == |track.sung|
    ensures LyricMatching.Follows(PlacesOf(1, track.notes), LyricMatching.Unassigned(|track.notes|),
                                  LyricsOf(1, track.sung)[k],
                                  Targets(cues, |cues|)[k])
  {
    var i := SungBy(cues, |cues|, k);
    assert HeardAt(cues, i, track.notes) && WellPlaced(cues[i]);
    OrderBySinging(cues, i);
  }

  lemma {:induction false} PlacesAreDistinct(track: Track)
    requires SmfTracks.Ordered(track)
    ensures LyricMatching.Distinct(PlacesOf(1, track.notes))
  {
    var places := PlacesOf(1, track.notes);
    forall i, j | 0 <= i < j < |places| ensures places[i] != places[j] {
      assert track.notes[i].order < track.notes[j].order;
    }
  }

  ghost function Words(track: Track): (r: LyricMatching.Words)
    ensures |r| == |track.notes|
  {
    LyricMatching.Matched(PlacesOf(1, track.notes), LyricMatching.Unassigned(|track.notes|), LyricsOf(1, track.sung))
  }

  /** Each lyric of the performance goes back to the note it was written with. */
  lemma {:induction false} LyricsReturn(cues: seq<Cue>, track: Track, i: nat)
    requires Staged(cues) && Performed(cues, track) && i < |cues| && cues[i].message.Press?
    ensures |Pressed(cues, i)| < |Words(track)| && Words(track)[|Pressed(cues, i)|] == cues[i].message.note.lyric
  {
    var places, targets, lyrics := PlacesOf(1, track.notes), Targets(cues, |cues|), LyricsOf(1, track.sung);
    TargetsMatch(cues, |cues|);
    PlacesAreDistinct(track);
    forall k | 0 <= k < |lyrics| ensures LyricMatching.Follows(places, LyricMatching.Unassigned(|places|), lyrics[k],
                                                               targets[k]) {
      LyricFollowed(cues, track, k);
    }
    TargetsRise(cues, |cues|);
    LyricMatching.EachToTheNext(places, LyricMatching.Unassigned(|places|), lyrics, targets);
    assert HeardAt(cues, i, track.notes);
    if Sings(cues, i) {
      var k := HasTarget(cues, |cues|, i);
    } else {
      NoTarget(cues, i);
    }
  }

  /** With their lyrics, the notes of the parsed performance are the notes pressed, in the order they were pressed. */
  lemma {:induction false} NotesReturn(cues: seq<Cue>, track: Track)
    requires Staged(cues) && Performed(cues, track)
    ensures WithLyrics(NotesOf(track.notes), Words(track)) == Pressed(cues, |cues|)
  {
    var sung, pressed := WithLyrics(NotesOf(track.notes), Words(track)), Pressed(cues, |cues|);
    forall m | 0 <= m < |pressed| ensures sung[m] == pressed[m] {
      var i := PressedBy(cues, |cues|, m);
      assert HeardAt(cues, i, track.notes);
      LyricsReturn(cues, track, i);
      PressedRises(cues, i, |cues|);
    }
  }
}
