/** What holds of every track the parser accepts: event order, durations, and first-in-first-out pairing. */
module SmfTracks {
  import opened Wrappers
  import opened Bytes
  import opened TickConversion
  import opened SmfFormat
  import LyricMatching

  ghost predicate Ordered(track: Track) {
    && (forall i :: 0 <= i < |track.notes| ==> track.notes[i].order <= track.order)
    && (forall i, j :: 0 <= i < j < |track.notes| ==> track.notes[i].order < track.notes[j].order)
  }

  ghost predicate Lasting(notes: seq<Placed>) {
    forall i :: 0 <= i < |notes| ==> notes[i].note.duration >= 1
  }

  lemma {:induction false} ReleaseKeepsOrder(track: Track, channel: nat, key: nat, at: nat)
    requires Ordered(track) && Lasting(track.notes) && Release(track, channel, key, at).Some?
    ensures Ordered(Release(track, channel, key, at).value) && Lasting(Release(track, channel, key, at).value.notes)
  {
    hide Oldest;
  }

  lemma {:induction false} StepKeepsOrder(track: Track, scale: Scale, step: Step)
    requires Ordered(track) && Lasting(track.notes) && Advance(track, scale, step.delta, step.event).Some?
    ensures var next := Advance(track, scale, step.delta, step.event).value;
      Ordered(next) && Lasting(next.notes)
  {
    hide Release;
    var at := Scaled(track.tick + step.delta, scale.source, scale.target);
    var moved := track.(tick := track.tick + step.delta, order := track.order + 1, last := Max(track.last, at));
    assert Ordered(moved) && Lasting(moved.notes);
    if step.event.Channel? && Release(moved, step.event.channel, step.event.data1, at).Some? {
      ReleaseKeepsOrder(moved, step.event.channel, step.event.data1, at);
    }
  }

  lemma {:induction false} StepsKeepOrder(track: Track, scale: Scale, steps: seq<Step>)
    requires Ordered(track) && Lasting(track.notes) && RunSteps(track, scale, steps).Some?
    ensures var after := RunSteps(track, scale, steps).value;
      Ordered(after) && Lasting(after.notes)
    decreases |steps|
  {
    hide Advance, Ordered, Lasting;
    if steps != [] {
      StepKeepsOrder(track, scale, steps[0]);
      StepsKeepOrder(Advance(track, scale, steps[0].delta, steps[0].event).value, scale, steps[1..]);
    }
  }

  /** In every accepted track, event numbers of notes rise strictly and no note is shorter than one tick. */
  lemma {:induction false} ParsedIsOrdered(data: bytes, scale: Scale)
    requires ParseTrack(data, scale).Some?
    ensures var track := ParseTrack(data, scale).value;
      Ordered(track) && Lasting(track.notes) && forall i :: 0 <= i < |track.notes| ==> !track.notes[i].open
  {
    RunIsDecodeThenPlay(START, scale, data, 0);
    StepsKeepOrder(START, scale, Decode(data, 0).value);
  }

  lemma {:induction false} PlacesDistinct(tracks: seq<Track>)
    requires forall t :: t in tracks ==> Ordered(t)
    ensures LyricMatching.Distinct(Gather(tracks).places)
    ensures forall p :: p in Gather(tracks).places ==> p.track < |tracks|
  {
    if tracks != [] {
      var n := |tracks| - 1;
      PlacesDistinct(tracks[..n]);
      assert Ordered(tracks[n]);
      var before, own := Gather(tracks[..n]).places, PlacesOf(n, tracks[n].notes);
      forall i, j | 0 <= i < j < |before + own| ensures (before + own)[i] != (before + own)[j] {
        if i < |before| <= j {
          assert before[i] in before;
        }
      }
    }
  }

  // How many of the first n notes have this channel and key.
  function Rank(notes: seq<Placed>, channel: nat, key: nat, n: nat): nat
    requires n <= |notes|
  {
    if n == 0 then 0
    else Rank(notes, channel, key, n - 1) + if Matches(notes[n - 1], channel, key) then 1 else 0
  }

  predicate Matches(placed: Placed, channel: nat, key: nat) {
    placed.note.channel == channel && placed.note.key == key
  }

  predicate IsPress(event: Event, channel: nat, key: nat) {
    event.Channel? && event.command == 0x9 && event.data2 != 0 && event.channel == channel && event.data1 == key
  }

  predicate IsRelease(event: Event, channel: nat, key: nat) {
    event.Channel? && (event.command == 0x8 || (event.command == 0x9 && event.data2 == 0))
    && event.channel == channel && event.data1 == key
  }

  /** When the n-th note of a channel and key is released, counting presses and releases only: a release counts
      when fewer releases than presses came before it, and the n-th that counts ends the n-th note. */
  function Released(steps: seq<Step>, tick: nat, scale: Scale, channel: nat, key: nat,
                    presses: nat, releases: nat, n: nat): Option<nat>
    decreases |steps|
  {
    if steps == [] then None
    else
      var tick', event, rest := tick + steps[0].delta, steps[0].event, steps[1..];
      if IsPress(event, channel, key) then Released(rest, tick', scale, channel, key, presses + 1, releases, n)
      else if IsRelease(event, channel, key) && releases < presses then
        if releases == n then Some(Scaled(tick', scale.source, scale.target))
        else Released(rest, tick', scale, channel, key, presses, releases + 1, n)
      else Released(rest, tick', scale, channel, key, presses, releases, n)
  }

  // The first `releases` notes of the channel and key are closed and the others sound.
  ghost predicate InTurn(notes: seq<Placed>, channel: nat, key: nat, releases: nat) {
    && releases <= Rank(notes, channel, key, |notes|)
    && forall i :: 0 <= i < |notes| && Matches(notes[i], channel, key) ==>
                     (notes[i].open <==> releases <= Rank(notes, channel, key, i))
  }

  lemma {:induction false} RankRises(notes: seq<Placed>, channel: nat, key: nat, i: nat, j: nat)
    requires i <= j <= |notes|
    ensures Rank(notes, channel, key, i) <= Rank(notes, channel, key, j)
    ensures i < j && Matches(notes[i], channel, key) ==> Rank(notes, channel, key, i) < Rank(notes, channel, key, j)
    decreases j
  {
    if i < j {
      RankRises(notes, channel, key, i, j - 1);
    }
  }

  lemma {:induction false} RankSame(a: seq<Placed>, b: seq<Placed>, channel: nat, key: nat, n: nat)
    requires n <= |a| && n <= |b|
    requires forall i :: 0 <= i < n ==> Matches(a[i], channel, key) == Matches(b[i], channel, key)
    ensures Rank(a, channel, key, n) == Rank(b, channel, key, n)
  {
    if n != 0 {
      RankSame(a, b, channel, key, n - 1);
    }
  }

  lemma {:induction false} RankReached(notes: seq<Placed>, channel: nat, key: nat, n: nat, r: nat)
    requires n <= |notes| && r < Rank(notes, channel, key, n)
    ensures exists i :: 0 <= i < n && Matches(notes[i], channel, key) && Rank(notes, channel, key, i) == r
  {
    if r < Rank(notes, channel, key, n - 1) {
      RankReached(notes, channel, key, n - 1, r);
    }
  }

  // The note a release ends is the one whose turn it is, and there is one exactly when one still sounds.
  lemma {:induction false} OldestInTurn(notes: seq<Placed>, channel: nat, key: nat, releases: nat)
    requires InTurn(notes, channel, key, releases)
    ensures Oldest(notes, channel, key).Some? <==> releases < Rank(notes, channel, key, |notes|)
    ensures Oldest(notes, channel, key).Some? ==>
      var i := Oldest(notes, channel, key).value;
      Sounds(notes[i], channel, key) && Rank(notes, channel, key, i) == releases
  {
    OldestIsFirst(notes, channel, key);
    if releases < Rank(notes, channel, key, |notes|) {
      RankReached(notes, channel, key, |notes|, releases);
      var j :| 0 <= j < |notes| && Matches(notes[j], channel, key) && Rank(notes, channel, key, j) == releases;
      assert Sounds(notes[j], channel, key);
      var i := Oldest(notes, channel, key).value;
      if i < j {
        RankRises(notes, channel, key, i, j);
      }
    } else if Oldest(notes, channel, key).Some? {
      var i := Oldest(notes, channel, key).value;
      RankRises(notes, channel, key, i, |notes|);
    }
  }

  function Presses(notes: seq<Placed>, channel: nat, key: nat): nat {
    Rank(notes, channel, key, |notes|)
  }

  // Notes keep their place, channel, key and start.
  ghost predicate Extends(before: seq<Placed>, after: seq<Placed>) {
    && |before| <= |after|
    && forall i :: 0 <= i < |before| ==>
         before[i].note.(duration := after[i].note.duration) == after[i].note
  }

  lemma {:induction false} RunExtends(track: Track, scale: Scale, steps: seq<Step>)
    requires RunSteps(track, scale, steps).Some?
    ensures Extends(track.notes, RunSteps(track, scale, steps).value.notes)
    decreases |steps|
  {
    if steps != [] {
      RunExtends(Advance(track, scale, steps[0].delta, steps[0].event).value, scale, steps[1..]);
    }
  }

  lemma {:induction false} SameRank(a: seq<Placed>, b: seq<Placed>, channel: nat, key: nat, i: nat, j: nat)
    requires Extends(a, b) && i < |a| && j < |a| && Matches(a[i], channel, key) && Matches(a[j], channel, key)
    requires Rank(b, channel, key, i) == Rank(a, channel, key, j)
    ensures i == j
  {
    RankSame(a, b, channel, key, i);
    if i < j {
      RankRises(a, channel, key, i, j);
    } else if j < i {
      RankRises(a, channel, key, j, i);
    }
  }

  lemma {:induction false} ReleaseInTurn(track: Track, channel: nat, key: nat, at: nat, c: nat, k: nat, releases: nat)
    requires InTurn(track.notes, c, k, releases) && Release(track, channel, key, at).Some?
    ensures var next := Release(track, channel, key, at).value;
      var counts := c == channel && k == key && releases < Presses(track.notes, c, k);
      && InTurn(next.notes, c, k, if counts then releases + 1 else releases)
      && Presses(next.notes, c, k) == Presses(track.notes, c, k)
  {
    var next := Release(track, channel, key, at).value;
    OldestIsFirst(track.notes, channel, key);
    if c == channel && k == key {
      OldestInTurn(track.notes, c, k, releases);
    }
    RankSame(track.notes, next.notes, c, k, |track.notes|);
    forall i | 0 <= i < |track.notes| && Matches(track.notes[i], c, k)
      ensures Rank(next.notes, c, k, i) == Rank(track.notes, c, k, i)
      ensures Oldest(track.notes, channel, key).Some? && c == channel && k == key
                && Rank(track.notes, c, k, i) == releases ==>
              i == Oldest(track.notes, channel, key).value
    {
      RankSame(track.notes, next.notes, c, k, i);
      if Oldest(track.notes, channel, key).Some? && c == channel && k == key && Rank(track.notes, c, k, i) == releases {
        SameRank(track.notes, track.notes, c, k, i, Oldest(track.notes, channel, key).value);
      }
    }
  }

  lemma {:induction false} PressInTurn(notes: seq<Placed>, note: Placed, c: nat, k: nat, releases: nat)
    requires InTurn(notes, c, k, releases) && note.open
    ensures InTurn(notes + [note], c, k, releases)
    ensures Presses(notes + [note], c, k) == Presses(notes, c, k) + if Matches(note, c, k) then 1 else 0
  {
    var after := notes + [note];
    RankSame(notes, after, c, k, |notes|);
    forall i | 0 <= i < |notes| ensures Rank(after, c, k, i) == Rank(notes, c, k, i) {
      RankSame(notes, after, c, k, i);
    }
  }

  lemma {:induction false} StepInTurn(track: Track, scale: Scale, step: Step, c: nat, k: nat, releases: nat)
    requires InTurn(track.notes, c, k, releases) && Advance(track, scale, step.delta, step.event).Some?
    ensures var next := Advance(track, scale, step.delta, step.event).value;
      && InTurn(next.notes, c, k,
                if IsRelease(step.event, c, k) && releases < Presses(track.notes, c, k) then releases + 1 else releases)
      && Presses(next.notes, c, k) == Presses(track.notes, c, k) + if IsPress(step.event, c, k) then 1 else 0
  {
    hide InTurn, Rank, Oldest, Release;
    var at := Scaled(track.tick + step.delta, scale.source, scale.target);
    var moved := track.(tick := track.tick + step.delta, order := track.order + 1, last := Max(track.last, at));
    if step.event.Channel? {
      var Channel(command, channel, data1, data2) := step.event;
      if command == 0x8 || (command == 0x9 && data2 == 0) {
        ReleaseInTurn(moved, channel, data1, at, c, k, releases);
      } else if command == 0x9 {
        var next := Press(moved, channel, data1, data2, at);
        var pressed := next.notes[|track.notes|];
        assert next.notes == track.notes + [pressed];
        PressInTurn(track.notes, pressed, c, k, releases);
      }
    }
  }

  // How the i-th note of the finished list came to its end.
  ghost predicate EndedBy(placed: Placed, release: Option<nat>) {
    match release
    case None => placed.open
    case Some(at) => !placed.open && placed.note.duration == Max(at, placed.note.start + 1) - placed.note.start
  }

  predicate Counts(track: Track, event: Event, c: nat, k: nat, releases: nat) {
    IsRelease(event, c, k) && releases < Presses(track.notes, c, k)
  }

  // A release that counts ends the note whose turn it is, and every other event leaves the notes of this key alone.
  lemma {:induction false} StepTouches(track: Track, scale: Scale, step: Step, c: nat, k: nat, releases: nat, i: nat)
    requires InTurn(track.notes, c, k, releases) && Advance(track, scale, step.delta, step.event).Some?
    requires i < |track.notes| && Matches(track.notes[i], c, k)
    ensures Touched(track.notes, Advance(track, scale, step.delta, step.event).value.notes, c, k,
                    if Counts(track, step.event, c, k, releases) then Some(releases) else None,
                    Scaled(track.tick + step.delta, scale.source, scale.target), i)
  {
    hide Scaled, Oldest, IsUtf8, KindOf;
    if IsRelease(step.event, c, k) {
      OldestInTurn(track.notes, c, k, releases);
      if releases < Presses(track.notes, c, k) && Rank(track.notes, c, k, i) == releases {
        SameRank(track.notes, track.notes, c, k, i, Oldest(track.notes, c, k).value);
      }
    } else if step.event.Channel? {
      OldestIsFirst(track.notes, step.event.channel, step.event.data1);
    }
  }

  lemma {:induction false} EarlyNotes(before: seq<Placed>, after: seq<Placed>, c: nat, k: nat, releases: nat, i: nat)
    requires Extends(before, after) && i < |after| && Matches(after[i], c, k)
    requires releases <= Presses(before, c, k) && Rank(after, c, k, i) < releases
    ensures i < |before|
  {
    if i >= |before| {
      RankSame(before, after, c, k, |before|);
      RankRises(after, c, k, |before|, i);
    }
  }

  ghost predicate Touched(before: seq<Placed>, next: seq<Placed>, c: nat, k: nat, turn: Option<nat>, at: nat, i: nat) {
    && i < |before| && i < |next|
    && if turn == Some(Rank(before, c, k, i)) then EndedBy(next[i], Some(at)) else next[i] == before[i]
  }

  // The end of the i-th note, told from the state before some steps.
  ghost predicate Turned(before: seq<Placed>, after: seq<Placed>, tick: nat, scale: Scale, steps: seq<Step>,
                         c: nat, k: nat, releases: nat, i: nat)
    requires i < |after|
  {
    var n := Rank(after, c, k, i);
    if n < releases then i < |before| && after[i] == before[i]
    else EndedBy(after[i], Released(steps, tick, scale, c, k, Presses(before, c, k), releases, n))
  }

  lemma {:induction false} TurnedEarlier(before: seq<Placed>, next: seq<Placed>, after: seq<Placed>, tick: nat,
                                         scale: Scale, steps: seq<Step>, c: nat, k: nat, releases: nat, counts: bool,
                                         i: nat)
    requires i < |after| && Matches(after[i], c, k) && steps != []
    requires counts == (IsRelease(steps[0].event, c, k) && releases < Presses(before, c, k))
    requires Presses(next, c, k) == Presses(before, c, k) + if IsPress(steps[0].event, c, k) then 1 else 0
    requires Turned(next, after, tick + steps[0].delta, scale, steps[1..], c, k, if counts then releases + 1
                      else releases, i)
    requires Rank(after, c, k, i) < (if counts then releases + 1 else releases) ==>
      && Touched(before, next, c, k, if counts then Some(releases)
                   else None, Scaled(tick + steps[0].delta, scale.source, scale.target), i)
      && Rank(before, c, k, i) == Rank(after, c, k, i)
    ensures Turned(before, after, tick, scale, steps, c, k, releases, i)
  {
  }

  lemma {:induction false} InTurnCounts(notes: seq<Placed>, c: nat, k: nat, releases: nat)
    requires InTurn(notes, c, k, releases)
    ensures releases <= Presses(notes, c, k)
  {
  }

  lemma {:induction false} NoStepsLeft(notes: seq<Placed>, tick: nat, scale: Scale, c: nat, k: nat, releases: nat,
                                       i: nat)
    requires InTurn(notes, c, k, releases) && i < |notes| && Matches(notes[i], c, k)
    ensures Turned(notes, notes, tick, scale, [], c, k, releases, i)
  {
  }

  lemma {:induction false} AdvanceTick(track: Track, scale: Scale, step: Step)
    requires Advance(track, scale, step.delta, step.event).Some?
    ensures Advance(track, scale, step.delta, step.event).value.tick == track.tick + step.delta
  {
  }

  lemma {:induction false} Turns(track: Track, scale: Scale, steps: seq<Step>, c: nat, k: nat, releases: nat, i: nat)
    requires InTurn(track.notes, c, k, releases) && RunSteps(track, scale, steps).Some?
    requires i < |RunSteps(track, scale, steps).value.notes|
    requires Matches(RunSteps(track, scale, steps).value.notes[i], c, k)
    ensures Turned(track.notes, RunSteps(track, scale, steps).value.notes, track.tick, scale, steps, c, k, releases, i)
    decreases |steps|
  {
    hide Rank, InTurn, Advance, Touched, Turned;
    if steps == [] {
      NoStepsLeft(track.notes, track.tick, scale, c, k, releases, i);
    } else {
      var next := Advance(track, scale, steps[0].delta, steps[0].event).value;
      AdvanceTick(track, scale, steps[0]);
      var after := RunSteps(next, scale, steps[1..]).value.notes;
      assert next.tick == track.tick + steps[0].delta;
      var counts := Counts(track, steps[0].event, c, k, releases);
      var counted := if counts then releases + 1 else releases;
      StepInTurn(track, scale, steps[0], c, k, releases);
      Turns(next, scale, steps[1..], c, k, counted, i);
      if Rank(after, c, k, i) < counted {
        RunExtends(track, scale, steps);
        InTurnCounts(track.notes, c, k, releases);
        EarlyNotes(track.notes, after, c, k, counted, i);
        RankSame(track.notes, after, c, k, i);
        StepTouches(track, scale, steps[0], c, k, releases, i);
      }
      TurnedEarlier(track.notes, next.notes, after, track.tick, scale, steps, c, k, releases, counts, i);
    }
  }

  // The i-th note ends when the release comes that counts as many-th as the note is of its channel and key, or with its
  // own track when none does, and never less than one tick after it starts.
  ghost predicate EndsInTurn(data: bytes, scale: Scale, track: Track, i: nat) {
    && i < |track.notes| && Decode(data, 0).Some?
    && var note := track.notes[i].note;
       var n := Rank(track.notes, note.channel, note.key, i);
       var release := Released(Decode(data, 0).value, 0, scale, note.channel, note.key, 0, 0, n);
       var end := release.GetOr(Scaled(track.tick, scale.source, scale.target));
       note.start + note.duration == Max(end, note.start + 1)
  }

  /** First in, first out: in every accepted track, the n-th note of a channel and key ends when the release that
      counts n-th comes, or with its own track when none does, and never less than one tick after it starts. */
  lemma {:induction false} FirstInFirstOut(data: bytes, scale: Scale, i: nat)
    requires ParseTrack(data, scale).Some? && i < |ParseTrack(data, scale).value.notes|
    ensures EndsInTurn(data, scale, ParseTrack(data, scale).value, i)
  {
    RunIsDecodeThenPlay(START, scale, data, 0);
    var steps := Decode(data, 0).value;
    var run := RunSteps(START, scale, steps).value;
    var track := ParseTrack(data, scale).value;
    var note := track.notes[i].note;
    RankSame(run.notes, track.notes, note.channel, note.key, i);
    Turns(START, scale, steps, note.channel, note.key, 0, i);
  }
}
