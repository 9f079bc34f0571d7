/** Whole runs that break the promise of startup, in worlds whose generations never fall: the sidecar is replaced once,
    or refuses one restore, and answers everything else well. */
module StartupRuns {
  import opened Wrappers
  import opened StartupPromise
  import opened StartupReleases
  import opened StartupRules

  const TARGET: Target := Target("project", 1, 1)
  const MUTED: Status := Status(Muted, false)

  function Fine(generation: nat): Answer {
    Answer(false, Some(TARGET), generation, false, true, Refused, Some(generation), Some(MUTED))
  }

  // Generation 1 for the questions before `change` and generation 2 from then on; the
  // question at `refused` is answered badly, which for the first one means nothing.
  function Moving(change: nat, refused: nat, n: nat): Answer {
    var fine := Fine(if n < change then 1 else 2);
    if n == refused then fine.(ok := false) else fine
  }

  function Moved(change: nat, refused: nat): World {
    (n: nat) => Moving(change, refused, n)
  }

  lemma {:induction false} MovedIsOrderly(change: nat, refused: nat)
    ensures Orderly(Moved(change, refused))
  {
    var world := Moved(change, refused);
    assert forall n: nat :: world(n) == Moving(change, refused, n);
  }

  ghost predicate Steady(world: World, from: nat, to: nat, generation: nat) {
    forall k :: from <= k < to ==> world(k) == Fine(generation)
  }

  function Sight(g: nat): seq<Event> {
    [SawGeneration(g), SawTermination(g, false)]
  }

  // From the beginning of an attempt to the end of the safety check.
  function Beginning(g: nat): seq<Event> {
    [SawShutdown(false), Captured(Some(TARGET)), SawGeneration(g), BecameReady(g, true), SawGeneration(g),
     SawStatus(Some(g), Some(MUTED)), SawGeneration(g), SawGeneration(g)]
  }

  function Restoring(g: nat): seq<Event> {
    Sight(g) + [Restored(TARGET, Some(g), true)] + Sight(g)
  }

  function Refusal(g: nat): seq<Event> {
    Sight(g) + [Restored(TARGET, Some(g), false)]
  }

  // The release of the mute, sent with generation g chosen and reaching generation h.
  function Releasing(g: nat, h: nat): seq<Event> {
    [Captured(Some(TARGET))] + Sight(g) + [Unmuted(Some(h), true)]
  }

  function Confirming(g: nat): seq<Event> {
    Sight(g) + [SawStatus(Some(g), Some(MUTED))]
  }

  // An attempt that succeeds, and one whose generation is replaced while it releases the mute.
  function Success(checked: nat, g: nat): seq<Event> {
    Beginning(checked) + [Chose(g)] + Restoring(g) + Releasing(g, g) + Confirming(g) + [Completed(g, true)]
  }

  // The safety check asks four questions of the generation it has looked at.
  function Checking(g: nat): seq<Event> {
    [BecameReady(g, true), SawGeneration(g), SawStatus(Some(g), Some(MUTED)), SawGeneration(g)]
  }

  lemma {:induction false} ChecksWell(world: World, log: seq<Event>, g: nat)
    requires Steady(world, |log|, |log| + 4, g)
    ensures SafetyGeneration(world, log, g) == Asked(log + Checking(g), Safe(MUTED))
  {
    var waited := log + [BecameReady(g, true)];
    var seen := waited + [SawGeneration(g)];
    var read := seen + [SawStatus(Some(g), Some(MUTED))];
    assert read + [SawGeneration(g)] == log + Checking(g);
  }

  lemma {:induction false} SafeAtOnce(world: World, log: seq<Event>, g: nat)
    requires Steady(world, |log|, |log| + 6, g)
    ensures AudioSafety(world, log, 1, 0, None) ==
            Asked(log + [SawGeneration(g)] + Checking(g) + [SawGeneration(g)], Some(MUTED))
  {
    hide SafetyGeneration;
    ChecksWell(world, log + [SawGeneration(g)], g);
  }

  lemma {:induction false} Begins(world: World, log: seq<Event>, g: nat)
    requires Steady(world, |log|, |log| + 8, g)
    ensures Attempt(world, log, 1) == Proceed(world, log + Beginning(g), TARGET, MUTED)
  {
    hide AudioSafety, Proceed;
    var asked := log + [SawShutdown(false)];
    var captured := asked + [Captured(Some(TARGET))];
    SafeAtOnce(world, captured, g);
    assert captured + [SawGeneration(g)] + Checking(g) + [SawGeneration(g)] == log + Beginning(g);
  }

  lemma {:induction false} Sighted(world: World, log: seq<Event>, g: nat)
    requires Steady(world, |log|, |log| + 2, g)
    ensures Transitioned(world, log, g) == Asked(log + Sight(g), false)
  {
    assert log + [SawGeneration(g)] + [SawTermination(g, false)] == log + Sight(g);
  }

  lemma {:induction false} RestoredWell(world: World, log: seq<Event>, g: nat)
    requires Steady(world, |log|, |log| + 5, g)
    ensures Restore(world, log, TARGET, g) == Asked(log + Restoring(g), RuntimeRestored)
  {
    hide Transitioned;
    Sighted(world, log, g);
    var restored := log + Sight(g) + [Restored(TARGET, Some(g), true)];
    Sighted(world, restored, g);
    assert restored + Sight(g) == log + Restoring(g);
  }

  lemma {:induction false} RestoredBadly(world: World, log: seq<Event>, g: nat)
    requires Steady(world, |log|, |log| + 2, g) && world(|log| + 2) == Fine(g).(ok := false)
    ensures Restore(world, log, TARGET, g) == Asked(log + Refusal(g), RuntimeFailed)
  {
    hide Transitioned;
    Sighted(world, log, g);
    assert log + Sight(g) + [Restored(TARGET, Some(g), false)] == log + Refusal(g);
  }

  lemma {:induction false} ReleasedWell(world: World, log: seq<Event>, g: nat)
    requires Steady(world, |log|, |log| + 7, g)
    ensures ReleaseForTarget(world, log, TARGET, g, MUTED) ==
            Asked(log + Releasing(g, g) + Confirming(g), Released(MUTED))
  {
    hide Transitioned;
    var captured := log + [Captured(Some(TARGET))];
    Sighted(world, captured, g);
    var unmuted := captured + Sight(g) + [Unmuted(Some(g), true)];
    assert unmuted == log + Releasing(g, g);
    Sighted(world, unmuted, g);
    assert unmuted + Sight(g) + [SawStatus(Some(g), Some(MUTED))] == log + Releasing(g, g) + Confirming(g);
  }

  // The generation is another one when it is looked at after the release.
  lemma {:induction false} ReleasedAndReplaced(world: World, log: seq<Event>, g: nat, reached: nat, h: nat)
    requires Steady(world, |log|, |log| + 3, g) && g != h
    requires world(|log| + 3) == Fine(reached) && world(|log| + 4) == Fine(h)
    ensures ReleaseForTarget(world, log, TARGET, g, MUTED) ==
            Asked(log + Releasing(g, reached) + [SawGeneration(h)], NewGeneration)
  {
    var captured := log + [Captured(Some(TARGET))];
    Sighted(world, captured, g);
    var unmuted := captured + Sight(g) + [Unmuted(Some(reached), true)];
    assert unmuted == log + Releasing(g, reached);
  }

  lemma {:induction false} Succeeding(world: World, log: seq<Event>, checked: nat, g: nat)
    requires Steady(world, |log|, |log| + 8, checked) && Steady(world, |log| + 8, |log| + 22, g)
    ensures Attempt(world, log, 1) == Asked(log + Success(checked, g), Answered(Started(Some(MUTED), false)))
  {
    hide Restore, ReleaseForTarget, Attempt;
    Begins(world, log, checked);
    var begun := log + Beginning(checked);
    var chosen := begun + [Chose(g)];
    RestoredWell(world, chosen, g);
    ReleasedWell(world, chosen + Restoring(g), g);
    var released := chosen + Restoring(g) + Releasing(g, g) + Confirming(g);
    assert released + [Completed(g, true)] == log + Success(checked, g);
  }

  // A run that begins like this, and fails for the generation of its first attempt.
  lemma {:induction false} SecondGeneration(world: World, first: seq<Event>, last: Option<Status>)
    requires |first| > 0 && !world(0).shutdown
    requires Attempt(world, [SawShutdown(false)], 1) == Asked(first, Again(true, last))
    requires Steady(world, |first|, |first| + 23, 2)
    ensures InitializeRuntime(world, 1) ==
            Asked(first + [SawShutdown(false)] + Success(2, 2), Started(Some(MUTED), false))
  {
    hide Attempt;
    assert [] + [SawShutdown(false)] == [SawShutdown(false)];
    assert Attempts(world, [SawShutdown(false)], 1, 3, None) == Asked(first, Again(true, last));
    Succeeding(world, first + [SawShutdown(false)], 2, 2);
    assert Generations(world, first, 1, 2) ==
           Asked(first + [SawShutdown(false)] + Success(2, 2), Started(Some(MUTED), false));
  }

  lemma {:induction false} OneAttempt(world: World, log: seq<Event>, result: Result)
    requires !world(0).shutdown && Attempt(world, [SawShutdown(false)], 1) == Asked(log, Answered(result))
    ensures InitializeRuntime(world, 1) == Asked(log, result)
  {
    hide Attempt;
    assert [] + [SawShutdown(false)] == [SawShutdown(false)];
    assert Attempts(world, [SawShutdown(false)], 1, 3, None) == Asked(log, Answered(result));
  }

  /** A run that reports no error although the safe status was read in a generation other than the one unmuted: the
      sidecar is replaced between the safety check and the look at the generation that follows it. */
  lemma {:induction false} UnmutedElsewhere() returns (g: Grounds, n: nat)
    ensures Orderly(Moved(9, 0))
    ensures var run := InitializeRuntime(Moved(9, 0), 1);
      && run.result == Started(Some(MUTED), false)
      && n < |run.log| && run.log[n] == Unmuted(Some(2), true) && AreGrounds(run.log[..n], g)
      && run.log[g.status].reached == Some(1) && !KeepsPromise(run.log, g, n)
  {
    hide InitializeRuntime, Attempt, AreGrounds;
    var world := Moved(9, 0);
    MovedIsOrderly(9, 0);
    Succeeding(world, [SawShutdown(false)], 1, 2);
    var log := [SawShutdown(false)] + Success(1, 2);
    OneAttempt(world, log, Started(Some(MUTED), false));
    n := 18;
    assert log[n] == Unmuted(Some(2), true);
    g := PromiseKept(world, 1, n);
    GroundsAmong(log[..n], g);
    CheckedBefore(g.status, log[g.status]);
  }

  // Before its release the attempt has read a status of generation 1 only.
  lemma {:induction false} CheckedBefore(k: nat, event: Event)
    requires k < 18 && event == ([SawShutdown(false)] + Success(1, 2))[k]
    ensures event.SawStatus? ==> event.reached == Some(1)
  {
  }

  lemma {:induction false} GroundsAmong(log: seq<Event>, g: Grounds)
    requires AreGrounds(log, g)
    ensures g.status < |log| && log[g.status].SawStatus? && g.restore < |log| && log[g.restore].Restored?
  {
  }

  // An attempt whose generation is found replaced after the release of the mute.
  function Replaced(restoring: seq<Event>, reached: nat): seq<Event> {
    Beginning(1) + [Chose(1)] + restoring + Releasing(1, reached) + [SawGeneration(2)]
  }

  // The restore is answered well, or not.
  lemma {:induction false} ReplacedInRelease(world: World, log: seq<Event>, ok: bool, reached: nat)
    requires Steady(world, |log|, |log| + 11, 1)
    requires var answer := Fine(1).(ok := ok); world(|log| + 11) == answer
    requires var next := if ok then |log| + 14 else |log| + 12;
      Steady(world, |log| + 12, next + 3, 1) && world(next + 3) == Fine(reached) && world(next + 4) == Fine(2)
    ensures Attempt(world, log, 1) ==
            Asked(log + Replaced(if ok then Restoring(1) else Refusal(1), reached), Again(true, Some(MUTED)))
  {
    hide Restore, ReleaseForTarget, Attempt;
    Begins(world, log, 1);
    var chosen := log + Beginning(1) + [Chose(1)];
    if ok {
      RestoredWell(world, chosen, 1);
    } else {
      RestoredBadly(world, chosen, 1);
    }
    var restored := chosen + if ok then Restoring(1) else Refusal(1);
    ReleasedAndReplaced(world, restored, 1, reached, 2);
    assert restored + Releasing(1, reached) + [SawGeneration(2)] ==
           log + Replaced(if ok then Restoring(1) else Refusal(1), reached);
  }

  // Before its release the replaced attempt has reached generation 1 only.
  lemma {:induction false} ReachedBefore(k: nat, event: Event)
    requires k < 18 && event == ([SawShutdown(false)] + Replaced(Restoring(1), 2))[k]
    ensures event.SawStatus? || event.Restored? ==> event.reached == Some(1)
  {
  }

  /** A run that reports no error although it unmutes a generation in which no status was read and nothing restored: the
      sidecar is replaced between the last look at it and the request to release the mute. */
  lemma {:induction false} UnmutedTooLate() returns (g: Grounds, n: nat)
    ensures Orderly(Moved(18, 0))
    ensures var run := InitializeRuntime(Moved(18, 0), 1);
      && run.result == Started(Some(MUTED), false)
      && n < |run.log| && run.log[n] == Unmuted(Some(2), true) && AreGrounds(run.log[..n], g)
      && run.log[g.status].reached == run.log[g.restore].reached == Some(1) && !KeepsPromise(run.log, g, n)
  {
    hide InitializeRuntime, Attempt, AreGrounds;
    var world := Moved(18, 0);
    MovedIsOrderly(18, 0);
    ReplacedInRelease(world, [SawShutdown(false)], true, 2);
    var first := [SawShutdown(false)] + Replaced(Restoring(1), 2);
    SecondGeneration(world, first, Some(MUTED));
    n := 18;
    assert first[n] == Unmuted(Some(2), true) && |first| == 20;
    g := PromiseKept(world, 1, n);
    var log := InitializeRuntime(world, 1).log;
    GroundsAmong(log[..n], g);
    ReachedBefore(g.status, log[g.status]);
    ReachedBefore(g.restore, log[g.restore]);
  }

  /** A run that releases the mute after a failed restore and reports no error: the sidecar is replaced right after the
      release, and the next attempt goes well. */
  lemma {:induction false} FailureForgotten() returns (n: nat)
    ensures Orderly(Moved(17, 12))
    ensures var run := InitializeRuntime(Moved(17, 12), 1);
      && run.result == Started(Some(MUTED), false)
      && n < |run.log| && run.log[n] == Unmuted(Some(1), true) && FailedBefore(run.log, n)
  {
    hide InitializeRuntime, Attempt;
    var world := Moved(17, 12);
    MovedIsOrderly(17, 12);
    ReplacedInRelease(world, [SawShutdown(false)], false, 1);
    var first := [SawShutdown(false)] + Replaced(Refusal(1), 1);
    SecondGeneration(world, first, Some(MUTED));
    n := 16;
    RefusedFirst(first, n);
    FailedSoFar(first, InitializeRuntime(world, 1).log, n);
  }

  lemma {:induction false} RefusedFirst(log: seq<Event>, n: nat)
    requires n == 16 && [SawShutdown(false)] + Beginning(1) + [Chose(1)] + Refusal(1) + Releasing(1, 1) <= log
    ensures log[n] == Unmuted(Some(1), true) && FailedBefore(log, n)
  {
    var early := [SawShutdown(false)] + Beginning(1) + [Chose(1)] + Refusal(1) + Releasing(1, 1);
    assert log[12] == early[12] && log[13] == early[13] && log[14] == early[14] && log[15] == early[15];
    assert log[16] == early[16];
  }

  lemma {:induction false} FailedSoFar(a: seq<Event>, b: seq<Event>, n: nat)
    requires a <= b && FailedBefore(a, n)
    ensures FailedBefore(b, n)
  {
    var r: nat :| r < n <= |a| && a[r].Restored? && !a[r].ok && forall k :: r < k < n ==> !a[k].Restored?;
    assert b[r].Restored? && forall k :: r < k < n ==> b[k] == a[k];
  }

  /** A run that releases the mute after a failed restore, for a sidecar that is never replaced; it reports an error. */
  lemma {:induction false} UnmutedAfterFailure() returns (n: nat)
    ensures Orderly(Moved(100, 12))
    ensures var run := InitializeRuntime(Moved(100, 12), 1);
      && run.result == Started(Some(MUTED), true)
      && n < |run.log| && run.log[n] == Unmuted(Some(1), true) && FailedBefore(run.log, n)
  {
    hide InitializeRuntime, Attempt, Restore, ReleaseForTarget;
    var world := Moved(100, 12);
    MovedIsOrderly(100, 12);
    var begun := [SawShutdown(false)] + Beginning(1);
    Begins(world, [SawShutdown(false)], 1);
    RestoredBadly(world, begun + [Chose(1)], 1);
    var restored := begun + [Chose(1)] + Refusal(1);
    ReleasedWell(world, restored, 1);
    var log := restored + Releasing(1, 1) + Confirming(1) + [GaveUp];
    OneAttempt(world, log, Started(Some(MUTED), true));
    n := 16;
    RefusedFirst(log, n);
  }
}
