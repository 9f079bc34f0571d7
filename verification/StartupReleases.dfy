/** What happens around every release of the mute: which events stand just before and just after it, what follows one
    that comes after a failed restore, and what a success ends with. */
module StartupReleases {
  import opened Wrappers
  import opened StartupRules

  // The event is what this answer of the world comes to.
  predicate Tells(event: Event, answer: Answer) {
    match event
    case SawGeneration(g) => g == answer.generation
    case Chose(g) => g == answer.generation
    case SawStatus(reached, status) => reached == answer.reached && (status.Some? ==> reached.Some?)
    case Restored(_, reached, ok) => reached == answer.reached && (ok ==> reached.Some?)
    case Unmuted(reached, ok) => reached == answer.reached && (ok ==> reached.Some?)
    case Completed(g, accepted) => accepted ==> g == answer.generation && !answer.terminated
    case _ => true
  }

  // The events from one log to a longer one tell what the world answers.
  ghost predicate Extends(world: World, a: seq<Event>, b: seq<Event>) {
    a <= b && forall k :: |a| <= k < |b| ==> Tells(b[k], world(k))
  }

  // No release among the events of a log from a place on.
  predicate NoRelease(log: seq<Event>, from: nat) {
    forall k :: from <= k < |log| ==> !log[k].Unmuted?
  }

  ghost predicate Calm(world: World, a: seq<Event>, b: seq<Event>) {
    Extends(world, a, b) && NoRelease(b, |a|)
  }

  lemma {:induction false} ExtendsNext(world: World, a: seq<Event>, b: seq<Event>, event: Event)
    requires Extends(world, a, b) && Tells(event, world(|b|))
    ensures Extends(world, a, b + [event])
    ensures NoRelease(b, |a|) && !event.Unmuted? ==> NoRelease(b + [event], |a|)
  {
  }

  lemma {:induction false} ExtendsOn(world: World, a: seq<Event>, b: seq<Event>, c: seq<Event>)
    requires Extends(world, a, b) && Extends(world, b, c)
    ensures Extends(world, a, c)
    ensures NoRelease(b, |a|) && NoRelease(c, |b|) ==> NoRelease(c, |a|)
  {
  }

  lemma {:induction false} TransitionedCalm(world: World, log: seq<Event>, generation: nat)
    ensures Calm(world, log, Transitioned(world, log, generation).log)
  {
  }

  lemma {:induction false} SafetyGenerationCalm(world: World, log: seq<Event>, generation: nat)
    ensures Calm(world, log, SafetyGeneration(world, log, generation).log)
  {
    var ready := world(|log|);
    var waited := log + [BecameReady(generation, ready.ok)];
    var seen := waited + [SawGeneration(world(|waited|).generation)];
    var answer := world(|seen|);
    var read := seen + [SawStatus(answer.reached, answer.Reported())];
    ExtendsNext(world, log, log, BecameReady(generation, ready.ok));
    ExtendsNext(world, log, waited, SawGeneration(world(|waited|).generation));
    ExtendsNext(world, log, seen, SawStatus(answer.reached, answer.Reported()));
    ExtendsNext(world, log, read, SawGeneration(world(|read|).generation));
  }

  lemma {:induction false} SafetyPassCalm(world: World, log: seq<Event>, retries: nat, last: Option<nat>)
    ensures Calm(world, log, SafetyPass(world, log, retries, last).log)
  {
    hide SafetyGeneration, Extends, NoRelease;
    var generation := world(|log|).generation;
    var seen := log + [SawGeneration(generation)];
    LogCalm(world, log);
    ExtendsNext(world, log, log, SawGeneration(generation));
    SafetyGenerationCalm(world, seen, generation);
    var tried := SafetyGeneration(world, seen, generation);
    ExtendsOn(world, log, seen, tried.log);
    match tried.result
    case Safe(_) => ExtendsNext(world, log, tried.log, SawGeneration(world(|tried.log|).generation));
    case Unsafe(error, _) =>
      var current := SawGeneration(world(|tried.log|).generation);
      ExtendsNext(world, log, tried.log, current);
      var looked := tried.log + [current];
      ExtendsNext(world, log, looked, SawTermination(generation, world(|looked|).terminated));
      var wait := ShouldWait(world, tried.log, error, generation);
      ExtendsNext(world, log, wait.log, WaitedForNext(generation, world(|wait.log|).ok));
  }

  lemma {:induction false} LogCalm(world: World, log: seq<Event>)
    ensures Calm(world, log, log)
  {
  }

  lemma {:induction false} AudioSafetyCalm(world: World, log: seq<Event>, patience: nat, retries: nat,
                                           last: Option<nat>)
    ensures Calm(world, log, AudioSafety(world, log, patience, retries, last).log)
    decreases patience
  {
    hide SafetyPass, Extends, NoRelease;
    LogCalm(world, log);
    if patience > 0 {
      SafetyPassCalm(world, log, retries, last);
      var pass := SafetyPass(world, log, retries, last);
      if pass.result.Retry? {
        AudioSafetyCalm(world, pass.log, patience - 1, pass.result.retries, Some(pass.result.generation));
        ExtendsOn(world, log, pass.log, AudioSafety(world, log, patience, retries, last).log);
      }
    }
  }

  // The generation is seen alive at place k.
  predicate AliveAt(log: seq<Event>, k: nat, generation: nat) {
    k + 1 < |log| && log[k] == SawGeneration(generation) && log[k + 1] == SawTermination(generation, false)
  }

  // A release at place n comes right after a capture and a sight of its generation, and
  // these right after the restore, which failed or was followed by a sight of the same one.
  predicate ReleasedAt(log: seq<Event>, n: nat) {
    && 6 <= n < |log| && log[n].Unmuted?
    && log[n - 1].SawTermination? && AliveAt(log, n - 2, log[n - 1].generation) && log[n - 3].Captured?
    && if log[n - 4].Restored? then !log[n - 4].ok
       else log[n - 6].Restored? && log[n - 6].ok && AliveAt(log, n - 5, log[n - 1].generation)
  }

  // The same generation is seen alive right after the release at place n.
  predicate AliveAfter(log: seq<Event>, n: nat)
    requires ReleasedAt(log, n)
  {
    AliveAt(log, n + 1, log[n - 1].generation)
  }

  // The place behind the questions asked after the release at place n to see the same generation alive.
  function Past(log: seq<Event>, n: nat): nat
    requires ReleasedAt(log, n)
  {
    if n + 1 < |log| && log[n + 1] == SawGeneration(log[n - 1].generation) then n + 3 else n + 2
  }

  predicate Looked(log: seq<Event>, n: nat) {
    n + 1 < |log| && log[n + 1].SawGeneration?
  }

  lemma {:induction false} RestoreShape(world: World, log: seq<Event>, target: Target, generation: nat)
    ensures var asked := Restore(world, log, target, generation);
      && Calm(world, log, asked.log)
      && (asked.result.RuntimeFailed? ==>
            |asked.log| == |log| + 3 && asked.log[|log| + 2].Restored? && !asked.log[|log| + 2].ok)
      && (asked.result.RuntimeRestored? ==>
            && |asked.log| == |log| + 5 && asked.log[|log| + 2].Restored? && asked.log[|log| + 2].ok
            && AliveAt(asked.log, |log| + 3, generation))
  {
    hide Extends, NoRelease;
    TransitionedCalm(world, log, generation);
    var first := Transitioned(world, log, generation);
    if !first.result {
      var answer := world(|first.log|);
      var restored := Restored(target, answer.reached, answer.Done());
      ExtendsNext(world, log, first.log, restored);
      TransitionedCalm(world, first.log + [restored], generation);
      ExtendsOn(world, log, first.log + [restored], Transitioned(world, first.log + [restored], generation).log);
    }
  }

  // What the questions after the release at place n come to.
  predicate ReleaseEnds(log: seq<Event>, n: nat, generation: nat, result: ReleaseResult) {
    && n < |log| && log[n].Unmuted? && NoRelease(log, n + 1)
    && if !log[n].ok then |log| == n + 1 && result.FeatureFailed?
       else
         && Looked(log, n)
         && if AliveAt(log, n + 1, generation) then
              |log| == n + 4 && log[n + 3].SawStatus? && (result.Released? || result.FeatureFailed?)
            else
              && |log| == (if log[n + 1] == SawGeneration(generation) then n + 3 else n + 2)
              && result.NewGeneration?
  }

  lemma {:induction false} TransitionedShape(world: World, log: seq<Event>, generation: nat)
    ensures var asked := Transitioned(world, log, generation);
      && Calm(world, log, asked.log) && |asked.log| > |log| && asked.log[|log|].SawGeneration?
      && |asked.log| == (if asked.log[|log|] == SawGeneration(generation) then |log| + 2 else |log| + 1)
      && AliveAt(asked.log, |log|, generation) == !asked.result
  {
  }

  lemma {:induction false} ReleaseShape(world: World, log: seq<Event>, generation: nat, muted: Status)
    ensures var asked := Release(world, log, generation, muted);
      && Extends(world, log, asked.log)
      && if NoRelease(asked.log, |log|) then !asked.result.Released? && !asked.result.NewTarget?
         else AliveAt(asked.log, |log|, generation) && ReleaseEnds(asked.log, |log| + 2, generation, asked.result)
  {
    hide Extends, Transitioned;
    TransitionedShape(world, log, generation);
    var first := Transitioned(world, log, generation);
    if !first.result && SafeForRestore(muted) {
      var answer := world(|first.log|);
      var unmuted := first.log + [Unmuted(answer.reached, answer.Done())];
      ExtendsNext(world, log, first.log, Unmuted(answer.reached, answer.Done()));
      if answer.Done() {
        TransitionedShape(world, unmuted, generation);
        var second := Transitioned(world, unmuted, generation);
        ExtendsOn(world, log, unmuted, second.log);
        PrefixOf(world, unmuted, second.log);
        var last := world(|second.log|);
        ExtendsNext(world, log, second.log, SawStatus(last.reached, last.Reported()));
      }
      assert Release(world, log, generation, muted).log[|log| + 2] == Unmuted(answer.reached, answer.Done());
    }
  }

  lemma {:induction false} PrefixOf(world: World, a: seq<Event>, b: seq<Event>)
    requires Extends(world, a, b)
    ensures a <= b
  {
  }

  lemma {:induction false} ReleaseForTargetShape(world: World, log: seq<Event>, target: Target, generation: nat,
                                                 muted: Status)
    ensures var asked := ReleaseForTarget(world, log, target, generation, muted);
      && Extends(world, log, asked.log)
      && if NoRelease(asked.log, |log|) then !asked.result.Released?
         else
           && ReleaseEnds(asked.log, |log| + 3, generation, asked.result)
           && asked.log[|log|].Captured? && AliveAt(asked.log, |log| + 1, generation)
  {
    hide Release, Tells;
    var current := world(|log|).target;
    LogCalm(world, log);
    ExtendsNext(world, log, log, Captured(current));
    var captured := log + [Captured(current)];
    if current.Some? && TargetsMatch(current.value, target) {
      ReleaseShape(world, captured, generation, muted);
      ExtendsOn(world, log, captured, Release(world, captured, generation, muted).log);
    }
  }

  predicate Succeeds(result: Result) {
    result.Started? && !result.error
  }

  predicate Fails(result: Result) {
    result.Started? && result.error
  }

  // What the release at place n comes to for the attempt it is made in.
  predicate AttemptEnds(log: seq<Event>, n: nat, result: Outcome) {
    && ReleasedAt(log, n)
    && if !log[n].ok then |log| == n + 2 && log[n + 1].GaveUp? && result.Answered? && Fails(result.result)
       else
         && Looked(log, n)
         && if AliveAfter(log, n) then
              && |log| == n + 5 && log[n + 3].SawStatus?
              && if log[n + 4].Completed? then
                   && !log[n - 4].Restored? && log[n + 4].generation == log[n - 1].generation
                   && if log[n + 4].accepted then result.Answered? && Succeeds(result.result)
                      else result.Again? && result.anew
                 else log[n + 4].GaveUp? && result.Answered? && Fails(result.result)
            else |log| == Past(log, n) && result.Again? && result.anew
  }

  // At most one release in the attempt, at place n if that is a place in the log.
  ghost predicate AttemptGoes(world: World, log: seq<Event>, asked: Asked<Outcome>, n: nat) {
    && Extends(world, log, asked.log)
    && if n < |asked.log| then
         && |log| <= n && AttemptEnds(asked.log, n, asked.result)
         && forall k :: |log| <= k < |asked.log| && asked.log[k].Unmuted? ==> k == n
       else NoRelease(asked.log, |log|) && (asked.result.Answered? ==> !Succeeds(asked.result.result))
  }

  // A log that ends with a restore, and its success.
  predicate RestoreEnds(log: seq<Event>, ok: bool, generation: nat) {
    |log| > 2 &&
    if ok then log[|log| - 3].Restored? && log[|log| - 3].ok && AliveAt(log, |log| - 2, generation)
    else log[|log| - 1].Restored? && !log[|log| - 1].ok
  }

  lemma {:induction false} ReleasedAfterRestore(before: seq<Event>, log: seq<Event>, ok: bool, generation: nat)
    requires before <= log && RestoreEnds(before, ok, generation) && |before| > 2
    requires |before| + 3 < |log| && log[|before| + 3].Unmuted?
    requires log[|before|].Captured? && AliveAt(log, |before| + 1, generation)
    ensures var n := |before| + 3;
      ReleasedAt(log, n) && log[n - 1].generation == generation && (ok ==> !log[n - 4].Restored?)
  {
    var n := |before| + 3;
    assert log[n - 4] == before[|before| - 1] && log[n - 6] == before[|before| - 3];
    assert log[n - 5] == before[|before| - 2];
  }

  // The last event of an attempt, after its release.
  lemma {:induction false} AttemptEnding(log: seq<Event>, n: nat, released: ReleaseResult, event: Event,
                                         result: Outcome)
    requires ReleasedAt(log, n) && ReleaseEnds(log, n, log[n - 1].generation, released)
    requires !event.Unmuted? && !released.NewGeneration?
    requires if event.Completed? then
               && released.Released? && !log[n - 4].Restored? && event.generation == log[n - 1].generation
               && if event.accepted then result.Answered? && Succeeds(result.result) else result.Again? && result.anew
             else event.GaveUp? && result.Answered? && Fails(result.result)
    ensures AttemptEnds(log + [event], n, result)
  {
  }

  lemma {:induction false} ReleasedIn(log: seq<Event>, n: nat, generation: nat, result: ReleaseResult)
    requires ReleaseEnds(log, n, generation, result)
    ensures n < |log| && log[n].Unmuted? && NoRelease(log, n + 1) && !result.NewTarget?
  {
  }

  lemma {:induction false} AttemptStops(log: seq<Event>, n: nat, released: ReleaseResult, result: Outcome)
    requires ReleasedAt(log, n) && ReleaseEnds(log, n, log[n - 1].generation, released)
    requires released.NewGeneration? && result.Again? && result.anew
    ensures AttemptEnds(log, n, result)
  {
  }

  // An attempt from the end of its restore on.
  lemma {:induction false} ReleaseGoes(world: World, log: seq<Event>, target: Target, generation: nat, status: Status,
                                       ok: bool, asked: Asked<Outcome>) returns (n: nat)
    requires RestoreEnds(log, ok, generation)
    requires var released := ReleaseForTarget(world, log, target, generation, status);
      if released.result.NewGeneration? || released.result.NewTarget? then
        asked.log == released.log && asked.result.Again? && asked.result.anew == released.result.NewGeneration?
      else
        && |asked.log| == |released.log| + 1 && released.log <= asked.log
        && var event := asked.log[|released.log|];
           if ok && released.result.Released? then
             && event == Completed(generation, world(|released.log|).Completes(generation))
             && if event.accepted then asked.result.Answered? && Succeeds(asked.result.result)
                else asked.result.Again? && asked.result.anew
           else event.GaveUp? && asked.result.Answered? && Fails(asked.result.result)
    ensures AttemptGoes(world, log, asked, n)
  {
    hide ReleaseForTarget, Tells, ReleaseEnds, ReleasedAt, AttemptEnds;
    n := |asked.log|;
    ReleaseForTargetShape(world, log, target, generation, status);
    var released := ReleaseForTarget(world, log, target, generation, status);
    if asked.log != released.log {
      var event := asked.log[|released.log|];
      assert asked.log == released.log + [event];
      assert Tells(event, world(|released.log|)) by { Finishes(event, world(|released.log|), generation); }
      ExtendsNext(world, log, released.log, event);
    }
    if !NoRelease(released.log, |log|) {
      n := |log| + 3;
      ReleasedIn(released.log, n, generation, released.result);
      ReleasedAfterRestore(log, released.log, ok, generation);
      if asked.log == released.log {
        AttemptStops(asked.log, n, released.result, asked.result);
      } else {
        AttemptEnding(released.log, n, released.result, asked.log[|released.log|], asked.result);
      }
    }
  }

  lemma {:induction false} Finishes(event: Event, answer: Answer, generation: nat)
    requires event.GaveUp? || event == Completed(generation, answer.Completes(generation))
    ensures Tells(event, answer)
  {
  }

  lemma {:induction false} ProceedGoes(world: World, log: seq<Event>, target: Target, status: Status) returns (n: nat)
    ensures AttemptGoes(world, log, Proceed(world, log, target, status), n)
  {
    hide Restore, ReleaseForTarget, AttemptGoes;
    var asked := Proceed(world, log, target, status);
    LogCalm(world, log);
    var generation := world(|log|).generation;
    var chosen := log + [Chose(generation)];
    ExtendsNext(world, log, log, Chose(generation));
    RestoreShape(world, chosen, target, generation);
    var restored := Restore(world, chosen, target, generation);
    ExtendsOn(world, log, chosen, restored.log);
    if restored.result.SidecarChanged? {
      n := |asked.log|;
      AttemptQuietly(world, log, asked);
    } else {
      n := ReleaseGoes(world, restored.log, target, generation, status, restored.result.RuntimeRestored?, asked);
      GoesAfter(world, log, restored.log, asked, n);
    }
  }

  lemma {:induction false} GoesAfter(world: World, a: seq<Event>, b: seq<Event>, asked: Asked<Outcome>, n: nat)
    requires Calm(world, a, b) && AttemptGoes(world, b, asked, n)
    ensures AttemptGoes(world, a, asked, n)
  {
    hide Tells, AttemptEnds;
    ExtendsOn(world, a, b, asked.log);
  }

  lemma {:induction false} AttemptQuietly(world: World, log: seq<Event>, asked: Asked<Outcome>)
    requires Calm(world, log, asked.log) && (asked.result.Answered? ==> !Succeeds(asked.result.result))
    ensures AttemptGoes(world, log, asked, |asked.log|)
  {
  }

  lemma {:induction false} TryGoes(world: World, log: seq<Event>, patience: nat) returns (n: nat)
    ensures AttemptGoes(world, log, Attempt(world, log, patience), n)
  {
    hide Extends, NoRelease, AudioSafety, Proceed, AttemptGoes, Tells;
    var asked := Attempt(world, log, patience);
    n := |asked.log|;
    LogCalm(world, log);
    var stop := SawShutdown(world(|log|).shutdown);
    Told(stop, log, world);
    ExtendsNext(world, log, log, stop);
    var begun := log + [stop];
    Told(GaveUp, begun, world);
    ExtendsNext(world, log, begun, GaveUp);
    if !stop.requested {
      var target := world(|begun|).target;
      var captured := begun + [Captured(target)];
      Told(Captured(target), begun, world);
      ExtendsNext(world, log, begun, Captured(target));
      Told(GaveUp, captured, world);
      ExtendsNext(world, log, captured, GaveUp);
      if target.Some? {
        AudioSafetyCalm(world, captured, patience, 0, None);
        var safety := AudioSafety(world, captured, patience, 0, None);
        ExtendsOn(world, log, captured, safety.log);
        Told(GaveUp, safety.log, world);
        ExtendsNext(world, log, safety.log, GaveUp);
        if safety.result.Some? && SafeForRestore(safety.result.value) {
          n := ProceedGoes(world, safety.log, target.value, safety.result.value);
          GoesAfter(world, log, safety.log, asked, n);
          return;
        }
      }
    }
    AttemptQuietly(world, log, asked);
  }

  lemma {:induction false} Told(event: Event, log: seq<Event>, world: World)
    requires event.SawShutdown? || event.Captured? || event.GaveUp?
    ensures Tells(event, world(|log|)) && !event.Unmuted?
  {
  }

  lemma {:induction false} TriesGo(world: World, log: seq<Event>, patience: nat, left: nat, last: Option<Status>)
      returns (n: nat)
    ensures AttemptGoes(world, log, Attempts(world, log, patience, left, last), n)
    decreases left
  {
    hide Tells, Attempt, ReleasedAt;
    if left == 0 {
      LogCalm(world, log);
      ExtendsNext(world, log, log, GaveUp) by { Told(GaveUp, log, world); }
      n := |log| + 1;
    } else {
      n := TryGoes(world, log, patience);
      var tried := Attempt(world, log, patience);
      if tried.result.Again? && !tried.result.anew {
        n := TriesGo(world, tried.log, patience, left - 1, tried.result.last);
        GoesAfter(world, log, tried.log, Attempts(world, log, patience, left, last), n);
      }
    }
  }

  // The run goes on at place p with another generation, or is given up there without an answer.
  predicate GoesOn(log: seq<Event>, result: Result, p: nat) {
    p < |log| && (log[p].SawShutdown? || (|log| == p + 1 && log[p].GaveUp? && result.Fatal?))
  }

  // What the release at place n comes to for the whole run.
  predicate Settled(log: seq<Event>, result: Result, n: nat) {
    && ReleasedAt(log, n)
    && if !log[n].ok then |log| == n + 2 && log[n + 1].GaveUp? && Fails(result)
       else
         && Looked(log, n)
         && (log[n - 4].Restored? ==>
               if AliveAfter(log, n) then |log| == n + 5 && log[n + 3].SawStatus? && log[n + 4].GaveUp? && Fails(result)
               else GoesOn(log, result, Past(log, n)))
  }

  // The last six events of a success, and the six before its release.
  predicate EndsWell(log: seq<Event>) {
    && |log| >= 11
    && var n := |log| - 5;
       && ReleasedAt(log, n) && log[n].ok && !log[n - 4].Restored? && AliveAfter(log, n)
       && log[n + 3].SawStatus? && log[n + 4] == Completed(log[n - 1].generation, true)
  }

  ghost predicate RunGoes(world: World, log: seq<Event>, run: Asked<Result>) {
    && Extends(world, log, run.log) && GoesOn(run.log, run.result, |log|)
    && (forall n :: |log| <= n < |run.log| && run.log[n].Unmuted? ==> Settled(run.log, run.result, n))
    && (Succeeds(run.result) ==> EndsWell(run.log))
  }

  lemma {:induction false} SettledNow(log: seq<Event>, n: nat, result: Result)
    requires AttemptEnds(log, n, Answered(result))
    ensures Settled(log, result, n) && (Succeeds(result) ==> EndsWell(log))
  {
  }

  lemma {:induction false} SettledLater(a: seq<Event>, n: nat, outcome: Outcome, b: seq<Event>, result: Result)
    requires AttemptEnds(a, n, outcome) && outcome.Again? && a <= b && GoesOn(b, result, |a|)
    ensures Settled(b, result, n)
  {
    assert ReleasedAt(b, n);
  }

  lemma {:induction false} GenerationsGo(world: World, log: seq<Event>, patience: nat, left: nat)
    ensures RunGoes(world, log, Generations(world, log, patience, left))
    decreases left
  {
    hide Tells, Attempts, AttemptEnds, Settled, EndsWell;
    LogCalm(world, log);
    var run := Generations(world, log, patience, left);
    Told(GaveUp, log, world);
    ExtendsNext(world, log, log, GaveUp);
    if left > 0 {
      var stop := SawShutdown(world(|log|).shutdown);
      var asked := log + [stop];
      Told(stop, log, world);
      ExtendsNext(world, log, log, stop);
      Told(GaveUp, asked, world);
      ExtendsNext(world, log, asked, GaveUp);
      if !stop.requested {
        var n := TriesGo(world, asked, patience, TARGET_RETRY_LIMIT, None);
        var tried := Attempts(world, asked, patience, TARGET_RETRY_LIMIT, None);
        ExtendsOn(world, log, asked, tried.log);
        if tried.result.Again? {
          GenerationsGo(world, tried.log, patience, left - 1);
          ExtendsOn(world, log, tried.log, run.log);
          if n < |tried.log| {
            SettledLater(tried.log, n, tried.result, run.log, run.result);
          }
        } else if n < |tried.log| {
          SettledNow(tried.log, n, tried.result.result);
        }
      }
    }
  }

  /** Every event of a run tells what the world answered. */
  lemma {:induction false} RunTells(world: World, patience: nat)
    ensures Extends(world, [], InitializeRuntime(world, patience).log)
  {
    hide Generations, Tells;
    GenerationsGo(world, [], patience, GENERATION_RETRY_LIMIT);
  }

  // The last restore before place n failed.
  ghost predicate FailedBefore(log: seq<Event>, n: nat) {
    exists r: nat :: r < n <= |log| && log[r].Restored? && !log[r].ok && forall k :: r < k < n ==> !log[k].Restored?
  }

  // The run ends in the attempt of place n, with an error.
  predicate EndsHere(log: seq<Event>, n: nat, result: Result) {
    Fails(result) && forall k :: n < k < |log| ==> !log[k].SawShutdown?
  }

  lemma {:induction false} RestoredWell(log: seq<Event>, n: nat, r: nat)
    requires ReleasedAt(log, n) && !log[n - 4].Restored? && r < n && log[r].Restored? && !log[r].ok
    ensures exists k :: r < k < n && log[k].Restored?
  {
    assert log[n - 6].Restored? && log[n - 5].SawGeneration? && r < n - 6;
  }

  /** After a failed restore and a release of the mute that was answered well, the attempt ends in an error if and only
      if the look and the sign of life that follow find the same generation alive. Otherwise the run goes on with
      another generation, and may end without an error, or it gives up because no generation is left to try. */
  lemma {:induction false} BareReleaseDecides(world: World, patience: nat, n: nat)
    requires var log := InitializeRuntime(world, patience).log;
      n < |log| && log[n].Unmuted? && log[n].ok && FailedBefore(log, n)
    ensures var run := InitializeRuntime(world, patience);
      && ReleasedAt(run.log, n)
      && (AliveAfter(run.log, n) <==> EndsHere(run.log, n, run.result))
      && (!AliveAfter(run.log, n) ==> GoesOn(run.log, run.result, Past(run.log, n)))
  {
    hide Generations, Tells;
    GenerationsGo(world, [], patience, GENERATION_RETRY_LIMIT);
    var run := InitializeRuntime(world, patience);
    var log := run.log;
    var r: nat :| r < n <= |log| && log[r].Restored? && !log[r].ok && forall k :: r < k < n ==> !log[k].Restored?;
    assert Settled(log, run.result, n);
    if !log[n - 4].Restored? {
      RestoredWell(log, n, r);
    }
  }

  /** When startup reports no error, its last five events are a release of the mute answered well, the same generation
      seen alive again, a status, and the completion of that generation; the restore before it was answered well. */
  lemma {:induction false} SuccessEndsWell(world: World, patience: nat)
    requires Succeeds(InitializeRuntime(world, patience).result)
    ensures EndsWell(InitializeRuntime(world, patience).log)
  {
    hide Generations, Tells;
    GenerationsGo(world, [], patience, GENERATION_RETRY_LIMIT);
  }
}
