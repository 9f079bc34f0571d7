/** Starting the native audio: what is asked of the sidecar and the project, in which order, and what every run keeps.

    Startup means to keep the sidecar muted until a safe status, a restored arrangement and an unchanged target have
    been seen in one generation of the sidecar. What holds is less: the generation is read anew after the status, the
    mute is also released after a failed restore, and the request to release it names no generation, so it reaches
    whichever is ready. `StartupPromise.PromiseKept` says exactly when an unmute keeps the promise,
    `StartupReleases.BareReleaseDecides` what follows a release after a failed restore, and the module StartupRuns has
    whole runs that break the promise. */
module StartupRules {
  import opened Wrappers

  const CONTROL_RETRY_LIMIT: nat := 3
  const GENERATION_RETRY_LIMIT: nat := 3
  const TARGET_RETRY_LIMIT: nat := 3

  datatype AudioState = Ready | Muted | Starting | Offline | Faulted

  datatype Status = Status(state: AudioState, feedbackSuspected: bool)

  datatype Target = Target(projectId: string, sequence: nat, revision: nat)

  datatype SafetyError = Lost | Refused | TimedOut | Changed(actual: nat)

  // The answers one question may get; each question reads those it is about. A command names no generation: `reached`
  // is the one it was sent to, the one the status comes from or the arrangement is in place in.
  datatype Answer = Answer(shutdown: bool, target: Option<Target>, generation: nat, terminated: bool, ok: bool,
                           error: SafetyError, reached: Option<nat>, status: Option<Status>)
  {
    // A command that was answered well has reached a sidecar.
    predicate Done() {
      ok && reached.Some?
    }

    function Reported(): Option<Status> {
      if reached.Some? then status else None
    }

    predicate Completes(expected: nat) {
      ok && generation == expected && !terminated
    }
  }

  // The answer to the n-th question: the sidecar and the project behave as they like.
  type World = nat -> Answer

  // What is asked, with the answer. `Chose` is the look at the generation an attempt goes on in.
  datatype Event =
    | SawShutdown(requested: bool)
    | Captured(target: Option<Target>)
    | SawGeneration(generation: nat)
    | Chose(generation: nat)
    | SawTermination(generation: nat, terminated: bool)
    | BecameReady(generation: nat, ok: bool)
    | SawStatus(reached: Option<nat>, status: Option<Status>)
    | Restored(key: Target, reached: Option<nat>, ok: bool)
    | Unmuted(reached: Option<nat>, ok: bool)
    | Completed(generation: nat, accepted: bool)
    | WaitedForNext(generation: nat, ok: bool)
    | GaveUp

  datatype Asked<R> = Asked(log: seq<Event>, result: R)

  datatype SafetyResult = Safe(status: Status) | Unsafe(error: SafetyError, readiness: bool)

  datatype RestoreResult = RuntimeRestored | SidecarChanged | RuntimeFailed

  datatype ReleaseResult = Released(status: Status) | NewGeneration | NewTarget | FeatureFailed | SafetyFailed

  datatype Result = Fatal | Started(status: Option<Status>, error: bool)

  // An attempt answers the caller or is followed by another, in a new generation or for a new target.
  datatype Outcome = Answered(result: Result) | Again(anew: bool, last: Option<Status>)

  predicate SafeForRestore(status: Status) {
    (status.state.Ready? || status.state.Muted?) && !status.feedbackSuspected
  }

  predicate TargetsMatch(current: Target, target: Target) {
    current.projectId == target.projectId && current.sequence == target.sequence && current.revision == target.revision
  }

  function Transitioned(world: World, log: seq<Event>, generation: nat): Asked<bool> {
    var current := world(|log|).generation;
    var seen := log + [SawGeneration(current)];
    if current != generation then Asked(seen, true)
    else
      var terminated := world(|seen|).terminated;
      Asked(seen + [SawTermination(generation, terminated)], terminated)
  }

  function SafetyGeneration(world: World, log: seq<Event>, generation: nat): Asked<SafetyResult> {
    var ready := world(|log|);
    var waited := log + [BecameReady(generation, ready.ok)];
    if !ready.ok then Asked(waited, Unsafe(ready.error, true))
    else
      var before := world(|waited|).generation;
      var seen := waited + [SawGeneration(before)];
      if before != generation then Asked(seen, Unsafe(Changed(before), false))
      else
        var answer := world(|seen|);
        var status := answer.Reported();
        var read := seen + [SawStatus(answer.reached, status)];
        if status.None? then Asked(read, Unsafe(answer.error, false))
        else
          var after := world(|read|).generation;
          Asked(read + [SawGeneration(after)],
                if after != generation then Unsafe(Changed(after), false) else Safe(status.value))
  }

  function ShouldWait(world: World, log: seq<Event>, error: SafetyError, expected: nat): Asked<bool> {
    var current := world(|log|).generation;
    var seen := log + [SawGeneration(current)];
    if current != expected || error.Changed? || error.Lost? then Asked(seen, true)
    else
      var terminated := world(|seen|).terminated;
      Asked(seen + [SawTermination(expected, terminated)], terminated)
  }

  // A pass of the safety check ends it, or leaves the retries used in the generation it met.
  datatype Pass = Done(status: Option<Status>) | Retry(retries: nat, generation: nat)

  function SafetyPass(world: World, log: seq<Event>, retries: nat, last: Option<nat>): Asked<Pass> {
    var generation := world(|log|).generation;
    var retries' := if last == Some(generation) then retries else 0;
    var tried := SafetyGeneration(world, log + [SawGeneration(generation)], generation);
    match tried.result
    case Safe(status) =>
      var current := world(|tried.log|).generation;
      Asked(tried.log + [SawGeneration(current)],
            if current == generation then Done(Some(status)) else Retry(retries', generation))
    case Unsafe(error, readiness) =>
      var wait := ShouldWait(world, tried.log, error, generation);
      if wait.result then
        var next := world(|wait.log|).ok;
        Asked(wait.log + [WaitedForNext(generation, next)], if next then Retry(retries', generation) else Done(None))
      else if !readiness && error.TimedOut? && retries' < CONTROL_RETRY_LIMIT then
        Asked(wait.log, Retry(retries' + 1, generation))
      else Asked(wait.log, Done(None))
  }

  // The passes go on for as long as the generation keeps changing; `patience` bounds them here.
  function AudioSafety(world: World, log: seq<Event>, patience: nat, retries: nat,
                       last: Option<nat>): Asked<Option<Status>>
    decreases patience
  {
    if patience == 0 then Asked(log, None)
    else
      var pass := SafetyPass(world, log, retries, last);
      match pass.result
      case Done(status) => Asked(pass.log, status)
      case Retry(retries', generation) => AudioSafety(world, pass.log, patience - 1, retries', Some(generation))
  }

  function Restore(world: World, log: seq<Event>, target: Target, generation: nat): Asked<RestoreResult> {
    var first := Transitioned(world, log, generation);
    if first.result then Asked(first.log, SidecarChanged)
    else
      var answer := world(|first.log|);
      var restored := first.log + [Restored(target, answer.reached, answer.Done())];
      if !answer.Done() then Asked(restored, RuntimeFailed)
      else
        var second := Transitioned(world, restored, generation);
        Asked(second.log, if second.result then SidecarChanged else RuntimeRestored)
  }

  function Release(world: World, log: seq<Event>, generation: nat, muted: Status): Asked<ReleaseResult> {
    var first := Transitioned(world, log, generation);
    if first.result then Asked(first.log, NewGeneration)
    else if !SafeForRestore(muted) then Asked(first.log, SafetyFailed)
    else
      var answer := world(|first.log|);
      var unmuted := first.log + [Unmuted(answer.reached, answer.Done())];
      if !answer.Done() then Asked(unmuted, FeatureFailed)
      else
        var second := Transitioned(world, unmuted, generation);
        if second.result then Asked(second.log, NewGeneration)
        else
          var last := world(|second.log|);
          var status := last.Reported();
          Asked(second.log + [SawStatus(last.reached, status)],
                if status.Some? then Released(status.value) else FeatureFailed)
  }

  function ReleaseForTarget(world: World, log: seq<Event>, target: Target, generation: nat,
                            muted: Status): Asked<ReleaseResult> {
    var current := world(|log|).target;
    var captured := log + [Captured(current)];
    if current.None? then Asked(captured, FeatureFailed)
    else if !TargetsMatch(current.value, target) then Asked(captured, NewTarget)
    else Release(world, captured, generation, muted)
  }

  // One attempt once its target is known and its status is safe.
  function Proceed(world: World, log: seq<Event>, target: Target, status: Status): Asked<Outcome> {
    var generation := world(|log|).generation;
    var restored := Restore(world, log + [Chose(generation)], target, generation);
    if restored.result.SidecarChanged? then Asked(restored.log, Again(true, Some(status)))
    else
      var released := ReleaseForTarget(world, restored.log, target, generation, status);
      if released.result.NewGeneration? || released.result.NewTarget? then
        Asked(released.log, Again(released.result.NewGeneration?, Some(status)))
      else if restored.result.RuntimeFailed? || !released.result.Released? then
        var last := if released.result.Released? then released.result.status else status;
        Asked(released.log + [GaveUp], Answered(Started(Some(last), true)))
      else
        var accepted := world(|released.log|).Completes(generation);
        Asked(released.log + [Completed(generation, accepted)],
              if accepted then Answered(Started(Some(released.result.status), false)) else Again(true, Some(status)))
  }

  function Attempt(world: World, log: seq<Event>, patience: nat): Asked<Outcome> {
    var stop := world(|log|).shutdown;
    var asked := log + [SawShutdown(stop)];
    if stop then Asked(asked + [GaveUp], Answered(Fatal))
    else
      var target := world(|asked|).target;
      var captured := asked + [Captured(target)];
      if target.None? then Asked(captured + [GaveUp], Answered(Fatal))
      else
        var safety := AudioSafety(world, captured, patience, 0, None);
        if safety.result.None? then Asked(safety.log + [GaveUp], Answered(Fatal))
        else if !SafeForRestore(safety.result.value) then
          Asked(safety.log + [GaveUp], Answered(Started(safety.result, true)))
        else Proceed(world, safety.log, target.value, safety.result.value)
  }

  // Attempts in one generation, as many as are left.
  function Attempts(world: World, log: seq<Event>, patience: nat, left: nat, last: Option<Status>): Asked<Outcome>
    decreases left
  {
    if left == 0 then Asked(log + [GaveUp], Answered(Started(last, true)))
    else
      var tried := Attempt(world, log, patience);
      match tried.result
      case Answered(_) => tried
      case Again(anew, last') => if anew then tried else Attempts(world, tried.log, patience, left - 1, last')
  }

  function Generations(world: World, log: seq<Event>, patience: nat, left: nat): Asked<Result>
    decreases left
  {
    if left == 0 then Asked(log + [GaveUp], Fatal)
    else
      var stop := world(|log|).shutdown;
      var asked := log + [SawShutdown(stop)];
      if stop then Asked(asked + [GaveUp], Fatal)
      else
        var tried := Attempts(world, asked, patience, TARGET_RETRY_LIMIT, None);
        match tried.result
        case Answered(result) => Asked(tried.log, result)
        case Again(_, _) => Generations(world, tried.log, patience, left - 1)
  }

  function InitializeRuntime(world: World, patience: nat): Asked<Result> {
    Generations(world, [], patience, GENERATION_RETRY_LIMIT)
  }

  // What an observer of the events knows of the current attempt, which a look at the shutdown flag begins: the
  // target it began with and whether the last capture matched it; the last status and the generation seen last
  // before it; the generation chosen since that status; the one seen since the last command and whether it was then
  // alive; the generation seen before the restore, and its success; the one seen before the unmute, and whether a
  // status was read with it seen alive afterwards. A command may reach a newer sidecar, so nothing seen before it
  // counts after it. Over all attempts, `lawful` tells whether every choice, restore, unmute and completion was
  // justified when it was made.
  datatype Watch = Watch(target: Option<Target>, matched: bool, status: Option<Status>, statusOf: Option<nat>,
                         chosen: Option<nat>, generation: Option<nat>, alive: bool, during: Option<nat>, restored: bool,
                         unmuted: Option<nat>, confirmed: bool, lawful: bool)

  const FIRST: Watch := Watch(None, false, None, None, None, None, false, None, false, None, false, true)

  predicate IsSafe(w: Watch) {
    w.status.Some? && SafeForRestore(w.status.value) && w.statusOf.Some?
  }

  predicate MayUnmute(w: Watch) {
    IsSafe(w) && w.matched && w.alive && w.during.Some? && w.generation == w.during && w.generation == w.chosen
  }

  function Observe(w: Watch, event: Event): Watch {
    match event
    case SawShutdown(_) => FIRST.(lawful := w.lawful)
    case Captured(target) =>
      if target.None? then w.(matched := false)
      else if w.target.None? then w.(target := target, matched := false)
      else w.(matched := TargetsMatch(target.value, w.target.value))
    case SawGeneration(g) => w.(generation := Some(g), alive := false)
    case Chose(g) =>
      w.(lawful := w.lawful && IsSafe(w) && w.generation == w.statusOf, chosen := Some(g), generation := Some(g),
         alive := false)
    case SawTermination(g, terminated) => w.(alive := w.generation == Some(g) && !terminated)
    case SawStatus(_, status) =>
      w.(status := status, statusOf := w.generation, chosen := None, generation := None, alive := false,
         confirmed := status.Some? && w.unmuted.Some? && w.generation == w.unmuted && w.alive)
    case Restored(key, _, ok) =>
      w.(lawful := w.lawful && IsSafe(w) && w.alive && w.target == Some(key) && w.generation == w.chosen,
         during := w.generation, restored := ok, matched := false, generation := None, alive := false)
    case Unmuted(_, ok) =>
      w.(lawful := w.lawful && MayUnmute(w), unmuted := if ok then w.generation else None, generation := None,
         alive := false)
    case Completed(g, _) =>
      w.(lawful := w.lawful && w.restored && w.confirmed && w.unmuted == Some(g) && w.during == Some(g))
    case _ => w
  }

  function Watched(log: seq<Event>): Watch {
    if log == [] then FIRST else Observe(Watched(log[..|log| - 1]), log[|log| - 1])
  }

  function Restores(log: seq<Event>): nat {
    if log == [] then 0 else Restores(log[..|log| - 1]) + if log[|log| - 1].Restored? then 1 else 0
  }

  function Unmutes(log: seq<Event>): nat {
    if log == [] then 0 else Unmutes(log[..|log| - 1]) + if log[|log| - 1].Unmuted? then 1 else 0
  }

  lemma {:induction false} LogNext(log: seq<Event>, event: Event)
    ensures Watched(log + [event]) == Observe(Watched(log), event)
    ensures Restores(log + [event]) == Restores(log) + if event.Restored? then 1 else 0
    ensures Unmutes(log + [event]) == Unmutes(log) + if event.Unmuted? then 1 else 0
  {
    assert (log + [event])[..|log|] == log;
  }

  // Nothing has been chosen, restored, unmuted or completed since, and the attempt is still the same.
  ghost predicate Quiet(before: seq<Event>, after: seq<Event>) {
    var w, w' := Watched(before), Watched(after);
    && Restores(after) == Restores(before) && Unmutes(after) == Unmutes(before)
    && w'.lawful == w.lawful && w'.target == w.target && w'.matched == w.matched && w'.chosen == w.chosen
    && w'.during == w.during && w'.restored == w.restored && w'.unmuted == w.unmuted
  }

  lemma {:induction false} QuietNext(log: seq<Event>, event: Event)
    requires event.SawGeneration? || event.SawTermination? || event.BecameReady? || event.WaitedForNext?
             || (event.SawStatus? && Watched(log).unmuted.None? && Watched(log).chosen.None?)
    ensures Quiet(log, log + [event]) && Watched(log + [event]) == Observe(Watched(log), event)
  {
    LogNext(log, event);
  }

  lemma {:induction false} TransitionedQuiet(world: World, log: seq<Event>, generation: nat)
    ensures var asked := Transitioned(world, log, generation);
      var w, w' := Watched(log), Watched(asked.log);
      && Quiet(log, asked.log) && w'.status == w.status && w'.statusOf == w.statusOf && w'.confirmed == w.confirmed
      && (!asked.result ==> w'.generation == Some(generation) && w'.alive)
  {
    hide Watched, Restores, Unmutes;
    var current := world(|log|).generation;
    QuietNext(log, SawGeneration(current));
    var seen := log + [SawGeneration(current)];
    QuietNext(seen, SawTermination(generation, world(|seen|).terminated));
  }

  lemma {:induction false} SafetyGenerationQuiet(world: World, log: seq<Event>, generation: nat)
    requires Watched(log).unmuted.None? && Watched(log).chosen.None?
    ensures var asked := SafetyGeneration(world, log, generation);
      var w := Watched(asked.log);
      && Quiet(log, asked.log)
      && (asked.result.Safe? ==> w.status == Some(asked.result.status) && w.statusOf == Some(generation))
  {
    hide Watched, Restores, Unmutes;
    var ready := world(|log|);
    var waited := log + [BecameReady(generation, ready.ok)];
    QuietNext(log, BecameReady(generation, ready.ok));
    var before := world(|waited|).generation;
    var seen := waited + [SawGeneration(before)];
    QuietNext(waited, SawGeneration(before));
    var answer := world(|seen|);
    var read := seen + [SawStatus(answer.reached, answer.Reported())];
    QuietNext(seen, SawStatus(answer.reached, answer.Reported()));
    QuietNext(read, SawGeneration(world(|read|).generation));
  }

  lemma {:induction false} ShouldWaitQuiet(world: World, log: seq<Event>, error: SafetyError, expected: nat)
    ensures Quiet(log, ShouldWait(world, log, error, expected).log)
  {
    hide Watched, Restores, Unmutes;
    var current := world(|log|).generation;
    QuietNext(log, SawGeneration(current));
    var seen := log + [SawGeneration(current)];
    QuietNext(seen, SawTermination(expected, world(|seen|).terminated));
  }

  lemma {:induction false} QuietOn(a: seq<Event>, b: seq<Event>, c: seq<Event>)
    requires Quiet(a, b) && Quiet(b, c)
    ensures Quiet(a, c) && Watched(c).unmuted == Watched(a).unmuted && Watched(c).chosen == Watched(a).chosen
  {
  }

  lemma {:induction false} StillHere(log: seq<Event>, generation: nat)
    ensures Quiet(log, log + [SawGeneration(generation)])
    ensures var w, w' := Watched(log), Watched(log + [SawGeneration(generation)]);
      w'.unmuted == w.unmuted && w'.chosen == w.chosen && w'.status == w.status && w'.statusOf == w.statusOf
          && w'.generation == Some(generation)
  {
    hide Watched;
    QuietNext(log, SawGeneration(generation));
  }

  lemma {:induction false} Waited(log: seq<Event>, generation: nat, ok: bool)
    ensures Quiet(log, log + [WaitedForNext(generation, ok)])
    ensures var w, w' := Watched(log), Watched(log + [WaitedForNext(generation, ok)]);
      w'.unmuted == w.unmuted && w'.chosen == w.chosen
  {
    hide Watched;
    QuietNext(log, WaitedForNext(generation, ok));
  }

  // The status is the last one read, and the generation it was read in the one seen last.
  ghost predicate Checked(log: seq<Event>, status: Option<Status>) {
    var w := Watched(log);
    w.status == status && w.statusOf.Some? && w.generation == w.statusOf
  }

  lemma {:induction false} SafetyPassQuiet(world: World, log: seq<Event>, retries: nat, last: Option<nat>)
    requires Watched(log).unmuted.None? && Watched(log).chosen.None?
    ensures var pass := SafetyPass(world, log, retries, last);
      && Quiet(log, pass.log)
      && (pass.result.Done? && pass.result.status.Some? ==> Checked(pass.log, pass.result.status))
  {
    hide Watched, Observe, Restores, Unmutes, SafetyGeneration, ShouldWait, Quiet;
    var generation := world(|log|).generation;
    var seen := log + [SawGeneration(generation)];
    StillHere(log, generation);
    SafetyGenerationQuiet(world, seen, generation);
    var tried := SafetyGeneration(world, seen, generation);
    QuietOn(log, seen, tried.log);
    match tried.result
    case Safe(status) =>
      var current := world(|tried.log|).generation;
      StillHere(tried.log, current);
      QuietOn(log, tried.log, tried.log + [SawGeneration(current)]);
    case Unsafe(error, _) =>
      ShouldWaitQuiet(world, tried.log, error, generation);
      var wait := ShouldWait(world, tried.log, error, generation);
      QuietOn(log, tried.log, wait.log);
      var next := world(|wait.log|).ok;
      Waited(wait.log, generation, next);
      QuietOn(log, wait.log, wait.log + [WaitedForNext(generation, next)]);
  }

  /** When the safety check gives a status, that is the last status read, and the generation it was read in is the one
      seen last. */
  lemma {:induction false} AudioSafetyQuiet(world: World, log: seq<Event>, patience: nat, retries: nat,
                                            last: Option<nat>)
    requires Watched(log).unmuted.None? && Watched(log).chosen.None?
    ensures var asked := AudioSafety(world, log, patience, retries, last);
      Quiet(log, asked.log) && (asked.result.Some? ==> Checked(asked.log, asked.result))
    decreases patience
  {
    hide Watched, SafetyPass, Quiet, Checked;
    if patience == 0 {
      QuietSelf(log);
    } else {
      SafetyPassQuiet(world, log, retries, last);
      var pass := SafetyPass(world, log, retries, last);
      QuietSelf(log);
      QuietOn(log, log, pass.log);
      if pass.result.Retry? {
        AudioSafetyQuiet(world, pass.log, patience - 1, pass.result.retries, Some(pass.result.generation));
        QuietOn(log, pass.log, AudioSafety(world, log, patience, retries, last).log);
      }
    }
  }

  lemma {:induction false} QuietSelf(log: seq<Event>)
    ensures Quiet(log, log)
  {
  }

  lemma {:induction false} RestoreWatched(world: World, log: seq<Event>, target: Target, generation: nat)
    requires Watched(log).lawful && IsSafe(Watched(log)) && Watched(log).target == Some(target)
    requires Watched(log).chosen == Some(generation) && Watched(log).unmuted.None?
    ensures var asked := Restore(world, log, target, generation);
      var w, w' := Watched(log), Watched(asked.log);
      && w'.lawful && w'.target == w.target && w'.chosen == w.chosen && w'.unmuted.None?
      && w'.status == w.status && w'.statusOf == w.statusOf
      && Restores(log) <= Restores(asked.log) <= Restores(log) + 1 && Unmutes(asked.log) == Unmutes(log)
      && (!asked.result.SidecarChanged? ==>
            w'.during == Some(generation) && w'.restored == asked.result.RuntimeRestored?)
  {
    hide Watched, Restores, Unmutes, Transitioned;
    TransitionedQuiet(world, log, generation);
    var first := Transitioned(world, log, generation);
    if !first.result {
      var answer := world(|first.log|);
      var restored := Restored(target, answer.reached, answer.Done());
      LogNext(first.log, restored);
      TransitionedQuiet(world, first.log + [restored], generation);
    }
  }

  lemma {:induction false} ReleaseWatched(world: World, log: seq<Event>, generation: nat, muted: Status)
    requires Watched(log).lawful && Watched(log).status == Some(muted) && Watched(log).statusOf.Some?
    requires Watched(log).matched
    requires Watched(log).during == Some(generation) && Watched(log).chosen == Some(generation)
    requires Watched(log).unmuted.None?
    ensures var asked := Release(world, log, generation, muted);
      var w, w' := Watched(log), Watched(asked.log);
      && w'.lawful && w'.restored == w.restored && w'.during == w.during
      && Restores(asked.log) == Restores(log) && Unmutes(asked.log) <= Unmutes(log) + 1
      && (asked.result.Released? ==> w'.unmuted == Some(generation) && w'.confirmed)
      && !asked.result.NewTarget?
  {
    hide Watched, Restores, Unmutes, Transitioned;
    TransitionedQuiet(world, log, generation);
    var first := Transitioned(world, log, generation);
    if !first.result && SafeForRestore(muted) {
      var answer := world(|first.log|);
      LogNext(first.log, Unmuted(answer.reached, answer.Done()));
      var unmuted := first.log + [Unmuted(answer.reached, answer.Done())];
      TransitionedQuiet(world, unmuted, generation);
      var second := Transitioned(world, unmuted, generation);
      var last := world(|second.log|);
      LogNext(second.log, SawStatus(last.reached, last.Reported()));
    }
  }

  lemma {:induction false} ReleaseForTargetWatched(world: World, log: seq<Event>, target: Target, generation: nat,
                                                   muted: Status)
    requires Watched(log).lawful && Watched(log).status == Some(muted) && Watched(log).statusOf.Some?
    requires Watched(log).target == Some(target) && Watched(log).unmuted.None?
    requires Watched(log).during == Some(generation) && Watched(log).chosen == Some(generation)
    ensures var asked := ReleaseForTarget(world, log, target, generation, muted);
      var w, w' := Watched(log), Watched(asked.log);
      && w'.lawful && w'.restored == w.restored && w'.during == w.during
      && Restores(asked.log) == Restores(log) && Unmutes(asked.log) <= Unmutes(log) + 1
      && (asked.result.Released? ==> w'.unmuted == Some(generation) && w'.confirmed)
  {
    hide Watched, Restores, Unmutes, Release;
    var current := world(|log|).target;
    LogNext(log, Captured(current));
    if current.Some? && TargetsMatch(current.value, target) {
      ReleaseWatched(world, log + [Captured(current)], generation, muted);
    }
  }

  // The last thing done was a completion, accepted for the generation seen alive before and after the restore and the
  // unmute, with a status read afterwards.
  ghost predicate Succeeded(log: seq<Event>) {
    && log != [] && log[|log| - 1].Completed? && log[|log| - 1].accepted
    && var w := Watched(log[..|log| - 1]);
       w.restored && w.confirmed && w.unmuted == Some(log[|log| - 1].generation) && w.during == w.unmuted
  }

  predicate Ends(log: seq<Event>, event: Event) {
    log != [] && log[|log| - 1] == event
  }

  // What an answer tells.
  ghost predicate Accounted(log: seq<Event>, result: Result) {
    && (result.Fatal? || result.error ==> Ends(log, GaveUp))
    && (result.Started? && !result.error ==> Succeeded(log))
  }

  // An outcome reached lawfully, with at most so many restores and unmutes since.
  ghost predicate Fair(before: seq<Event>, asked: Asked<Outcome>, limit: nat) {
    && Watched(asked.log).lawful
    && Restores(asked.log) <= Restores(before) + limit && Unmutes(asked.log) <= Unmutes(before) + limit
    && (asked.result.Answered? ==> Accounted(asked.log, asked.result.result))
  }

  lemma {:induction false} GivingUp(log: seq<Event>, result: Result)
    requires result.Fatal? || result.error
    ensures Watched(log + [GaveUp]) == Watched(log) && Accounted(log + [GaveUp], result)
    ensures Restores(log + [GaveUp]) == Restores(log) && Unmutes(log + [GaveUp]) == Unmutes(log)
  {
    hide Watched, Restores, Unmutes;
    LogNext(log, GaveUp);
  }

  lemma {:induction false} Completing(log: seq<Event>, generation: nat, accepted: bool, status: Option<Status>)
    requires var w := Watched(log);
      w.lawful && w.restored && w.confirmed && w.unmuted == Some(generation) && w.during == w.unmuted
    ensures var after := log + [Completed(generation, accepted)];
      && Watched(after).lawful && (accepted ==> Accounted(after, Started(status, false)))
      && Restores(after) == Restores(log) && Unmutes(after) == Unmutes(log)
  {
    hide Watched, Restores, Unmutes;
    LogNext(log, Completed(generation, accepted));
    assert (log + [Completed(generation, accepted)])[..|log|] == log;
  }

  lemma {:induction false} ProceedFair(world: World, log: seq<Event>, target: Target, status: Status)
    requires Watched(log).lawful && Watched(log).target == Some(target)
    requires Watched(log).unmuted.None?
    requires SafeForRestore(status) && Watched(log).status == Some(status)
    requires Watched(log).statusOf.Some? && Watched(log).generation == Watched(log).statusOf
    ensures Fair(log, Proceed(world, log, target, status), 1)
  {
    hide Watched, Restores, Unmutes, Restore, ReleaseForTarget, Succeeded, Accounted;
    var generation := world(|log|).generation;
    LogNext(log, Chose(generation));
    RestoreWatched(world, log + [Chose(generation)], target, generation);
    var restored := Restore(world, log + [Chose(generation)], target, generation);
    if !restored.result.SidecarChanged? {
      ReleaseForTargetWatched(world, restored.log, target, generation, status);
      var released := ReleaseForTarget(world, restored.log, target, generation, status);
      if !released.result.NewGeneration? && !released.result.NewTarget? {
        if restored.result.RuntimeFailed? || !released.result.Released? {
          var last := if released.result.Released? then released.result.status else status;
          GivingUp(released.log, Started(Some(last), true));
        } else {
          var accepted := world(|released.log|).Completes(generation);
          Completing(released.log, generation, accepted, Some(released.result.status));
        }
      }
    }
  }

  lemma {:induction false} AttemptFair(world: World, log: seq<Event>, patience: nat)
    requires Watched(log).lawful
    ensures Fair(log, Attempt(world, log, patience), 1)
  {
    hide Watched, Restores, Unmutes, AudioSafety, Proceed, Accounted;
    var stop := world(|log|).shutdown;
    var asked := log + [SawShutdown(stop)];
    LogNext(log, SawShutdown(stop));
    if stop {
      GivingUp(asked, Fatal);
    } else {
      var target := world(|asked|).target;
      var captured := asked + [Captured(target)];
      LogNext(asked, Captured(target));
      if target.None? {
        GivingUp(captured, Fatal);
      } else {
        AudioSafetyQuiet(world, captured, patience, 0, None);
        var safety := AudioSafety(world, captured, patience, 0, None);
        if safety.result.None? {
          GivingUp(safety.log, Fatal);
        } else if !SafeForRestore(safety.result.value) {
          GivingUp(safety.log, Started(safety.result, true));
        } else {
          ProceedFair(world, safety.log, target.value, safety.result.value);
        }
      }
    }
  }

  lemma {:induction false} AttemptsFair(world: World, log: seq<Event>, patience: nat, left: nat, last: Option<Status>)
    requires Watched(log).lawful
    ensures Fair(log, Attempts(world, log, patience, left, last), left)
    decreases left
  {
    hide Watched, Restores, Unmutes, Attempt, Accounted;
    if left == 0 {
      GivingUp(log, Started(last, true));
    } else {
      AttemptFair(world, log, patience);
      var tried := Attempt(world, log, patience);
      if tried.result.Again? && !tried.result.anew {
        AttemptsFair(world, tried.log, patience, left - 1, tried.result.last);
      }
    }
  }

  lemma {:induction false} GenerationsFair(world: World, log: seq<Event>, patience: nat, left: nat)
    requires Watched(log).lawful
    ensures var run := Generations(world, log, patience, left);
      && Watched(run.log).lawful && Accounted(run.log, run.result)
      && Restores(run.log) <= Restores(log) + left * TARGET_RETRY_LIMIT
      && Unmutes(run.log) <= Unmutes(log) + left * TARGET_RETRY_LIMIT
    decreases left
  {
    hide Watched, Restores, Unmutes, Attempts, Accounted;
    if left == 0 {
      GivingUp(log, Fatal);
    } else {
      var stop := world(|log|).shutdown;
      var asked := log + [SawShutdown(stop)];
      LogNext(log, SawShutdown(stop));
      if stop {
        GivingUp(asked, Fatal);
      } else {
        AttemptsFair(world, asked, patience, TARGET_RETRY_LIMIT, None);
        var tried := Attempts(world, asked, patience, TARGET_RETRY_LIMIT, None);
        if tried.result.Again? {
          GenerationsFair(world, tried.log, patience, left - 1);
        }
      }
    }
  }

  /** However the sidecar behaves, startup makes at most nine restore attempts and nine requests to unmute, each of them
      lawful; every answer but one without an error is given after marking the startup failed; and there is no error
      only after a success. */
  lemma {:induction false} StartupIsLawful(world: World, patience: nat)
    ensures var run := InitializeRuntime(world, patience);
      && Watched(run.log).lawful
      && Restores(run.log) <= 9 && Unmutes(run.log) <= 9
      && (run.result.Fatal? || run.result.error ==> Ends(run.log, GaveUp))
      && (run.result.Started? && !run.result.error ==> Succeeded(run.log))
  {
    hide Generations, Succeeded;
    GenerationsFair(world, [], patience, GENERATION_RETRY_LIMIT);
  }
}
