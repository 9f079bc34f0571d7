/** What startup tries again, how often, and what it answers: told from the answers of the world. */
module StartupRetries {
  import opened Wrappers
  import opened StartupRules

  // From a place on, one generation stays, is alive and ready.
  ghost predicate Stays(world: World, from: nat, generation: nat) {
    forall n :: n >= from ==> world(n).generation == generation && !world(n).terminated && world(n).ok
  }

  // The status requests of the passes from a place on time out so many times; a pass that
  // times out asks six questions, the fourth of them for the status.
  ghost predicate TimesOut(world: World, from: nat, times: nat) {
    forall i: nat :: i < times ==> world(from + 6 * i + 3).Reported().None? && world(from + 6 * i + 3).error.TimedOut?
  }

  lemma {:induction false} PassTimesOut(world: World, log: seq<Event>, generation: nat, retries: nat,
                                        last: Option<nat>)
    requires Stays(world, |log|, generation) && TimesOut(world, |log|, 1)
    requires last == Some(generation) || retries == 0
    ensures var pass := SafetyPass(world, log, retries, last);
      && |pass.log| == |log| + 6
      && pass.result == if retries < 3 then Retry(retries + 1, generation) else Done(None)
  {
    assert world(|log| + 6 * 0 + 3).error.TimedOut?;
    var seen := log + [SawGeneration(generation)];
    var waited := seen + [BecameReady(generation, true)];
    assert |waited + [SawGeneration(generation)]| == |log| + 3;
  }

  lemma {:induction false} PassAnswers(world: World, log: seq<Event>, generation: nat, retries: nat,
                                       last: Option<nat>, status: Status)
    requires Stays(world, |log|, generation) && world(|log| + 3).Reported() == Some(status)
    ensures SafetyPass(world, log, retries, last).result == Done(Some(status))
  {
    var seen := log + [SawGeneration(generation)];
    var waited := seen + [BecameReady(generation, true)];
    assert |waited + [SawGeneration(generation)]| == |log| + 3;
  }

  lemma {:induction false} LaterTimeouts(world: World, from: nat, times: nat)
    requires times > 0 && TimesOut(world, from, times)
    ensures TimesOut(world, from, 1) && TimesOut(world, from + 6, times - 1)
  {
    forall i: nat | i < times - 1
      ensures world(from + 6 + 6 * i + 3).Reported().None? && world(from + 6 + 6 * i + 3).error.TimedOut?
    {
      assert from + 6 + 6 * i + 3 == from + 6 * (i + 1) + 3;
    }
  }

  lemma {:induction false} RetriesLeft(world: World, log: seq<Event>, patience: nat, generation: nat, retries: nat,
                                       last: Option<nat>, times: nat, status: Status)
    requires Stays(world, |log|, generation) && TimesOut(world, |log|, times) && retries <= 3
    requires world(|log| + 6 * times + 3).Reported() == Some(status) && patience > times
    requires last == Some(generation) || retries == 0
    ensures AudioSafety(world, log, patience, retries, last).result ==
            if retries + times <= 3 then Some(status) else None
    decreases times
  {
    hide SafetyPass, TimesOut;
    if times == 0 {
      PassAnswers(world, log, generation, retries, last, status);
    } else {
      LaterTimeouts(world, |log|, times);
      PassTimesOut(world, log, generation, retries, last);
      var pass := SafetyPass(world, log, retries, last);
      if retries < 3 {
        RetriesLeft(world, pass.log, patience - 1, generation, retries + 1, Some(generation), times - 1, status);
      }
    }
  }

  /** In a generation that stays, is alive and ready, a status request that times out is tried again up to three times:
      however often it times out before it is answered, the safety check gives that status for three times or fewer and
      nothing for more. */
  lemma {:induction false} TimeoutsAreRetried(world: World, log: seq<Event>, patience: nat, generation: nat, times: nat,
                                              status: Status)
    requires Stays(world, |log|, generation) && TimesOut(world, |log|, times)
    requires world(|log| + 6 * times + 3).Reported() == Some(status) && patience > times
    ensures AudioSafety(world, log, patience, 0, None).result == if times <= 3 then Some(status) else None
  {
    RetriesLeft(world, log, patience, generation, 0, None, times, status);
  }

  /** A new generation starts the count again: whatever retries another generation has used, the check goes on exactly
      as one that begins there. */
  lemma {:induction false} NewGenerationStartsAgain(world: World, log: seq<Event>, patience: nat, retries: nat,
                                                    last: nat)
    requires world(|log|).generation != last
    ensures AudioSafety(world, log, patience, retries, Some(last)) == AudioSafety(world, log, patience, 0, None)
  {
  }

  // How one pass of the check ended: a status, or an error met after so many questions, of readiness or of control.
  datatype Met = MetStatus(status: Status) | MetError(error: SafetyError, readiness: bool, asked: nat)

  function MetBy(world: World, from: nat): Met {
    var generation := world(from).generation;
    if !world(from + 1).ok then MetError(world(from + 1).error, true, 2)
    else if world(from + 2).generation != generation then MetError(Changed(world(from + 2).generation), false, 3)
    else if world(from + 3).Reported().None? then MetError(world(from + 3).error, false, 4)
    else if world(from + 4).generation != generation then MetError(Changed(world(from + 4).generation), false, 5)
    else MetStatus(world(from + 3).Reported().value)
  }

  lemma {:induction false} GenerationMet(world: World, log: seq<Event>)
    ensures var generation := world(|log|).generation;
      var tried := SafetyGeneration(world, log + [SawGeneration(generation)], generation);
      match MetBy(world, |log|)
      case MetStatus(status) => tried.result == Safe(status) && |tried.log| == |log| + 5
      case MetError(error, readiness, asked) =>
        tried.result == Unsafe(error, readiness) && |tried.log| == |log| + asked
  {
    var generation := world(|log|).generation;
    var seen := log + [SawGeneration(generation)];
    var ready := seen + [BecameReady(generation, world(|seen|).ok)];
    var looked := ready + [SawGeneration(world(|ready|).generation)];
    assert |seen| == |log| + 1 && |ready| == |log| + 2 && |looked| == |log| + 3;
  }

  /** What one pass of the safety check comes to: a status is given when the generation is the same before, after, and
      once more; an error met while the generation has changed, has ended, or lost its connection waits for the next one
      and goes on if it comes; a timed-out request in a living generation is tried again while there are retries left;
      and everything else ends the check without a status. */
  lemma {:induction false} PassComesTo(world: World, log: seq<Event>, retries: nat, last: Option<nat>)
    ensures var generation := world(|log|).generation;
      var used := if last == Some(generation) then retries else 0;
      var result := SafetyPass(world, log, retries, last).result;
      match MetBy(world, |log|)
      case MetStatus(status) =>
        result == if world(|log| + 5).generation == generation then Done(Some(status)) else Retry(used, generation)
      case MetError(error, readiness, asked) =>
        var n := |log| + asked;
        if world(n).generation != generation || error.Lost? || error.Changed? then
          result == if world(n + 1).ok then Retry(used, generation) else Done(None)
        else if world(n + 1).terminated then
          result == if world(n + 2).ok then Retry(used, generation) else Done(None)
        else if error.TimedOut? && !readiness && used < 3 then result == Retry(used + 1, generation)
        else result == Done(None)
  {
    hide SafetyGeneration, MetBy;
    GenerationMet(world, log);
  }

  // Attempts one after the other, each with its log and the status it leaves behind.
  ghost predicate TargetChanges(world: World, patience: nat, logs: seq<seq<Event>>, statuses: seq<Option<Status>>) {
    && |logs| == |statuses| + 1
    && forall i :: 0 <= i < |statuses| ==>
         Attempt(world, logs[i], patience) == Asked(logs[i + 1], Again(false, statuses[i]))
  }

  lemma {:induction false} TargetsLeft(world: World, patience: nat, logs: seq<seq<Event>>,
                                       statuses: seq<Option<Status>>, left: nat, last: Option<Status>)
    requires TargetChanges(world, patience, logs, statuses) && |statuses| <= left
    ensures Attempts(world, logs[0], patience, left, last) ==
            Attempts(world, logs[|statuses|], patience, left - |statuses|,
                     if statuses == [] then last else statuses[|statuses| - 1])
    decreases |statuses|
  {
    hide Attempt;
    if statuses != [] {
      assert Attempt(world, logs[0], patience) == Asked(logs[1], Again(false, statuses[0]));
      assert forall i :: 0 <= i < |statuses| - 1 ==>
        Attempt(world, logs[1..][i], patience) == Asked(logs[1..][i + 1], Again(false, statuses[1..][i])) by {
        forall i | 0 <= i < |statuses| - 1
          ensures Attempt(world, logs[1..][i], patience) == Asked(logs[1..][i + 1], Again(false, statuses[1..][i]))
        {
          assert Attempt(world, logs[i + 1], patience) == Asked(logs[i + 1 + 1], Again(false, statuses[i + 1]));
        }
      }
      TargetsLeft(world, patience, logs[1..], statuses[1..], left - 1, statuses[0]);
    }
  }

  /** A target that changes is tried again: with fewer than three changes the attempt after them decides, and after
      three startup ends with an error and the last safe status. */
  lemma {:induction false} TargetsAreRetried(world: World, patience: nat, logs: seq<seq<Event>>,
                                             statuses: seq<Option<Status>>)
    requires TargetChanges(world, patience, logs, statuses) && |statuses| <= 3
    ensures var tries := Attempts(world, logs[0], patience, TARGET_RETRY_LIMIT, None);
      if |statuses| == 3 then tries == Asked(logs[3] + [GaveUp], Answered(Started(statuses[2], true)))
      else
        var next := Attempt(world, logs[|statuses|], patience);
        next.result.Answered? || next.result.anew ==> tries == next
  {
    hide Attempt;
    TargetsLeft(world, patience, logs, statuses, 3, None);
  }

  // Generations one after the other that are replaced; each begins with a look at the shutdown flag.
  ghost predicate GenerationChanges(world: World, patience: nat, logs: seq<seq<Event>>) {
    && logs != []
    && forall i :: 0 <= i < |logs| - 1 ==>
         && !world(|logs[i]|).shutdown
         && var tries := Attempts(world, logs[i] + [SawShutdown(false)], patience, TARGET_RETRY_LIMIT, None);
            tries.log == logs[i + 1] && tries.result.Again?
  }

  lemma {:induction false} GenerationsLeft(world: World, patience: nat, logs: seq<seq<Event>>, left: nat)
    requires GenerationChanges(world, patience, logs) && |logs| - 1 <= left
    ensures Generations(world, logs[0], patience, left) ==
            Generations(world, logs[|logs| - 1], patience, left - (|logs| - 1))
    decreases |logs|
  {
    hide Attempts;
    if |logs| > 1 {
      var rest := logs[1..];
      forall i | 0 <= i < |rest| - 1
        ensures !world(|rest[i]|).shutdown
        ensures var tries := Attempts(world, rest[i] + [SawShutdown(false)], patience, TARGET_RETRY_LIMIT, None);
          tries.log == rest[i + 1] && tries.result.Again?
      {
        assert rest[i] == logs[i + 1] && rest[i + 1] == logs[i + 1 + 1];
      }
      GenerationsLeft(world, patience, rest, left - 1);
    }
  }

  /** A generation that is replaced is tried again: with fewer than three replaced the next one decides, and after three
      startup gives up without an answer. */
  lemma {:induction false} GenerationsAreRetried(world: World, patience: nat, logs: seq<seq<Event>>)
    requires GenerationChanges(world, patience, logs) && logs[0] == [] && |logs| <= 4
    ensures var run, last := InitializeRuntime(world, patience), logs[|logs| - 1];
      if |logs| == 4 then run == Asked(last + [GaveUp], Fatal)
      else if world(|last|).shutdown then run == Asked(last + [SawShutdown(true), GaveUp], Fatal)
      else
        var tries := Attempts(world, last + [SawShutdown(false)], patience, TARGET_RETRY_LIMIT, None);
        tries.result.Answered? ==> run == Asked(tries.log, tries.result.result)
  {
    hide Attempts;
    GenerationsLeft(world, patience, logs, 3);
    var last := logs[|logs| - 1];
    assert last + [SawShutdown(true)] + [GaveUp] == last + [SawShutdown(true), GaveUp];
  }

  // The generation is found current and alive by the two questions from a place on.
  predicate FoundAlive(world: World, n: nat, generation: nat) {
    world(n).generation == generation && !world(n + 1).terminated
  }

  /** A restore fails when it is answered badly, and otherwise succeeds when the generation is found alive before and
      after. */
  lemma {:induction false} RestoreComesTo(world: World, log: seq<Event>, target: Target, generation: nat)
    ensures var n := |log|;
      var asked := Restore(world, log, target, generation);
      if !FoundAlive(world, n, generation) then asked.result == SidecarChanged
      else if !world(n + 2).ok || world(n + 2).reached.None? then asked.result == RuntimeFailed && |asked.log| == n + 3
      else if !FoundAlive(world, n + 3, generation) then asked.result == SidecarChanged
      else asked.result == RuntimeRestored && |asked.log| == n + 5
  {
  }

  /** A release fails when the target cannot be captured, is called off when it has changed or the generation is not
      found alive before or after, and otherwise gives the status read last, if the request and the status were
      answered. */
  lemma {:induction false} ReleaseComesTo(world: World, log: seq<Event>, target: Target, generation: nat,
                                          muted: Status)
    requires SafeForRestore(muted)
    ensures var n := |log|;
      var asked := ReleaseForTarget(world, log, target, generation, muted);
      match world(n).target
      case None => asked.result == FeatureFailed
      case Some(current) =>
        if current.projectId != target.projectId || current.sequence != target.sequence
           || current.revision != target.revision then asked.result == NewTarget
        else if !FoundAlive(world, n + 1, generation) then asked.result == NewGeneration
        else if !world(n + 3).ok || world(n + 3).reached.None? then asked.result == FeatureFailed
        else if !FoundAlive(world, n + 4, generation) then asked.result == NewGeneration
        else
          && |asked.log| == n + 7
          && match world(n + 6).Reported()
             case None => asked.result == FeatureFailed
             case Some(status) => asked.result == Released(status)
  {
    var captured := log + [Captured(world(|log|).target)];
    var first := Transitioned(world, captured, generation);
    if !first.result {
      var answer := world(|first.log|);
      var unmuted := first.log + [Unmuted(answer.reached, answer.Done())];
      assert |first.log| == |log| + 3 && |unmuted| == |log| + 4;
      var second := Transitioned(world, unmuted, generation);
      assert !second.result ==> |second.log| == |log| + 6;
    }
  }

  /** What an attempt comes to once its status is read and safe: another one for a sidecar or a target that has changed;
      success, with the status read last, when everything was answered well and the generation is still current; and an
      error otherwise, with that status if one was read and else the safe one. */
  lemma {:induction false} AttemptComesTo(world: World, log: seq<Event>, target: Target, status: Status)
    ensures var generation := world(|log|).generation;
      var restored := Restore(world, log + [Chose(generation)], target, generation);
      var released := ReleaseForTarget(world, restored.log, target, generation, status);
      var result := Proceed(world, log, target, status).result;
      if restored.result.SidecarChanged? then result == Again(true, Some(status))
      else match released.result
        case NewGeneration => result == Again(true, Some(status))
        case NewTarget => result == Again(false, Some(status))
        case Released(last) =>
          var answer := world(|released.log|);
          if restored.result.RuntimeFailed? then result == Answered(Started(Some(last), true))
          else if answer.ok && answer.generation == generation && !answer.terminated then
            result == Answered(Started(Some(last), false))
          else result == Again(true, Some(status))
        case FeatureFailed => result == Answered(Started(Some(status), true))
        case SafetyFailed => result == Answered(Started(Some(status), true))
  {
    hide Restore, ReleaseForTarget;
  }

  /** How an attempt begins: it is given up without an answer when the Host shuts down, the target cannot be captured or
      no status was read, and with an error and the status when that is unsafe. */
  lemma {:induction false} AttemptBegins(world: World, log: seq<Event>, patience: nat)
    ensures var n := |log|;
      var tried := Attempt(world, log, patience).result;
      if world(n).shutdown || world(n + 1).target.None? then tried == Answered(Fatal)
      else
        var checked := AudioSafety(world, log + [SawShutdown(false), Captured(world(n + 1).target)], patience, 0, None);
        match checked.result
        case None => tried == Answered(Fatal)
        case Some(status) =>
          if status.state in [Ready, Muted] && !status.feedbackSuspected then
            tried == Proceed(world, checked.log, world(n + 1).target.value, status).result
          else tried == Answered(Started(Some(status), true))
  {
    hide AudioSafety, Proceed;
    assert log + [SawShutdown(false)] + [Captured(world(|log| + 1).target)] ==
           log + [SawShutdown(false), Captured(world(|log| + 1).target)];
  }
}
