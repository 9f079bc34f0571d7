/** Startup as it runs: retry loops that ask one question after the other and keep what was asked. */
module Startup {
  import opened Wrappers
  import opened StartupRules

  class Session {
    const world: World
    var log: seq<Event>

    constructor (world: World)
      ensures this.world == world && log == []
    {
      this.world, log := world, [];
    }

    method ShuttingDown() returns (requested: bool)
      modifies this
      ensures requested == world(|old(log)|).shutdown && log == old(log) + [SawShutdown(requested)]
    {
      requested := world(|log|).shutdown;
      log := log + [SawShutdown(requested)];
    }

    method CaptureTarget() returns (target: Option<Target>)
      modifies this
      ensures target == world(|old(log)|).target && log == old(log) + [Captured(target)]
    {
      target := world(|log|).target;
      log := log + [Captured(target)];
    }

    method CurrentGeneration() returns (generation: nat)
      modifies this
      ensures generation == world(|old(log)|).generation && log == old(log) + [SawGeneration(generation)]
    {
      generation := world(|log|).generation;
      log := log + [SawGeneration(generation)];
    }

    // The same look, where the attempt goes on in the generation found.
    method ChooseGeneration() returns (generation: nat)
      modifies this
      ensures generation == world(|old(log)|).generation && log == old(log) + [Chose(generation)]
    {
      generation := world(|log|).generation;
      log := log + [Chose(generation)];
    }

    method SidecarTerminated(generation: nat) returns (terminated: bool)
      modifies this
      ensures terminated == world(|old(log)|).terminated && log == old(log) + [SawTermination(generation, terminated)]
    {
      terminated := world(|log|).terminated;
      log := log + [SawTermination(generation, terminated)];
    }

    method WaitUntilReady(generation: nat) returns (ok: bool, error: SafetyError)
      modifies this
      ensures ok == world(|old(log)|).ok && error == world(|old(log)|).error
      ensures log == old(log) + [BecameReady(generation, ok)]
    {
      ok, error := world(|log|).ok, world(|log|).error;
      log := log + [BecameReady(generation, ok)];
    }

    method WaitForNextGeneration(generation: nat) returns (ok: bool)
      modifies this
      ensures ok == world(|old(log)|).ok && log == old(log) + [WaitedForNext(generation, ok)]
    {
      ok := world(|log|).ok;
      log := log + [WaitedForNext(generation, ok)];
    }

    method RefreshStatus() returns (status: Option<Status>, error: SafetyError)
      modifies this
      ensures status == world(|old(log)|).Reported() && error == world(|old(log)|).error
      ensures log == old(log) + [SawStatus(world(|old(log)|).reached, status)]
    {
      var answer := world(|log|);
      status, error := answer.Reported(), answer.error;
      log := log + [SawStatus(answer.reached, status)];
    }

    // Builds the project session and waits until the Runtime has applied it.
    method ApplyAndWait(target: Target) returns (ok: bool)
      modifies this
      ensures ok == world(|old(log)|).Done() && log == old(log) + [Restored(target, world(|old(log)|).reached, ok)]
    {
      var answer := world(|log|);
      ok := answer.Done();
      log := log + [Restored(target, answer.reached, ok)];
    }

    // The request goes to whichever generation is ready.
    method ReleaseMute() returns (ok: bool)
      modifies this
      ensures ok == world(|old(log)|).Done() && log == old(log) + [Unmuted(world(|old(log)|).reached, ok)]
    {
      var answer := world(|log|);
      ok := answer.Done();
      log := log + [Unmuted(answer.reached, ok)];
    }

    method MarkCompleted(generation: nat) returns (accepted: bool)
      modifies this
      ensures accepted == world(|old(log)|).Completes(generation)
      ensures log == old(log) + [Completed(generation, accepted)]
    {
      accepted := world(|log|).Completes(generation);
      log := log + [Completed(generation, accepted)];
    }

    method MarkFailed()
      modifies this
      ensures log == old(log) + [GaveUp]
    {
      log := log + [GaveUp];
    }

    method SidecarTransitioned(generation: nat) returns (changed: bool)
      modifies this
      ensures Asked(log, changed) == Transitioned(world, old(log), generation)
    {
      var current := CurrentGeneration();
      if current != generation {
        return true;
      }
      changed := SidecarTerminated(generation);
    }

    method InitializeSafetyGeneration(generation: nat) returns (r: SafetyResult)
      modifies this
      ensures Asked(log, r) == SafetyGeneration(world, old(log), generation)
    {
      var ready, error := WaitUntilReady(generation);
      if !ready {
        return Unsafe(error, true);
      }
      var actual := CurrentGeneration();
      if actual != generation {
        return Unsafe(Changed(actual), false);
      }
      var status;
      status, error := RefreshStatus();
      if status.None? {
        return Unsafe(error, false);
      }
      actual := CurrentGeneration();
      if actual != generation {
        return Unsafe(Changed(actual), false);
      }
      return Safe(status.value);
    }

    method ShouldWaitForNextGeneration(error: SafetyError, expected: nat) returns (wait: bool)
      modifies this
      ensures Asked(log, wait) == ShouldWait(world, old(log), error, expected)
    {
      var current := CurrentGeneration();
      if current != expected || error.Changed? || error.Lost? {
        return true;
      }
      wait := SidecarTerminated(expected);
    }

    // One pass of the safety loop.
    method TrySafety(retries: nat, retryGeneration: Option<nat>) returns (r: Pass)
      modifies this
      ensures Asked(log, r) == SafetyPass(world, old(log), retries, retryGeneration)
    {
      hide SafetyGeneration, ShouldWait;
      var generation := CurrentGeneration();
      var controlRetries := if retryGeneration != Some(generation) then 0 else retries;
      var result := InitializeSafetyGeneration(generation);
      match result
      case Safe(status) =>
        var current := CurrentGeneration();
        return if current == generation then Done(Some(status)) else Retry(controlRetries, generation);
      case Unsafe(error, readiness) =>
        var wait := ShouldWaitForNextGeneration(error, generation);
        if wait {
          var next := WaitForNextGeneration(generation);
          return if next then Retry(controlRetries, generation) else Done(None);
        } else if !readiness && error.TimedOut? && controlRetries < CONTROL_RETRY_LIMIT {
          return Retry(controlRetries + 1, generation);
        }
        return Done(None);
    }

    method InitializeAudioSafety(patience: nat) returns (r: Option<Status>)
      modifies this
      ensures Asked(log, r) == AudioSafety(world, old(log), patience, 0, None)
    {
      hide SafetyPass;
      var retries: nat, retryGeneration: Option<nat> := 0, None;
      ghost var all := AudioSafety(world, log, patience, 0, None);
      var left := patience;
      while left > 0
        invariant AudioSafety(world, log, left, retries, retryGeneration) == all
      {
        var pass := TrySafety(retries, retryGeneration);
        if pass.Done? {
          return pass.status;
        }
        retries, retryGeneration := pass.retries, Some(pass.generation);
        left := left - 1;
      }
      return None;
    }

    method RestoreStartupRuntime(target: Target, generation: nat) returns (r: RestoreResult)
      modifies this
      ensures Asked(log, r) == Restore(world, old(log), target, generation)
    {
      var changed := SidecarTransitioned(generation);
      if changed {
        return SidecarChanged;
      }
      var ok := ApplyAndWait(target);
      if !ok {
        return RuntimeFailed;
      }
      changed := SidecarTransitioned(generation);
      return if changed then SidecarChanged else RuntimeRestored;
    }

    method ReleaseStartupMute(generation: nat, muted: Status) returns (r: ReleaseResult)
      modifies this
      ensures Asked(log, r) == Release(world, old(log), generation, muted)
    {
      var changed := SidecarTransitioned(generation);
      if changed {
        return NewGeneration;
      }
      if !SafeForRestore(muted) {
        return SafetyFailed;
      }
      var ok := ReleaseMute();
      if !ok {
        return FeatureFailed;
      }
      changed := SidecarTransitioned(generation);
      if changed {
        return NewGeneration;
      }
      var status, _ := RefreshStatus();
      return if status.Some? then Released(status.value) else FeatureFailed;
    }

    method ReleaseStartupMuteForTarget(target: Target, generation: nat, muted: Status) returns (r: ReleaseResult)
      modifies this
      ensures Asked(log, r) == ReleaseForTarget(world, old(log), target, generation, muted)
    {
      var current := CaptureTarget();
      if current.None? {
        return FeatureFailed;
      }
      if !TargetsMatch(current.value, target) {
        return NewTarget;
      }
      r := ReleaseStartupMute(generation, muted);
    }

    // What one pass of the inner loop comes to.
    method TryTarget(patience: nat) returns (r: Outcome)
      modifies this
      ensures Asked(log, r) == Attempt(world, old(log), patience)
    {
      hide AudioSafety, Restore, ReleaseForTarget;
      var stop := ShuttingDown();
      if stop {
        MarkFailed();
        return Answered(Fatal);
      }
      var target := CaptureTarget();
      if target.None? {
        MarkFailed();
        return Answered(Fatal);
      }
      var status := InitializeAudioSafety(patience);
      if status.None? {
        MarkFailed();
        return Answered(Fatal);
      }
      if !SafeForRestore(status.value) {
        MarkFailed();
        return Answered(Started(status, true));
      }
      var generation := ChooseGeneration();
      var restored := RestoreStartupRuntime(target.value, generation);
      if restored.SidecarChanged? {
        return Again(true, status);
      }
      var released := ReleaseStartupMuteForTarget(target.value, generation, status.value);
      if released.NewGeneration? || released.NewTarget? {
        return Again(released.NewGeneration?, status);
      }
      if restored.RuntimeFailed? || !released.Released? {
        MarkFailed();
        return Answered(Started(if released.Released? then Some(released.status) else status, true));
      }
      var accepted := MarkCompleted(generation);
      return if accepted then Answered(Started(Some(released.status), false)) else Again(true, status);
    }

    method TryTargets(patience: nat) returns (r: Outcome)
      modifies this
      ensures Asked(log, r) == Attempts(world, old(log), patience, TARGET_RETRY_LIMIT, None)
    {
      hide Attempt;
      ghost var all := Attempts(world, log, patience, TARGET_RETRY_LIMIT, None);
      var lastStatus: Option<Status> := None;
      var left := TARGET_RETRY_LIMIT;
      while left > 0
        invariant Attempts(world, log, patience, left, lastStatus) == all
      {
        r := TryTarget(patience);
        if r.Answered? || r.anew {
          return;
        }
        lastStatus := r.last;
        left := left - 1;
      }
      MarkFailed();
      return Answered(Started(lastStatus, true));
    }

    /** The whole startup is the run of the specification, for every behaviour of the sidecar. */
    method Initialize(patience: nat) returns (r: Result)
      requires log == []
      modifies this
      ensures Asked(log, r) == InitializeRuntime(world, patience)
    {
      hide Attempts;
      ghost var all := InitializeRuntime(world, patience);
      var left := GENERATION_RETRY_LIMIT;
      while left > 0
        invariant Generations(world, log, patience, left) == all
      {
        var stop := ShuttingDown();
        if stop {
          MarkFailed();
          return Fatal;
        }
        var outcome := TryTargets(patience);
        if outcome.Answered? {
          return outcome.result;
        }
        left := left - 1;
      }
      MarkFailed();
      return Fatal;
    }
  }
}
