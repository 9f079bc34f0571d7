/** Told by the events themselves: what comes before every unmute, and exactly when it keeps the promise of startup. */
module StartupPromise {
  import opened Wrappers
  import opened StartupReleases
  import opened StartupRules

  lemma {:induction false} UnlawfulNext(w: Watch, event: Event)
    requires !w.lawful
    ensures !Observe(w, event).lawful
  {
  }

  lemma {:induction false} StaysUnlawful(log: seq<Event>, n: nat)
    requires n <= |log| && !Watched(log[..n]).lawful
    ensures !Watched(log).lawful
    decreases |log|
  {
    hide Observe;
    if n < |log| {
      assert log[..|log| - 1][..n] == log[..n];
      StaysUnlawful(log[..|log| - 1], n);
      UnlawfulNext(Watched(log[..|log| - 1]), log[|log| - 1]);
    } else {
      assert log[..n] == log;
    }
  }

  lemma {:induction false} LawfulSoFar(log: seq<Event>, n: nat)
    requires n < |log| && Watched(log).lawful
    ensures Watched(log[..n]).lawful && Observe(Watched(log[..n]), log[n]).lawful
  {
    hide Watched, Observe;
    if !Watched(log[..n]).lawful {
      StaysUnlawful(log, n);
    }
    if !Watched(log[..n + 1]).lawful {
      StaysUnlawful(log, n + 1);
    }
    LogNext(log[..n], log[n]);
    assert log[..n + 1] == log[..n] + [log[n]];
  }

  // Nothing of a later kind, and no new attempt, after place i.
  predicate LastOf(log: seq<Event>, i: nat, later: Event -> bool) {
    i < |log| && forall k :: i < k < |log| ==> !later(log[k]) && !log[k].SawShutdown?
  }

  const AStatus: Event -> bool := (event: Event) => event.SawStatus?
  const AChoice: Event -> bool := (event: Event) => event.SawStatus? || event.Chose?
  const ACapture: Event -> bool := (event: Event) => event.Captured?
  const AnUpset: Event -> bool := (event: Event) =>
    event.SawGeneration? || event.Chose? || event.SawStatus? || event.Restored? || event.Unmuted?
  const ASighting: Event -> bool := (event: Event) => AnUpset(event) || event.SawTermination?
  const ARestore: Event -> bool := (event: Event) => event.Restored?
  const Nothing: Event -> bool := (event: Event) => false

  predicate IsLook(event: Event) {
    event.SawGeneration? || event.Chose?
  }

  lemma {:induction false} LastNext(log: seq<Event>, i: nat, later: Event -> bool)
    requires log != [] && LastOf(log[..|log| - 1], i, later)
    requires !later(log[|log| - 1]) && !log[|log| - 1].SawShutdown?
    ensures LastOf(log, i, later)
  {
  }

  // Where each thing the observer knows comes from.
  lemma {:induction false} StatusFrom(w: Watch, event: Event)
    requires Observe(w, event).status.Some?
    ensures var w' := Observe(w, event);
      if event.SawStatus? then event.status == w'.status && w'.statusOf == w.generation
      else !event.SawShutdown? && w'.status == w.status && w'.statusOf == w.statusOf
  {
  }

  lemma {:induction false} TargetFrom(w: Watch, event: Event)
    requires Observe(w, event).target.Some?
    ensures !event.SawShutdown?
    ensures if w.target.Some? then Observe(w, event).target == w.target else event == Captured(Observe(w, event).target)
  {
  }

  lemma {:induction false} LookFrom(w: Watch, event: Event)
    requires Observe(w, event).generation.Some?
    ensures var w' := Observe(w, event);
      if IsLook(event) then w'.generation == Some(event.generation)
      else !event.SawShutdown? && !AnUpset(event) && w'.generation == w.generation
  {
  }

  lemma {:induction false} AliveFrom(w: Watch, event: Event)
    requires Observe(w, event).alive
    ensures !AnUpset(event) && !event.SawShutdown?
    ensures Observe(w, event).generation == w.generation
    ensures if event.SawTermination? then w.generation == Some(event.generation) && !event.terminated else w.alive
  {
  }

  lemma {:induction false} MatchedFrom(w: Watch, event: Event)
    requires Observe(w, event).matched && (w.matched ==> w.target.Some?)
    ensures !event.SawShutdown? && w.target.Some? && Observe(w, event).target == w.target
    ensures if event.Captured? then event.target.Some? && TargetsMatch(event.target.value, w.target.value)
            else w.matched
  {
  }

  lemma {:induction false} ChoiceFrom(w: Watch, event: Event)
    requires Observe(w, event).chosen.Some? && Observe(w, event).lawful
    ensures !event.SawShutdown? && !event.SawStatus? && w.lawful && Observe(w, event).statusOf == w.statusOf
    ensures if event.Chose?
            then Observe(w, event).chosen == Some(event.generation) && w.generation == w.statusOf && IsSafe(w)
            else Observe(w, event).chosen == w.chosen
  {
  }

  lemma {:induction false} RestoredHere(w: Watch, event: Event)
    requires event.Restored? && Observe(w, event).lawful
    ensures w.lawful && w.target == Some(event.key)
    ensures var w' := Observe(w, event); w'.target == w.target && w'.restored == event.ok && w'.during == w.generation
  {
  }

  lemma {:induction false} RestoredBefore(w: Watch, event: Event)
    requires !event.Restored? && Observe(w, event).during.Some? && Observe(w, event).lawful
    ensures w.lawful && !event.SawShutdown? && (w.target.Some? ==> Observe(w, event).target == w.target)
    ensures w.during == Observe(w, event).during && w.restored == Observe(w, event).restored
  {
  }

  lemma {:induction false} StatusSeen(log: seq<Event>) returns (i: nat)
    requires Watched(log).status.Some?
    ensures LastOf(log, i, AStatus) && log[i].SawStatus? && log[i].status == Watched(log).status
    ensures Watched(log[..i]).generation == Watched(log).statusOf
  {
    hide Observe;
    var n := |log| - 1;
    StatusFrom(Watched(log[..n]), log[n]);
    if log[n].SawStatus? {
      i := n;
    } else {
      i := StatusSeen(log[..n]);
      LastNext(log, i, AStatus);
      assert log[..n][..i] == log[..i];
    }
  }

  lemma {:induction false} TargetSeen(log: seq<Event>) returns (i: nat)
    requires Watched(log).target.Some?
    ensures LastOf(log, i, Nothing) && log[i] == Captured(Watched(log).target)
  {
    hide Observe;
    var n := |log| - 1;
    TargetFrom(Watched(log[..n]), log[n]);
    if Watched(log[..n]).target.None? {
      i := n;
    } else {
      i := TargetSeen(log[..n]);
      LastNext(log, i, Nothing);
    }
  }

  lemma {:induction false} LookSeen(log: seq<Event>) returns (i: nat)
    requires Watched(log).generation.Some?
    ensures LastOf(log, i, AnUpset) && IsLook(log[i]) && Watched(log).generation == Some(log[i].generation)
  {
    hide Observe;
    var n := |log| - 1;
    LookFrom(Watched(log[..n]), log[n]);
    if IsLook(log[n]) {
      i := n;
    } else {
      i := LookSeen(log[..n]);
      LastNext(log, i, AnUpset);
    }
  }

  lemma {:induction false} AliveSeen(log: seq<Event>) returns (i: nat)
    requires Watched(log).alive
    ensures Watched(log).generation.Some? && LastOf(log, i, ASighting)
    ensures log[i] == SawTermination(Watched(log).generation.value, false)
  {
    hide Observe;
    var n := |log| - 1;
    AliveFrom(Watched(log[..n]), log[n]);
    if log[n].SawTermination? {
      i := n;
    } else {
      i := AliveSeen(log[..n]);
      LastNext(log, i, ASighting);
    }
  }

  lemma {:induction false} MatchSeen(log: seq<Event>) returns (i: nat)
    requires Watched(log).matched
    ensures LastOf(log, i, ACapture) && log[i].Captured? && log[i].target.Some? && Watched(log).target.Some?
    ensures TargetsMatch(log[i].target.value, Watched(log).target.value)
  {
    hide Observe;
    var n := |log| - 1;
    if Watched(log[..n]).matched {
      i := MatchSeen(log[..n]);
    }
    MatchedFrom(Watched(log[..n]), log[n]);
    if log[n].Captured? {
      i := n;
    } else {
      LastNext(log, i, ACapture);
    }
  }

  // The generation seen last before the choice is the one the status was read in.
  lemma {:induction false} ChoiceSeen(log: seq<Event>) returns (i: nat)
    requires Watched(log).chosen.Some? && Watched(log).lawful
    ensures LastOf(log, i, AChoice) && log[i] == Chose(Watched(log).chosen.value)
    ensures Watched(log[..i]).generation.Some? && Watched(log[..i]).generation == Watched(log).statusOf
  {
    hide Observe;
    var n := |log| - 1;
    ChoiceFrom(Watched(log[..n]), log[n]);
    if log[n].Chose? {
      i := n;
    } else {
      i := ChoiceSeen(log[..n]);
      LastNext(log, i, AChoice);
      assert log[..n][..i] == log[..i];
    }
  }

  lemma {:induction false} RestoreSeen(log: seq<Event>) returns (i: nat)
    requires Watched(log).during.Some? && Watched(log).lawful
    ensures LastOf(log, i, ARestore) && Watched(log).target.Some?
    ensures log[i].Restored? && log[i].key == Watched(log).target.value && log[i].ok == Watched(log).restored
    ensures Watched(log[..i]).generation == Watched(log).during
  {
    hide Observe;
    var n := |log| - 1;
    if log[n].Restored? {
      RestoredHere(Watched(log[..n]), log[n]);
      i := n;
    } else {
      RestoredBefore(Watched(log[..n]), log[n]);
      i := RestoreSeen(log[..n]);
      LastNext(log, i, ARestore);
      assert log[..n][..i] == log[..i];
    }
  }

  // The places of what justifies an unmute: the capture of the target; the look before the status, the status and the
  // look after it; the choice of a generation; the look before the restore, the restore and the look after it; the
  // second capture; the last sign of life.
  datatype Grounds = Grounds(begun: nat, checked: nat, status: nat, rechecked: nat, choice: nat, entered: nat,
                             restore: nat, again: nat, seen: nat, alive: nat)

  // A look, and nothing sent since.
  predicate IsFreshLook(log: seq<Event>, i: nat) {
    LastOf(log, i, AnUpset) && IsLook(log[i])
  }

  // Each is the latest of its kind in the same attempt. The two looks around the status found one generation, those
  // around the restore found the chosen one, and it was seen alive.
  ghost predicate AreGrounds(log: seq<Event>, g: Grounds) {
    && LastOf(log, g.begun, Nothing) && log[g.begun].Captured? && log[g.begun].target.Some?
    && LastOf(log, g.status, AStatus) && log[g.status].SawStatus? && log[g.status].status.Some?
    && SafeForRestore(log[g.status].status.value)
    && LastOf(log, g.choice, AChoice) && log[g.choice].Chose?
    && IsFreshLook(log[..g.status], g.checked) && g.status < g.rechecked && IsFreshLook(log[..g.choice], g.rechecked)
    && log[g.checked].generation == log[g.rechecked].generation
    && LastOf(log, g.restore, ARestore) && log[g.restore].Restored? && log[g.restore].key == log[g.begun].target.value
    && IsFreshLook(log[..g.restore], g.entered) && g.restore < g.seen && IsFreshLook(log, g.seen)
    && LastOf(log, g.again, ACapture) && log[g.again].Captured? && log[g.again].target.Some?
    && TargetsMatch(log[g.again].target.value, log[g.begun].target.value)
    && LastOf(log, g.alive, ASighting) && log[g.alive].SawTermination? && !log[g.alive].terminated
    && log[g.choice].generation == log[g.entered].generation == log[g.seen].generation == log[g.alive].generation
  }

  /** Every lawful unmute has its grounds. */
  lemma {:induction false} UnmuteExplained(log: seq<Event>) returns (g: Grounds)
    requires Watched(log).lawful && MayUnmute(Watched(log))
    ensures AreGrounds(log, g)
  {
    hide Watched, Observe;
    var status := StatusSeen(log);
    var choice := ChoiceSeen(log);
    var restore := RestoreSeen(log);
    var checked := LookSeen(log[..status]);
    var rechecked := LookSeen(log[..choice]);
    var entered := LookSeen(log[..restore]);
    var seen := LookSeen(log);
    var begun := TargetSeen(log);
    var again := MatchSeen(log);
    var alive := AliveSeen(log);
    g := Grounds(begun, checked, status, rechecked, choice, entered, restore, again, seen, alive);
    assert AStatus(log[status]) && !AStatus(log[choice]) && AChoice(log[status]);
    assert log[..choice][status] == log[status] && AnUpset(log[status]);
    assert AnUpset(log[restore]) && !IsLook(log[restore]);
  }

  // Generations never fall, and a command reaches one between those before and after it.
  ghost predicate Orderly(world: World) {
    forall m: nat, n: nat :: m < n ==>
      && world(m).generation <= world(n).generation
      && (world(m).reached.Some? ==> world(m).reached.value <= world(n).generation)
      && (world(n).reached.Some? ==> world(m).generation <= world(n).reached.value)
  }

  // The safe status was read and the target's arrangement put in place in the very generation the unmute has reached.
  ghost predicate KeepsPromise(log: seq<Event>, g: Grounds, n: nat)
    requires n < |log| && log[n].Unmuted? && AreGrounds(log[..n], g)
  {
    && log[n].reached.Some? && log[g.status].reached == log[n].reached
    && log[g.restore].ok && log[g.restore].reached == log[n].reached
  }

  lemma {:induction false} Between(world: World, log: seq<Event>, i: nat, k: nat, j: nat)
    requires Orderly(world) && Extends(world, [], log) && i < k < j < |log|
    requires IsLook(log[i]) && IsLook(log[j]) && log[i].generation == log[j].generation
    requires log[k].SawStatus? || log[k].Restored? || log[k].Unmuted?
    ensures log[k].reached.Some? ==> log[k].reached == Some(log[i].generation)
  {
    assert Tells(log[i], world(i)) && Tells(log[k], world(k)) && Tells(log[j], world(j));
  }

  lemma {:induction false} SaysReached(world: World, log: seq<Event>, k: nat)
    requires Extends(world, [], log) && k < |log|
    ensures (log[k].SawStatus? && log[k].status.Some?) || ((log[k].Restored? || log[k].Unmuted?) && log[k].ok) ==>
              log[k].reached.Some?
  {
    assert Tells(log[k], world(k));
  }

  lemma {:induction false} KeptExactlyWhen(world: World, log: seq<Event>, g: Grounds, n: nat)
    requires Orderly(world) && Extends(world, [], log) && n < |log| && log[n].Unmuted? && AreGrounds(log[..n], g)
    ensures KeepsPromise(log, g, n) <==>
            && log[g.choice].generation == log[g.checked].generation && log[g.restore].ok
            && log[n].reached == Some(log[g.choice].generation)
  {
    hide Orderly, Tells, Extends;
    assert forall k :: 0 <= k < n ==> log[..n][k] == log[k];
    Between(world, log, g.checked, g.status, g.rechecked);
    Between(world, log, g.entered, g.restore, g.seen);
    SaysReached(world, log, g.status);
    SaysReached(world, log, g.restore);
  }

  /** For every unmute of every run: the safe status was read and the arrangement put in place in the generation that is
      unmuted if and only if the look after the safety check found the generation of the status, the restore was
      answered well, and the request to unmute reached the chosen generation. The other grounds are always there. */
  lemma {:induction false} PromiseKept(world: World, patience: nat, n: nat) returns (g: Grounds)
    requires Orderly(world)
    requires n < |InitializeRuntime(world, patience).log| && InitializeRuntime(world, patience).log[n].Unmuted?
    ensures var log := InitializeRuntime(world, patience).log;
      && AreGrounds(log[..n], g)
      && (KeepsPromise(log, g, n) <==>
          && log[g.choice].generation == log[g.checked].generation && log[g.restore].ok
          && log[n].reached == Some(log[g.choice].generation))
  {
    hide InitializeRuntime, Watched, AreGrounds, KeepsPromise;
    var log := InitializeRuntime(world, patience).log;
    StartupIsLawful(world, patience);
    LawfulSoFar(log, n);
    g := UnmuteExplained(log[..n]);
    RunTells(world, patience);
    KeptExactlyWhen(world, log, g, n);
  }

  // The generation chosen is the one seen right before the unmute.
  lemma {:induction false} ChosenIsSeen(log: seq<Event>, g: Grounds, n: nat)
    requires n <= |log| && AreGrounds(log[..n], g) && ReleasedAt(log, n)
    ensures log[n - 1].generation == log[g.choice].generation
    ensures !log[n - 4].Restored? ==> log[g.restore].ok
  {
    assert ASighting(log[..n][n - 1]) && AnUpset(log[..n][n - 2]);
    assert g.alive == n - 1;
    if !log[n - 4].Restored? {
      assert ARestore(log[..n][n - 6]);
      assert g.restore == n - 6;
    }
  }

  /** The look that follows an unmute answered well notices where it went: when it finds the chosen generation, the
      request has reached that one. */
  lemma {:induction false} SeenIsReached(world: World, patience: nat, n: nat)
    requires Orderly(world)
    requires var log := InitializeRuntime(world, patience).log; n < |log| && log[n].Unmuted? && log[n].ok
    ensures var log := InitializeRuntime(world, patience).log;
      && ReleasedAt(log, n) && Looked(log, n)
      && (log[n + 1].generation == log[n - 1].generation ==> log[n].reached == Some(log[n - 1].generation))
  {
    hide Orderly, Tells, Extends, Generations;
    GenerationsGo(world, [], patience, GENERATION_RETRY_LIMIT);
    var log := InitializeRuntime(world, patience).log;
    assert Settled(log, InitializeRuntime(world, patience).result, n);
    if log[n + 1].generation == log[n - 1].generation {
      Between(world, log, n - 2, n, n + 1);
      SaysReached(world, log, n);
    }
  }

  lemma {:induction false} SuccessKept(world: World, log: seq<Event>, g: Grounds, n: nat)
    requires Orderly(world) && Extends(world, [], log) && EndsWell(log) && n == |log| - 5 && AreGrounds(log[..n], g)
    ensures log[g.restore].ok && log[g.restore].reached == Some(log[g.choice].generation)
    ensures log[n - 1].generation == log[g.choice].generation
    ensures log[n + 4] == Completed(log[g.choice].generation, true)
  {
    hide Orderly, Extends, Tells;
    ChosenIsSeen(log, g, n);
    assert forall k :: 0 <= k < n ==> log[..n][k] == log[k];
    SaysReached(world, log, g.restore);
    Between(world, log, g.entered, g.restore, g.seen);
  }

  lemma {:induction false} AliveAgain(log: seq<Event>) returns (n: nat)
    requires EndsWell(log)
    ensures 0 < n == |log| - 5 && log[n].Unmuted? && log[n].ok
    ensures log[n - 1].SawTermination? && log[n + 1].SawGeneration?
    ensures log[n + 1].generation == log[n - 1].generation
  {
    n := |log| - 5;
  }

  /** When startup reports no error, its last unmute has reached the chosen generation, the arrangement is in place in
      it, and it is the generation completed. So it keeps the promise if and only if the look after the safety check
      found the generation of the status. */
  lemma {:induction false} SuccessKeepsExactlyWhen(world: World, patience: nat) returns (g: Grounds, n: nat)
    requires Orderly(world) && Succeeds(InitializeRuntime(world, patience).result)
    ensures var log := InitializeRuntime(world, patience).log;
      && n == |log| - 5 && log[n].Unmuted? && AreGrounds(log[..n], g)
      && log[n].reached == log[g.restore].reached == Some(log[g.choice].generation)
      && log[n + 4] == Completed(log[g.choice].generation, true)
      && (KeepsPromise(log, g, n) <==> log[g.choice].generation == log[g.checked].generation)
  {
    hide *;
    var log := InitializeRuntime(world, patience).log;
    SuccessEndsWell(world, patience);
    RunTells(world, patience);
    n := AliveAgain(log);
    g := PromiseKept(world, patience, n);
    SuccessKept(world, log, g, n);
    SeenIsReached(world, patience, n);
  }
}
