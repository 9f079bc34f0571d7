/** Background jobs: what each locked operation does to a job, and what every interleaving of them keeps. */
module JobRules {
  import opened Wrappers

  datatype Kind = Scan | Render | RenderStems | AnalysisMeasure

  datatype State = Queued | Running | Cancelling | Completed | Failed | Cancelled

  // An id is the label of its kind and its number.
  datatype Id = Id(kind: Kind, sequence: nat)

  datatype Job<R> = Job(state: State, progress: Option<real>, message: string, result: Option<R>,
                        source: Option<string>, cancelled: bool)

  // `promoted` counts, for the proof, how often the output of a job has been put in place.
  datatype Registry<R> = Registry(jobs: map<Id, Job<R>>, sequence: nat, promoted: multiset<Id>)

  const NO_RESULT: string := "Job cancelled; no partial result was promoted."
  const REQUESTED: string := "Cancellation requested; the worker is finishing its current block."
  const SHUTTING_DOWN: string := "Cancellation requested because the Host is shutting down."

  datatype Operation<R> =
    | Start(kind: Kind, source: Option<string>)
    | SetRunning(id: Id, message: string)
    | SetProgress(id: Id, progress: real, message: string)
    | Complete(id: Id, result: R, message: string)
    | Fail(id: Id, message: string)
    | Cancel(id: Id, message: string)
    | MarkCancelled(id: Id)

  predicate Terminal(state: State) {
    state.Completed? || state.Failed? || state.Cancelled?
  }

  function Label(kind: Kind): string {
    match kind
    case Scan => "scan"
    case Render => "render"
    case RenderStems => "render-stems"
    case AnalysisMeasure => "analysis-measure"
  }

  function Clamp(progress: real): real {
    if progress < 0.0 then 0.0 else if progress > 1.0 then 1.0 else progress
  }

  function Fresh<R>(kind: Kind, source: Option<string>): Job<R> {
    Job(Queued, None, Label(kind) + " job queued.", None, source, false)
  }

  function Higher(a: real, b: real): real {
    if a < b then b else a
  }

  // One operation on the job it names, under the lock of that job.
  function Change<R>(job: Job<R>, operation: Operation<R>): Job<R> {
    match operation
    case Start(_, _) => job
    case SetRunning(_, message) =>
      if job.state.Queued? then job.(state := Running, message := message) else job
    case SetProgress(_, progress, message) =>
      if job.state.Running? then job.(progress := Some(Higher(job.progress.GetOr(0.0), Clamp(progress))),
                                      message := message) else job
    case Complete(_, result, message) =>
      if job.cancelled || job.state.Cancelling? then job.(state := Cancelled, message := NO_RESULT, result := None)
      else if Terminal(job.state) then job
      else job.(state := Completed, progress := Some(1.0), message := message, result := Some(result))
    case Fail(_, message) =>
      if Terminal(job.state) then job
      else if job.cancelled then job.(state := Cancelled, message := NO_RESULT)
      else job.(state := Failed, message := message)
    case Cancel(_, message) =>
      if Terminal(job.state) then job else job.(state := Cancelling, cancelled := true, message := message)
    case MarkCancelled(_) =>
      if Terminal(job.state) then job else job.(state := Cancelled, message := NO_RESULT, result := None)
  }

  // Whether the output is promoted, which is also what the caller is told.
  predicate Promotes<R>(job: Job<R>, operation: Operation<R>) {
    operation.Complete? && !job.cancelled && !job.state.Cancelling? && !Terminal(job.state)
  }

  function Step<R>(registry: Registry<R>, operation: Operation<R>): Registry<R> {
    if operation.Start? then
      registry.(jobs := registry.jobs[Id(operation.kind, registry.sequence) := Fresh(operation.kind, operation.source)],
                sequence := registry.sequence + 1)
    else if operation.id !in registry.jobs then registry
    else
      var job := registry.jobs[operation.id];
      var promotions := registry.promoted[operation.id] + if Promotes(job, operation) then 1 else 0;
      registry.(jobs := registry.jobs[operation.id := Change(job, operation)],
                promoted := registry.promoted[operation.id := promotions])
  }

  function Run<R>(registry: Registry<R>, operations: seq<Operation<R>>): Registry<R>
    decreases |operations|
  {
    if operations == [] then registry else Run(Step(registry, operations[0]), operations[1..])
  }

  function Empty<R>(): Registry<R> {
    Registry(map[], 0, multiset{})
  }

  /** What is always true of a job: the cancelled flag is set exactly while it is Cancelling and possibly once it is
      Cancelled, a result is there exactly when it is Completed, and its output has been promoted once then and never
      otherwise. */
  predicate Coherent<R>(job: Job<R>, promotions: nat) {
    && (job.cancelled ==> job.state.Cancelling? || job.state.Cancelled?)
    && (job.state.Cancelling? ==> job.cancelled)
    && (job.result.Some? <==> job.state.Completed?)
    && (job.progress.Some? ==> 0.0 <= job.progress.value <= 1.0)
    && (job.state.Completed? ==> job.progress == Some(1.0))
    && (job.state.Cancelled? ==> job.message == NO_RESULT)
    && promotions == if job.state.Completed? then 1 else 0
  }

  ghost predicate Inv<R(!new)>(registry: Registry<R>) {
    && (forall id :: id in registry.jobs ==>
          Coherent(registry.jobs[id], registry.promoted[id]) && id.sequence < registry.sequence)
    && forall id: Id :: id !in registry.jobs ==> registry.promoted[id] == 0
  }

  predicate Moves(from: State, to: State) {
    match from
    case Queued => true
    case Running => !to.Queued?
    case Cancelling => to.Cancelling? || to.Cancelled?
    case _ => to == from
  }

  predicate AtLeast(after: Option<real>, before: Option<real>) {
    before.Some? ==> after.Some? && before.value <= after.value
  }

  /** How a job may develop: terminal jobs never change in anything, an accepted cancellation is never taken back and
      ends in Cancelled only, and progress never falls. */
  predicate Develops<R(==)>(before: Job<R>, after: Job<R>) {
    && Moves(before.state, after.state)
    && (Terminal(before.state) ==> after == before)
    && (before.cancelled ==> after.cancelled)
    && AtLeast(after.progress, before.progress)
    && after.source == before.source
  }

  lemma {:induction false} ChangeDevelops<R(!new)>(job: Job<R>, operation: Operation<R>, promotions: nat)
    requires Coherent(job, promotions)
    ensures Develops(job, Change(job, operation))
    ensures Coherent(Change(job, operation), if Promotes(job, operation) then promotions + 1 else promotions)
  {
  }

  // No job disappears, and each develops.
  ghost predicate Grows<R(!new)>(before: Registry<R>, after: Registry<R>) {
    forall id :: id in before.jobs ==> id in after.jobs && Develops(before.jobs[id], after.jobs[id])
  }

  lemma {:induction false} GrowsOn<R(!new)>(a: Registry<R>, b: Registry<R>, c: Registry<R>)
    requires Grows(a, b) && Grows(b, c)
    ensures Grows(a, c)
  {
  }

  lemma {:induction false} StepDevelops<R(!new)>(registry: Registry<R>, operation: Operation<R>)
    requires Inv(registry)
    ensures Inv(Step(registry, operation))
    ensures Grows(registry, Step(registry, operation))
  {
    hide Change, Develops, Coherent, Promotes;
    if !operation.Start? && operation.id in registry.jobs {
      ChangeDevelops(registry.jobs[operation.id], operation, registry.promoted[operation.id]);
    }
    StartCoherent<R>(operation);
    forall id | id in registry.jobs ensures Develops(registry.jobs[id], registry.jobs[id]) {
      DevelopsSelf(registry.jobs[id]);
    }
  }

  lemma {:induction false} EmptyIsCoherent<R(!new)>()
    ensures Inv(Empty<R>())
  {
  }

  lemma {:induction false} DevelopsSelf<R(!new)>(job: Job<R>)
    ensures Develops(job, job)
  {
  }

  lemma {:induction false} StartCoherent<R(!new)>(operation: Operation<R>)
    ensures operation.Start? ==> Coherent<R>(Fresh(operation.kind, operation.source), 0)
  {
  }

  /** Over every interleaving each job stays coherent and only ever develops. */
  lemma {:induction false} RunDevelops<R(!new)>(registry: Registry<R>, operations: seq<Operation<R>>)
    requires Inv(registry)
    ensures Inv(Run(registry, operations))
    ensures Grows(registry, Run(registry, operations))
    decreases |operations|
  {
    hide Step, Develops, Inv;
    if operations != [] {
      StepDevelops(registry, operations[0]);
      RunDevelops(Step(registry, operations[0]), operations[1..]);
      GrowsOn(registry, Step(registry, operations[0]), Run(registry, operations));
    } else {
      forall id | id in registry.jobs ensures Develops(registry.jobs[id], registry.jobs[id]) {
        DevelopsSelf(registry.jobs[id]);
      }
    }
  }

  /** From the empty registry on, whatever interleaving of operations has come and whatever follows: every job is
      coherent, its id is its own, and it only ever develops. */
  lemma {:induction false} EveryInterleaving<R(!new)>(operations: seq<Operation<R>>, more: seq<Operation<R>>, id: Id)
    ensures var registry := Run(Empty<R>(), operations);
      var after := Run(registry, more);
      id in registry.jobs ==>
        && Coherent(registry.jobs[id], registry.promoted[id]) && id.sequence < registry.sequence
        && id in after.jobs && Coherent(after.jobs[id], after.promoted[id])
             && Develops(registry.jobs[id], after.jobs[id])
  {
    hide Coherent, Develops;
    EmptyIsCoherent<R>();
    RunDevelops(Empty<R>(), operations);
    RunDevelops(Run(Empty<R>(), operations), more);
  }

  /** A promotion happens exactly when the job becomes Completed. */
  lemma {:induction false} PromotedWhenCompleted<R(!new)>(registry: Registry<R>, operation: Operation<R>, id: Id)
    requires Inv(registry) && id in registry.jobs
    ensures var after := Step(registry, operation);
      after.promoted[id] > registry.promoted[id] <==>
        !registry.jobs[id].state.Completed? && after.jobs[id].state.Completed?
  {
    StepDevelops(registry, operation);
  }

  /** After an accepted cancellation, whatever the workers do, the job is Cancelling or Cancelled, holds no result, and
      its output is never promoted. */
  lemma {:induction false} CancelExcludesPromotion<R(!new)>(registry: Registry<R>, id: Id, message: string,
                                                            operations: seq<Operation<R>>)
    requires Inv(registry) && id in registry.jobs && !Terminal(registry.jobs[id].state)
    ensures var after := Run(Step(registry, Cancel(id, message)), operations);
      && id in after.jobs
      && (after.jobs[id].state.Cancelling? || after.jobs[id].state.Cancelled?)
      && after.jobs[id].cancelled && after.jobs[id].result == None && after.promoted[id] == 0
  {
    StepDevelops(registry, Cancel(id, message));
    RunDevelops(Step(registry, Cancel(id, message)), operations);
  }

  /** And after a promotion, no cancellation is accepted any more: the result stays. */
  lemma {:induction false} PromotionExcludesCancel<R(!new)>(registry: Registry<R>, id: Id,
                                                            operations: seq<Operation<R>>)
    requires Inv(registry) && id in registry.jobs && registry.promoted[id] > 0
    ensures var after := Run(registry, operations);
      id in after.jobs && after.jobs[id] == registry.jobs[id] && after.promoted[id] == 1 && after.jobs[id].result.Some?
  {
    RunDevelops(registry, operations);
  }

  // A scan or a cancellation of all jobs looks at one job at a time; other operations come in between.
  ghost function CancelEach<R>(registry: Registry<R>, ids: seq<Id>, between: seq<seq<Operation<R>>>): Registry<R>
    requires |between| == |ids|
    decreases |ids|
  {
    if ids == [] then registry
    else CancelEach(Step(Run(registry, between[0]), Cancel(ids[0], SHUTTING_DOWN)), ids[1..], between[1..])
  }

  predicate Active<R>(job: Job<R>) {
    !Terminal(job.state)
  }

  predicate Stopped<R>(job: Job<R>) {
    job.state.Cancelling? || Terminal(job.state)
  }

  lemma {:induction false} NoRun<R(!new)>(registry: Registry<R>)
    ensures Run(registry, []) == registry
  {
  }

  lemma {:induction false} CancelStops<R(!new)>(registry: Registry<R>, id: Id)
    requires id in registry.jobs
    ensures id in Step(registry, Cancel(id, SHUTTING_DOWN)).jobs
    ensures Stopped(Step(registry, Cancel(id, SHUTTING_DOWN)).jobs[id])
  {
  }

  lemma {:induction false} StaysStopped<R(!new)>(before: Job<R>, after: Job<R>)
    requires Develops(before, after) && Stopped(before)
    ensures Stopped(after)
  {
  }

  /** When the Host shuts down, no job that was there at the start stays queued or running, whatever happens
      meanwhile. */
  lemma {:induction false} AllCancelled<R(!new)>(registry: Registry<R>, ids: seq<Id>, between: seq<seq<Operation<R>>>)
    requires Inv(registry) && |between| == |ids| && forall id :: id in ids ==> id in registry.jobs
    ensures var after := CancelEach(registry, ids, between);
      && Inv(after)
      && Grows(registry, after)
      && forall id :: id in ids ==> Stopped(after.jobs[id])
    decreases |ids|
  {
    hide Run, Step, Develops, Inv;
    if ids == [] {
      RunDevelops(registry, []);
      NoRun(registry);
    } else {
      var met := Run(registry, between[0]);
      RunDevelops(registry, between[0]);
      assert ids[0] in ids;
      var next := Step(met, Cancel(ids[0], SHUTTING_DOWN));
      StepDevelops(met, Cancel(ids[0], SHUTTING_DOWN));
      GrowsOn(registry, met, next);
      CancelStops(met, ids[0]);
      AllCancelled(next, ids[1..], between[1..]);
      var after := CancelEach(next, ids[1..], between[1..]);
      GrowsOn(registry, next, after);
      StaysStopped(next.jobs[ids[0]], after.jobs[ids[0]]);
    }
  }

  predicate Blocks<R>(id: Id, job: Job<R>, render: string) {
    (id.kind.Render? || id.kind.RenderStems? || job.source == Some(render))
    && (job.state.Queued? || job.state.Running? || job.state.Cancelling?)
  }

  lemma {:induction false} BlockedBefore<R(!new)>(id: Id, before: Job<R>, after: Job<R>, render: string)
    requires Develops(before, after)
    ensures Blocks(id, after, render) ==> Blocks(id, before, render)
  {
  }

  // The jobs found to block, looking at each in turn while other operations go on.
  ghost function Scanned<R>(registry: Registry<R>, render: string, ids: seq<Id>,
                            between: seq<seq<Operation<R>>>): (Registry<R>, seq<Id>)
    requires |between| == |ids|
    decreases |ids|
  {
    if ids == [] then (registry, [])
    else
      var met := Run(registry, between[0]);
      var (after, found) := Scanned(met, render, ids[1..], between[1..]);
      (after, (if ids[0] in met.jobs && Blocks(ids[0], met.jobs[ids[0]], render) then [ids[0]] else []) + found)
  }

  /** A scan for jobs that keep a render from being deleted is sound: whatever goes on while it runs, every job looked
      at that blocks at the end is in the list, and everything in the list blocked at the start. */
  lemma {:induction false} ScanIsSound<R(!new)>(registry: Registry<R>, render: string, ids: seq<Id>,
                                                between: seq<seq<Operation<R>>>)
    requires Inv(registry) && |between| == |ids| && forall id :: id in ids ==> id in registry.jobs
    ensures var (after, found) := Scanned(registry, render, ids, between);
      && Inv(after)
      && Grows(registry, after)
      && (forall id :: id in ids && Blocks(id, after.jobs[id], render) ==> id in found)
      && (forall id :: id in found ==> id in ids && Blocks(id, registry.jobs[id], render))
    decreases |ids|
  {
    hide Run, Step, Develops, Inv, Blocks;
    if ids == [] {
      RunDevelops(registry, []);
      NoRun(registry);
    } else {
      var met := Run(registry, between[0]);
      RunDevelops(registry, between[0]);
      assert ids[0] in ids;
      ScanIsSound(met, render, ids[1..], between[1..]);
      var after := Scanned(met, render, ids[1..], between[1..]).0;
      GrowsOn(registry, met, after);
      forall id | id in ids ensures Blocks(id, met.jobs[id], render) ==> Blocks(id, registry.jobs[id], render) {
        BlockedBefore(id, registry.jobs[id], met.jobs[id], render);
      }
      forall id | id in ids ensures Blocks(id, after.jobs[id], render) ==> Blocks(id, met.jobs[id], render) {
        BlockedBefore(id, met.jobs[id], after.jobs[id], render);
      }
    }
  }

  // The progress reported, brought between zero and one.
  predicate IsWithinUnit(progress: real, reported: real) {
    0.0 <= progress <= 1.0 && (0.0 <= reported <= 1.0 ==> progress == reported)
    && (reported < 0.0 ==> progress == 0.0) && (reported > 1.0 ==> progress == 1.0)
  }

  // The greater of what was reported now and before.
  ghost predicate IsGreater(progress: real, before: Option<real>, reported: real) {
    var least := before.GetOr(0.0);
    exists now: real :: IsWithinUnit(now, reported) && progress >= now && progress >= least
                        && (progress == now || progress == least)
  }

  /** What an operation brings about for the job it names. */
  ghost predicate Brings<R(!new)>(job: Job<R>, operation: Operation<R>, after: Job<R>) {
    var ended := job.state in [Completed, Failed, Cancelled];
    match operation
    case Start(_, _) => after == job
    case SetRunning(_, message) =>
      after == if job.state == Queued then Job(Running, job.progress, message, job.result, job.source, job.cancelled)
               else job
    case SetProgress(_, reported, message) =>
      if job.state != Running then after == job
      else
        && after.progress.Some? && IsGreater(after.progress.value, job.progress, reported)
        && after == Job(Running, after.progress, message, job.result, job.source, job.cancelled)
    case Complete(_, result, message) =>
      after == if job.cancelled || job.state == Cancelling then
                 Job(Cancelled, job.progress, NO_RESULT, None, job.source, job.cancelled)
               else if ended then job
               else Job(Completed, Some(1.0), message, Some(result), job.source, false)
    case Fail(_, message) =>
      after == if ended then job
               else if job.cancelled then Job(Cancelled, job.progress, NO_RESULT, job.result, job.source, true)
               else Job(Failed, job.progress, message, job.result, job.source, false)
    case Cancel(_, message) =>
      after == if ended then job else Job(Cancelling, job.progress, message, job.result, job.source, true)
    case MarkCancelled(_) =>
      after == if ended then job else Job(Cancelled, job.progress, NO_RESULT, None, job.source, job.cancelled)
  }

  lemma {:induction false} ChangeBrings<R(!new)>(job: Job<R>, operation: Operation<R>)
    ensures Brings(job, operation, Change(job, operation))
  {
    if operation.SetProgress? {
      assert IsWithinUnit(Clamp(operation.progress), operation.progress);
    }
  }

  lemma {:induction false} BringsOne<R(!new)>(job: Job<R>, operation: Operation<R>, a: Job<R>, b: Job<R>)
    requires Brings(job, operation, a) && Brings(job, operation, b)
    ensures a == b
  {
  }

  /** What each operation brings about in the registry: a start adds a queued job under the next number; any other
      changes the job it names, if there is one, in exactly this way, promotes its output exactly when it becomes
      Completed by this operation, and leaves every other job alone. */
  lemma {:induction false} StepBringsExactly<R(!new)>(registry: Registry<R>, operation: Operation<R>,
                                                      after: Registry<R>)
    ensures after == Step(registry, operation) <==>
      if operation.Start? then
        var id := Id(operation.kind, registry.sequence);
        && after.sequence == registry.sequence + 1 && after.promoted == registry.promoted
        && after.jobs == registry.jobs[id := Job(Queued, None, Label(operation.kind) + " job queued.", None,
                                                 operation.source, false)]
      else if operation.id !in registry.jobs then after == registry
      else
        var id, job := operation.id, registry.jobs[operation.id];
        && after.sequence == registry.sequence
        && id in after.jobs && after.jobs == registry.jobs[id := after.jobs[id]]
        && Brings(job, operation, after.jobs[id])
        && after.promoted ==
           if operation.Complete? && !job.cancelled && job.state in [Queued, Running]
           then registry.promoted + multiset{id} else registry.promoted
  {
    hide Change, Brings;
    if !operation.Start? && operation.id in registry.jobs {
      var id, job := operation.id, registry.jobs[operation.id];
      ChangeBrings(job, operation);
      if id in after.jobs && Brings(job, operation, after.jobs[id]) {
        BringsOne(job, operation, after.jobs[id], Change(job, operation));
      }
    }
  }
}
