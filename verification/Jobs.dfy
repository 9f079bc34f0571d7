/** The registry of background jobs as the object the workers and the user share. Each method that names a job holds the
    lock of that job for the whole of its step. */
module Jobs {
  import opened Wrappers
  import opened JobRules

  class JobRegistry<R(==)> {
    var jobs: map<Id, Job<R>>
    var sequence: nat
    ghost var promoted: multiset<Id>

    constructor ()
      ensures Value() == Empty()
    {
      jobs, sequence, promoted := map[], 0, multiset{};
    }

    ghost function Value(): Registry<R>
      reads this
    {
      Registry(jobs, sequence, promoted)
    }

    method Start(kind: Kind, source: Option<string>) returns (id: Id, job: Job<R>)
      modifies this
      ensures Value() == Step(old(Value()), Operation.Start(kind, source))
      ensures id == Id(kind, old(sequence)) && id in jobs && job == jobs[id]
    {
      id := Id(kind, sequence);
      sequence := sequence + 1;
      job := Job(Queued, None, Label(kind) + " job queued.", None, source, false);
      jobs := jobs[id := job];
    }

    method SetRunning(id: Id, message: string)
      modifies this
      ensures Value() == Step(old(Value()), Operation.SetRunning(id, message))
    {
      if id in jobs && jobs[id].state == Queued {
        jobs := jobs[id := jobs[id].(state := Running, message := message)];
      }
      assert id in jobs ==> jobs == jobs[id := jobs[id]];
    }

    method SetProgress(id: Id, progress: real, message: string)
      modifies this
      ensures Value() == Step(old(Value()), Operation.SetProgress(id, progress, message))
    {
      if id in jobs && jobs[id].state == Running {
        var before := jobs[id].progress.GetOr(0.0);
        var clamped := Clamp(progress);
        jobs := jobs[id := jobs[id].(progress := Some(if before < clamped then clamped else before),
                                     message := message)];
      }
      assert id in jobs ==> jobs == jobs[id := jobs[id]];
    }

    /** True exactly when the job completes and its output is promoted. */
    method CompleteIfNotCancelled(id: Id, result: R, message: string) returns (completed: bool)
      modifies this
      ensures Value() == Step(old(Value()), Complete(id, result, message))
      ensures completed <==> id in old(jobs) && Promotes(old(jobs)[id], Complete(id, result, message))
    {
      if id !in jobs {
        return false;
      }
      var job := jobs[id];
      if job.cancelled || job.state == Cancelling {
        jobs := jobs[id := job.(state := Cancelled, message := NO_RESULT, result := None)];
        return false;
      }
      if job.state == Cancelled || job.state == Completed || job.state == Failed {
        assert jobs == jobs[id := job];
        return false;
      }
      promoted := promoted[id := promoted[id] + 1];
      jobs := jobs[id := job.(state := Completed, progress := Some(1.0), message := message, result := Some(result))];
      return true;
    }

    method Fail(id: Id, message: string)
      modifies this
      ensures Value() == Step(old(Value()), Operation.Fail(id, message))
    {
      if id in jobs && !Terminal(jobs[id].state) {
        if jobs[id].cancelled {
          jobs := jobs[id := jobs[id].(state := Cancelled, message := NO_RESULT)];
        } else {
          jobs := jobs[id := jobs[id].(state := Failed, message := message)];
        }
      }
      assert id in jobs ==> jobs == jobs[id := jobs[id]];
    }

    method Cancel(id: Id) returns (job: Option<Job<R>>)
      modifies this
      ensures Value() == Step(old(Value()), Operation.Cancel(id, REQUESTED))
      ensures job == if id in jobs then Some(jobs[id]) else None
    {
      if id !in jobs {
        return None;
      }
      if !Terminal(jobs[id].state) {
        jobs := jobs[id := jobs[id].(cancelled := true, state := Cancelling, message := REQUESTED)];
      }
      assert jobs == jobs[id := jobs[id]];
      return Some(jobs[id]);
    }

    method MarkCancelled(id: Id)
      modifies this
      ensures Value() == Step(old(Value()), Operation.MarkCancelled(id))
    {
      if id in jobs && !Terminal(jobs[id].state) {
        jobs := jobs[id := jobs[id].(state := Cancelled, message := NO_RESULT, result := None)];
      }
      assert id in jobs ==> jobs == jobs[id := jobs[id]];
    }

    // In whatever order the jobs are met.
    method CancelAll()
      modifies this
      ensures jobs == map id | id in old(jobs) :: Change(old(jobs)[id], Operation.Cancel(id, SHUTTING_DOWN))
      ensures sequence == old(sequence) && promoted == old(promoted)
    {
      var records := jobs.Keys;
      while records != {}
        invariant records <= old(jobs).Keys == jobs.Keys && sequence == old(sequence) && promoted == old(promoted)
        invariant forall id :: id in jobs ==>
          jobs[id] == if id in records then old(jobs)[id]
                      else Change(old(jobs)[id], Operation.Cancel(id, SHUTTING_DOWN))
        decreases |records|
      {
        var id :| id in records;
        if !Terminal(jobs[id].state) {
          jobs := jobs[id := jobs[id].(cancelled := true, state := Cancelling, message := SHUTTING_DOWN)];
        }
        records := records - {id};
      }
    }

    method RenderDeletionBlockers(render: string) returns (active: seq<Id>)
      ensures forall id :: id in active <==>
        && id in jobs && (id.kind in [Render, RenderStems] || jobs[id].source == Some(render))
        && jobs[id].state in [Queued, Running, Cancelling]
      ensures forall i, j :: 0 <= i < j < |active| ==> active[i] != active[j]
    {
      var records := jobs.Keys;
      active := [];
      while records != {}
        invariant records <= jobs.Keys
        invariant forall id :: id in active <==> id in jobs && id !in records && Blocks(id, jobs[id], render)
        invariant forall i, j :: 0 <= i < j < |active| ==> active[i] != active[j]
        decreases |records|
      {
        var id :| id in records;
        var job := jobs[id];
        if (id.kind == Render || id.kind == RenderStems || job.source == Some(render))
           && (job.state == Queued || job.state == Running || job.state == Cancelling) {
          active := active + [id];
        }
        records := records - {id};
      }
    }
  }
}
