/** The canonical core of one project as the object that commits, undoes and redoes in place. */
module AppCore {
  import opened Wrappers
  import opened CanonicalSession

  // The port to storage; whether a save is accepted is the answer of the world outside.
  class SessionStorage<C> {
    ghost var saved: seq<Session<C>>

    method Save(session: Session<C>, accepts: bool) returns (ok: bool)
      modifies this
      ensures ok == accepts
      ensures saved == if ok then old(saved) + [session] else old(saved)
    {
      if accepts {
        saved := saved + [session];
      }
      return accepts;
    }
  }

  class History<C> {
    var undo: seq<Session<C>>
    var redo: seq<Session<C>>

    constructor ()
      ensures undo == [] && redo == []
    {
      undo, redo := [], [];
    }

    method Record(previous: Session<C>)
      modifies this
      ensures undo == Push(old(undo), previous) && redo == []
    {
      undo := undo + [previous];
      if |undo| > HISTORY_LIMIT {
        undo := undo[1..];
      }
      redo := [];
    }

    method TakeUndo() returns (entry: Option<Session<C>>)
      modifies this
      ensures redo == old(redo)
      ensures entry.None? ==> old(undo) == [] && undo == []
      ensures entry.Some? ==> old(undo) == undo + [entry.value]
    {
      if undo == [] {
        return None;
      }
      entry := Some(undo[|undo| - 1]);
      undo := undo[..|undo| - 1];
    }

    method TakeRedo() returns (entry: Option<Session<C>>)
      modifies this
      ensures undo == old(undo)
      ensures entry.None? ==> old(redo) == [] && redo == []
      ensures entry.Some? ==> old(redo) == redo + [entry.value]
    {
      if redo == [] {
        return None;
      }
      entry := Some(redo[|redo| - 1]);
      redo := redo[..|redo| - 1];
    }

    method PushUndo(session: Session<C>)
      modifies this
      ensures undo == Push(old(undo), session) && redo == old(redo)
    {
      undo := undo + [session];
      if |undo| > HISTORY_LIMIT {
        undo := undo[1..];
      }
    }

    method PushRedo(session: Session<C>)
      modifies this
      ensures redo == Push(old(redo), session) && undo == old(undo)
    {
      redo := redo + [session];
      if |redo| > HISTORY_LIMIT {
        redo := redo[1..];
      }
    }
  }

  class AppCore<C(==)> {
    var session: Session<C>
    var sequence: nat
    const history: History<C>

    constructor (session: Session<C>, sequence: nat)
      ensures Value() == Core(session, sequence, [], []) && fresh(history)
    {
      this.session, this.sequence := session, sequence;
      history := new History();
    }

    ghost function Value(): Core<C>
      reads this, history
    {
      Core(session, sequence, history.undo, history.redo)
    }

    ghost function With(storage: SessionStorage<C>): State<C>
      reads this, history, storage
    {
      State(Value(), storage.saved)
    }

    method Exchange(session: Session<C>)
      modifies this
      ensures Value() == old(Value()).(session := session, sequence := old(sequence) + 1)
    {
      this.session, sequence := session, sequence + 1;
    }

    method CommitCandidate(rules: Rules<C>, storage: SessionStorage<C>, candidate: Session<C>, world: World)
        returns (r: Outcome<C>)
      modifies this, history, storage
      ensures (With(storage), r) == Candidate(rules, old(With(storage)), candidate, world)
    {
      var normalized := Normalized(rules, candidate);
      if normalized.None? {
        return Failed(InvalidSession);
      }
      var next := normalized.value;
      if next == session {
        return Done(next);
      }
      next := next.(updatedAt := NextUpdate(world.clock, session.updatedAt, next.updatedAt));
      var saved := storage.Save(next, world.accepts);
      if !saved {
        return Failed(StorageFailed);
      }
      history.Record(session);
      Exchange(next);
      return Done(next);
    }

    method Commit(rules: Rules<C>, storage: SessionStorage<C>, edit: Session<C> -> Option<Session<C>>, world: World)
        returns (r: Outcome<C>)
      modifies this, history, storage
      ensures (With(storage), r) == Step(rules, old(With(storage)), Operation.Commit(edit), world)
    {
      var candidate := edit(session);
      if candidate.None? {
        return Failed(EditFailed);
      }
      r := CommitCandidate(rules, storage, candidate.value, world);
    }

    method CommitPrepared(rules: Rules<C>, storage: SessionStorage<C>, prepared: Prepared<C>, world: World)
        returns (r: Outcome<C>)
      modifies this, history, storage
      ensures (With(storage), r) == Step(rules, old(With(storage)), Operation.CommitPrepared(prepared), world)
    {
      if sequence != prepared.expected {
        return Failed(Conflict(prepared.expected, sequence));
      }
      r := CommitCandidate(rules, storage, prepared.session, world);
    }

    method CommitMerged(rules: Rules<C>, storage: SessionStorage<C>, base: Session<C>, candidate: Session<C>,
                        merge: (Session<C>, Session<C>, Session<C>) -> Session<C>, world: World) returns (r: Outcome<C>)
      modifies this, history, storage
      ensures (With(storage), r) ==
              Step(rules, old(With(storage)), Operation.CommitMerged(base, candidate, merge), world)
    {
      var merged := merge(session, base, candidate);
      r := CommitCandidate(rules, storage, merged, world);
    }

    // The entry is taken off its stack first and put back when it cannot be restored.
    method RestoreHistoryEntry(rules: Rules<C>, storage: SessionStorage<C>, undo: bool, world: World)
          returns (r: Outcome<C>)
      requires |history.undo| + |history.redo| <= HISTORY_LIMIT
      modifies this, history, storage
      ensures (With(storage), r) == Restore(rules, old(With(storage)), undo, world)
    {
      var entry;
      if undo {
        entry := history.TakeUndo();
      } else {
        entry := history.TakeRedo();
      }
      if entry.None? {
        return Failed(HistoryEmpty);
      }
      var error := InvalidSession;
      var target := Normalized(rules, entry.value);
      if target.Some? {
        target := Some(target.value.(updatedAt := NextUpdate(world.clock, session.updatedAt, target.value.updatedAt)));
        var saved := storage.Save(target.value, world.accepts);
        if !saved {
          target, error := None, StorageFailed;
        }
      }
      if target.None? {
        if undo {
          history.PushUndo(entry.value);
        } else {
          history.PushRedo(entry.value);
        }
        return Failed(error);
      }
      if undo {
        history.PushRedo(session);
      } else {
        history.PushUndo(session);
      }
      Exchange(target.value);
      return Done(target.value);
    }

    method Undo(rules: Rules<C>, storage: SessionStorage<C>, world: World) returns (r: Outcome<C>)
      requires |history.undo| + |history.redo| <= HISTORY_LIMIT
      modifies this, history, storage
      ensures (With(storage), r) == Step(rules, old(With(storage)), Operation.Undo, world)
    {
      r := RestoreHistoryEntry(rules, storage, true, world);
    }

    method Redo(rules: Rules<C>, storage: SessionStorage<C>, world: World) returns (r: Outcome<C>)
      requires |history.undo| + |history.redo| <= HISTORY_LIMIT
      modifies this, history, storage
      ensures (With(storage), r) == Step(rules, old(With(storage)), Operation.Redo, world)
    {
      r := RestoreHistoryEntry(rules, storage, false, world);
    }
  }
}
