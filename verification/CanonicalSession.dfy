/** Canonical commit, undo and redo of one project: what each operation does, as a function of the state before it. */
module CanonicalSession {
  import opened Wrappers
  import opened Bytes

  const HISTORY_LIMIT: nat := 40

  // Everything of a session but the time of its last update stays abstract.
  datatype Session<C> = Session(content: C, updatedAt: u64)

  datatype Core<C> = Core(session: Session<C>, sequence: nat, undo: seq<Session<C>>, redo: seq<Session<C>>)

  datatype Error =
    | EditFailed
    | InvalidSession
    | Conflict(expected: nat, current: nat)
    | StorageFailed
    | HistoryEmpty

  datatype Outcome<C> = Done(session: Session<C>) | Failed(error: Error)

  // What the operation meets: the clock, when it can be read, and whether storage accepts a save.
  datatype World = World(clock: Option<u64>, accepts: bool)

  datatype Prepared<C> = Prepared(session: Session<C>, expected: nat)

  // Normalisation of a candidate, which reads and keeps everything but the time of the update.
  type Rules<!C> = C -> Option<C>

  ghost predicate Idempotent<C(!new)>(rules: Rules<C>) {
    forall c :: rules(c).Some? ==> rules(rules(c).value) == rules(c)
  }

  function Normalized<C>(rules: Rules<C>, session: Session<C>): Option<Session<C>> {
    var content :- rules(session.content);
    Some(Session(content, session.updatedAt))
  }

  function Max(a: u64, b: u64): u64 {
    if a < b then b else a
  }

  function NextUpdate(clock: Option<u64>, previous: u64, candidate: u64): u64 {
    var now := if clock.Some? then clock.value else previous;
    Max(Max(now, candidate), if previous == U64_MAX then previous else previous + 1)
  }

  // A stack of at most HISTORY_LIMIT sessions, which drops its oldest.
  function Push<C>(stack: seq<Session<C>>, session: Session<C>): (r: seq<Session<C>>)
    ensures r == stack + [session] || (|stack| >= HISTORY_LIMIT && r == stack[1..] + [session])
  {
    if |stack| + 1 > HISTORY_LIMIT then (stack + [session])[1..] else stack + [session]
  }

  datatype Operation<!C> =
    | Commit(edit: Session<C> -> Option<Session<C>>)
    | CommitMerged(base: Session<C>, candidate: Session<C>,
                   merge: (Session<C>, Session<C>, Session<C>) -> Session<C>)
    | CommitPrepared(prepared: Prepared<C>)
    | Undo
    | Redo

  // The core, the sessions storage has accepted, oldest first, and the answer to the caller.
  datatype State<C> = State(core: Core<C>, stored: seq<Session<C>>)

  function Candidate<C(==)>(rules: Rules<C>, state: State<C>, candidate: Session<C>, world: World):
    (State<C>, Outcome<C>)
  {
    var core := state.core;
    match Normalized(rules, candidate)
    case None => (state, Failed(InvalidSession))
    case Some(next) =>
      if next == core.session then (state, Done(next))
      else
        var stamped := next.(updatedAt := NextUpdate(world.clock, core.session.updatedAt, next.updatedAt));
        if !world.accepts then (state, Failed(StorageFailed))
        else (State(Core(stamped, core.sequence + 1, Push(core.undo, core.session), []), state.stored + [stamped]),
              Done(stamped))
  }

  function Restore<C>(rules: Rules<C>, state: State<C>, undo: bool, world: World): (State<C>, Outcome<C>) {
    var core := state.core;
    var from, to := if undo then core.undo else core.redo, if undo then core.redo else core.undo;
    if from == [] then (state, Failed(HistoryEmpty))
    else
      var rest, entry := from[..|from| - 1], from[|from| - 1];
      match Normalized(rules, entry)
      case None => (state, Failed(InvalidSession))
      case Some(next) =>
        var stamped := next.(updatedAt := NextUpdate(world.clock, core.session.updatedAt, next.updatedAt));
        if !world.accepts then (state, Failed(StorageFailed))
        else
          var to' := Push(to, core.session);
          (State(Core(stamped, core.sequence + 1, if undo then rest else to', if undo then to' else rest),
                 state.stored + [stamped]), Done(stamped))
  }

  function Step<C(==)>(rules: Rules<C>, state: State<C>, operation: Operation<C>, world: World):
    (State<C>, Outcome<C>)
  {
    match operation
    case Commit(edit) =>
      (match edit(state.core.session)
       case None => (state, Failed(EditFailed))
       case Some(candidate) => Candidate(rules, state, candidate, world))
    case CommitMerged(base, candidate, merge) =>
        Candidate(rules, state, merge(state.core.session, base, candidate), world)
    case CommitPrepared(prepared) =>
      if state.core.sequence != prepared.expected then (state, Failed(Conflict(prepared.expected, state.core.sequence)))
      else Candidate(rules, state, prepared.session, world)
    case Undo => Restore(rules, state, true, world)
    case Redo => Restore(rules, state, false, world)
  }

  function Prepare<C>(rules: Rules<C>, core: Core<C>, edit: Session<C> -> Option<Session<C>>): Option<Prepared<C>> {
    var edited :- edit(core.session);
    var session :- Normalized(rules, edited);
    Some(Prepared(session, core.sequence))
  }
}
