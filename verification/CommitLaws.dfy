/** What each operation of the core brings about, case by case: when an edit is accepted, what is then committed, what
    is kept in the history, and when it is stamped; and what is restored. */
module CommitLaws {
  import opened Wrappers
  import opened Bytes
  import opened CanonicalSession

  // A time no earlier than the clock and the candidate, and later than the previous update while that is possible.
  predicate Suits(time: u64, clock: Option<u64>, previous: u64, candidate: u64) {
    && candidate <= time && (clock.Some? ==> clock.value <= time)
    && previous <= time && (previous < U64_MAX ==> previous < time)
  }

  ghost predicate IsLeastUpdate(time: u64, clock: Option<u64>, previous: u64, candidate: u64) {
    Suits(time, clock, previous, candidate) && forall t: u64 :: Suits(t, clock, previous, candidate) ==> time <= t
  }

  lemma {:induction false} NextIsLeast(clock: Option<u64>, previous: u64, candidate: u64)
    ensures IsLeastUpdate(NextUpdate(clock, previous, candidate), clock, previous, candidate)
  {
  }

  // The stack with one more session on top, of which the oldest is dropped past forty.
  predicate Topped<C(==)>(after: seq<Session<C>>, before: seq<Session<C>>, top: Session<C>) {
    after == if |before| < 40 then before + [top] else before[1..] + [top]
  }

  // The core and storage hold a session of this content, stamped anew.
  ghost predicate Exchanged<C(!new)>(state: State<C>, after: State<C>, outcome: Outcome<C>, content: C, updatedAt: u64,
                                     clock: Option<u64>)
  {
    && outcome.Done? && outcome.session.content == content
    && IsLeastUpdate(outcome.session.updatedAt, clock, state.core.session.updatedAt, updatedAt)
    && after.core.session == outcome.session && after.core.sequence == state.core.sequence + 1
    && after.stored == state.stored + [outcome.session]
  }

  ghost predicate Untouched<C(!new)>(state: State<C>, after: State<C>, outcome: Outcome<C>, error: Error) {
    after == state && outcome == Failed(error)
  }

  // What is offered to be committed, or why nothing is.
  datatype Offer<C> = Nothing(error: Error) | Offer(candidate: Session<C>)

  function Offered<C>(state: State<C>, operation: Operation<C>): Offer<C>
    requires !operation.Undo? && !operation.Redo?
  {
    var session := state.core.session;
    match operation
    case Commit(edit) => if edit(session).Some? then Offer(edit(session).value) else Nothing(EditFailed)
    case CommitMerged(base, candidate, merge) => Offer(merge(session, base, candidate))
    case CommitPrepared(prepared) =>
      if prepared.expected == state.core.sequence then Offer(prepared.session)
      else Nothing(Conflict(prepared.expected, state.core.sequence))
  }

  /** What a commit brings about: what is offered is committed exactly when it is valid, differs from the session, and
      storage accepts it; then the old session is on top of undo and redo is empty. */
  ghost predicate CommitBrings<C(!new)>(rules: Rules<C>, state: State<C>, offer: Offer<C>, world: World,
                                        after: State<C>, outcome: Outcome<C>)
  {
    if offer.Nothing? then Untouched(state, after, outcome, offer.error)
    else match rules(offer.candidate.content)
      case None => Untouched(state, after, outcome, InvalidSession)
      case Some(content) =>
        if Session(content, offer.candidate.updatedAt) == state.core.session then
          after == state && outcome == Done(state.core.session)
        else if !world.accepts then Untouched(state, after, outcome, StorageFailed)
        else
          && Exchanged(state, after, outcome, content, offer.candidate.updatedAt, world.clock)
          && Topped(after.core.undo, state.core.undo, state.core.session) && after.core.redo == []
  }

  /** What an undo or a redo brings about: the top of its stack is restored exactly when there is one, it is still valid
      and storage accepts it; then it is off its stack and the old session on top of the other. */
  ghost predicate RestoreBrings<C(!new)>(rules: Rules<C>, state: State<C>, undo: bool, world: World, after: State<C>,
                                         outcome: Outcome<C>)
  {
    var stack := if undo then state.core.undo else state.core.redo;
    if stack == [] then Untouched(state, after, outcome, HistoryEmpty)
    else
      var top := stack[|stack| - 1];
      match rules(top.content)
      case None => Untouched(state, after, outcome, InvalidSession)
      case Some(content) =>
        if !world.accepts then Untouched(state, after, outcome, StorageFailed)
        else
          && Exchanged(state, after, outcome, content, top.updatedAt, world.clock)
          && (if undo then after.core.undo else after.core.redo) == stack[..|stack| - 1]
          && Topped(if undo then after.core.redo else after.core.undo,
                    if undo then state.core.redo else state.core.undo, state.core.session)
  }

  ghost predicate Brings<C(!new)>(rules: Rules<C>, state: State<C>, operation: Operation<C>, world: World,
                                  after: State<C>, outcome: Outcome<C>)
  {
    if operation.Undo? || operation.Redo? then RestoreBrings(rules, state, operation.Undo?, world, after, outcome)
    else CommitBrings(rules, state, Offered(state, operation), world, after, outcome)
  }

  lemma {:induction false} LeastIsOne(a: u64, b: u64, clock: Option<u64>, previous: u64, candidate: u64)
    requires IsLeastUpdate(a, clock, previous, candidate) && IsLeastUpdate(b, clock, previous, candidate)
    ensures a == b
  {
    assert Suits(a, clock, previous, candidate) && Suits(b, clock, previous, candidate);
  }

  lemma {:induction false} CandidateBrings<C(!new)>(rules: Rules<C>, state: State<C>, candidate: Session<C>,
                                                    world: World)
    ensures var (after, outcome) := Candidate(rules, state, candidate, world);
      CommitBrings(rules, state, Offer(candidate), world, after, outcome)
  {
    NextIsLeast(world.clock, state.core.session.updatedAt, candidate.updatedAt);
  }

  lemma {:induction false} EntryBrings<C(!new)>(rules: Rules<C>, state: State<C>, undo: bool, world: World)
    ensures var (after, outcome) := Restore(rules, state, undo, world);
      RestoreBrings(rules, state, undo, world, after, outcome)
  {
    var stack := if undo then state.core.undo else state.core.redo;
    if stack != [] {
      NextIsLeast(world.clock, state.core.session.updatedAt, stack[|stack| - 1].updatedAt);
    }
  }

  lemma {:induction false} OnlyOne<C(!new)>(rules: Rules<C>, state: State<C>, operation: Operation<C>, world: World,
                                            a: State<C>, x: Outcome<C>, b: State<C>, y: Outcome<C>)
    requires Brings(rules, state, operation, world, a, x) && Brings(rules, state, operation, world, b, y)
    ensures a == b && x == y
  {
    var previous := state.core.session.updatedAt;
    forall candidate: u64 | x.Done? && y.Done? && IsLeastUpdate(x.session.updatedAt, world.clock, previous, candidate)
                            && IsLeastUpdate(y.session.updatedAt, world.clock, previous, candidate)
      ensures x.session.updatedAt == y.session.updatedAt
    {
      LeastIsOne(x.session.updatedAt, y.session.updatedAt, world.clock, previous, candidate);
    }
  }

  /** Every commit, prepared or merged commit, undo and redo brings about exactly this, for every state and world. */
  lemma {:induction false} StepBringsExactly<C(!new)>(rules: Rules<C>, state: State<C>, operation: Operation<C>,
                                                      world: World, after: State<C>, outcome: Outcome<C>)
    ensures Step(rules, state, operation, world) == (after, outcome) <==>
            Brings(rules, state, operation, world, after, outcome)
  {
    hide Candidate, Restore, CommitBrings, RestoreBrings;
    var (now, answer) := Step(rules, state, operation, world);
    if operation.Undo? || operation.Redo? {
      EntryBrings(rules, state, operation.Undo?, world);
    } else if Offered(state, operation).Nothing? {
      NothingBrings(rules, state, Offered(state, operation).error, world);
    } else {
      CandidateBrings(rules, state, Offered(state, operation).candidate, world);
    }
    if Brings(rules, state, operation, world, after, outcome) {
      OnlyOne(rules, state, operation, world, now, answer, after, outcome);
    }
  }

  lemma {:induction false} NothingBrings<C(!new)>(rules: Rules<C>, state: State<C>, error: Error, world: World)
    ensures CommitBrings(rules, state, Nothing(error), world, state, Failed(error))
  {
  }

  /** An edit is prepared when it succeeds and gives a valid session: the normalised one, for the sequence it was made
      from; committed in that very state it brings about what the edit would. */
  lemma {:induction false} PreparingCommits<C(!new)>(rules: Rules<C>, state: State<C>,
                                                     edit: Session<C> -> Option<Session<C>>, world: World)
    requires Idempotent(rules)
    ensures Prepare(rules, state.core, edit).Some? <==>
      edit(state.core.session).Some? && rules(edit(state.core.session).value.content).Some?
    ensures Prepare(rules, state.core, edit).Some? ==>
      Step(rules, state, CommitPrepared(Prepare(rules, state.core, edit).value), world) ==
      Step(rules, state, Commit(edit), world)
  {
  }
}
