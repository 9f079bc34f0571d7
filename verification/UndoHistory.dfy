/** What every run of commits, undos and redos keeps. */
module UndoHistory {
  import opened Wrappers
  import opened Bytes
  import opened CanonicalSession

  // The content an entry of the history is restored as; an entry that no longer validates stays as it is.
  function Canon<C>(rules: Rules<C>, session: Session<C>): C {
    rules(session.content).GetOr(session.content)
  }

  function Canons<C>(rules: Rules<C>, sessions: seq<Session<C>>): (r: seq<C>)
    ensures |r| == |sessions| && forall i :: 0 <= i < |r| ==> r[i] == Canon(rules, sessions[i])
  {
    seq(|sessions|, i requires 0 <= i < |sessions| => Canon(rules, sessions[i]))
  }

  function Reversed<T>(s: seq<T>): (r: seq<T>)
    ensures |r| == |s| && forall i :: 0 <= i < |r| ==> r[i] == s[|s| - 1 - i]
  {
    seq(|s|, i requires 0 <= i < |s| => s[|s| - 1 - i])
  }

  // The whole history with the current session in its place, oldest first, times of update erased.
  function Timeline<C>(rules: Rules<C>, core: Core<C>): seq<C> {
    Canons(rules, core.undo) + [Canon(rules, core.session)] + Reversed(Canons(rules, core.redo))
  }

  predicate Bounded<C>(core: Core<C>) {
    |core.undo| + |core.redo| <= HISTORY_LIMIT
  }

  /** No operation lets the two stacks together pass the limit of one of them. */
  lemma {:induction false} StepBounded<C(!new)>(rules: Rules<C>, state: State<C>, operation: Operation<C>, world: World)
    requires Bounded(state.core)
    ensures Bounded(Step(rules, state, operation, world).0.core)
  {
  }

  predicate Travels<C>(operation: Operation<C>) {
    operation.Undo? || operation.Redo?
  }

  lemma {:induction false} RestoreKeepsTimeline<C(!new)>(rules: Rules<C>, state: State<C>, undo: bool, world: World)
    requires Idempotent(rules) && Bounded(state.core)
    ensures Timeline(rules, Restore(rules, state, undo, world).0.core) == Timeline(rules, state.core)
  {
    var before, after := state.core, Restore(rules, state, undo, world).0.core;
    if after != before {
      var from := if undo then before.undo else before.redo;
      assert Canon(rules, after.session) == Canon(rules, from[|from| - 1]);
    }
  }

  datatype Event<!C> = Event(operation: Operation<C>, world: World)

  function Run<C(==)>(rules: Rules<C>, state: State<C>, events: seq<Event<C>>): State<C>
    decreases |events|
  {
    if events == [] then state
    else Run(rules, Step(rules, state, events[0].operation, events[0].world).0, events[1..])
  }

  /** However undos and redos are mixed, and whichever of them fail, the timeline stays, and the current session is the
      one the timeline has where the undo stack ends. */
  lemma {:induction false} TravelKeepsTimeline<C(!new)>(rules: Rules<C>, state: State<C>, events: seq<Event<C>>)
    requires Idempotent(rules) && Bounded(state.core) && forall i :: 0 <= i < |events| ==> Travels(events[i].operation)
    ensures var after := Run(rules, state, events).core;
      && Bounded(after)
      && Timeline(rules, after) == Timeline(rules, state.core)
      && Canon(rules, after.session) == Timeline(rules, state.core)[|after.undo|]
    decreases |events|
  {
    if events != [] {
      RestoreKeepsTimeline(rules, state, events[0].operation.Undo?, events[0].world);
      StepBounded(rules, state, events[0].operation, events[0].world);
      TravelKeepsTimeline(rules, Step(rules, state, events[0].operation, events[0].world).0, events[1..]);
    }
  }

  // A world in which every save is accepted.
  function Willing<C>(operation: Operation<C>, clock: Option<u64>): Event<C> {
    Event(operation, World(clock, true))
  }

  function Repeat<C>(operation: Operation<C>, clocks: seq<Option<u64>>): (r: seq<Event<C>>)
    ensures |r| == |clocks| && forall i :: 0 <= i < |r| ==> r[i] == Willing(operation, clocks[i])
  {
    seq(|clocks|, i requires 0 <= i < |clocks| => Willing(operation, clocks[i]))
  }

  // Entries that still validate: those of any history made by commits.
  ghost predicate Restorable<C(!new)>(rules: Rules<C>, core: Core<C>) {
    && Idempotent(rules)
    && (forall s :: s in core.undo ==> rules(s.content).Some?)
    && (forall s :: s in core.redo ==> rules(s.content).Some?)
    && rules(core.session.content).Some?
  }

  lemma {:induction false} UndoAll<C(!new)>(rules: Rules<C>, state: State<C>, clocks: seq<Option<u64>>)
    requires Restorable(rules, state.core) && Bounded(state.core) && |clocks| <= |state.core.undo|
    ensures var after := Run(rules, state, Repeat(Undo, clocks)).core;
      && Restorable(rules, after) && Bounded(after)
      && |after.undo| == |state.core.undo| - |clocks| && |after.redo| == |state.core.redo| + |clocks|
    decreases |clocks|
  {
    if clocks != [] {
      assert Repeat(Undo, clocks)[1..] == Repeat<C>(Undo, clocks[1..]);
      UndoAll(rules, Step(rules, state, Undo, World(clocks[0], true)).0, clocks[1..]);
    }
  }

  lemma {:induction false} RedoAll<C(!new)>(rules: Rules<C>, state: State<C>, clocks: seq<Option<u64>>)
    requires Restorable(rules, state.core) && Bounded(state.core) && |clocks| <= |state.core.redo|
    ensures var after := Run(rules, state, Repeat(Redo, clocks)).core;
      && Restorable(rules, after) && Bounded(after)
      && |after.undo| == |state.core.undo| + |clocks| && |after.redo| == |state.core.redo| - |clocks|
    decreases |clocks|
  {
    if clocks != [] {
      assert Repeat(Redo, clocks)[1..] == Repeat<C>(Redo, clocks[1..]);
      RedoAll(rules, Step(rules, state, Redo, World(clocks[0], true)).0, clocks[1..]);
    }
  }

  /** n undos go back n sessions, and n redos after them restore the content, the timeline and both stack heights. */
  lemma {:induction false} UndoThenRedo<C(!new)>(rules: Rules<C>, state: State<C>, undos: seq<Option<u64>>,
                                                 redos: seq<Option<u64>>)
    requires Restorable(rules, state.core) && Bounded(state.core) && |undos| == |redos| <= |state.core.undo|
    ensures var back := Run(rules, state, Repeat(Undo, undos));
      var after := Run(rules, back, Repeat(Redo, redos)).core;
      && Canon(rules, back.core.session) == Timeline(rules, state.core)[|state.core.undo| - |undos|]
      && Canon(rules, after.session) == Canon(rules, state.core.session)
      && |after.undo| == |state.core.undo| && |after.redo| == |state.core.redo|
      && Timeline(rules, after) == Timeline(rules, state.core)
  {
    var back := Run(rules, state, Repeat(Undo, undos));
    UndoAll(rules, state, undos);
    RedoAll(rules, back, redos);
    TravelKeepsTimeline(rules, state, Repeat(Undo, undos));
    TravelKeepsTimeline(rules, back, Repeat(Redo, redos));
  }

  // A state made by commits: the session and every entry normalised, and storage holding the session last.
  ghost predicate Sound<C(!new)>(rules: Rules<C>, state: State<C>) {
    && Bounded(state.core)
    && Settled(rules, state.core.session)
    && (forall s :: s in state.core.undo ==> Settled(rules, s))
    && (forall s :: s in state.core.redo ==> Settled(rules, s))
    && state.stored != [] && state.stored[|state.stored| - 1] == state.core.session
  }

  predicate Settled<C(==)>(rules: Rules<C>, session: Session<C>) {
    rules(session.content) == Some(session.content)
  }

  lemma {:induction false} CandidateSound<C(!new)>(rules: Rules<C>, state: State<C>, candidate: Session<C>,
                                                   world: World)
    requires Idempotent(rules) && Sound(rules, state)
    ensures Sound(rules, Candidate(rules, state, candidate, world).0)
  {
  }

  lemma {:induction false} RestoreSound<C(!new)>(rules: Rules<C>, state: State<C>, undo: bool, world: World)
    requires Idempotent(rules) && Sound(rules, state)
    ensures Sound(rules, Restore(rules, state, undo, world).0)
  {
  }

  lemma {:induction false} StepSound<C(!new)>(rules: Rules<C>, state: State<C>, operation: Operation<C>, world: World)
    requires Idempotent(rules) && Sound(rules, state)
    ensures Sound(rules, Step(rules, state, operation, world).0)
  {
    hide Sound;
    match operation
    case Commit(edit) =>
      if edit(state.core.session).Some? {
        CandidateSound(rules, state, edit(state.core.session).value, world);
      }
    case CommitMerged(base, candidate, merge) =>
        CandidateSound(rules, state, merge(state.core.session, base, candidate), world);
    case CommitPrepared(prepared) => CandidateSound(rules, state, prepared.session, world);
    case Undo => RestoreSound(rules, state, true, world);
    case Redo => RestoreSound(rules, state, false, world);
  }

  /** The session storage accepted last is the canonical session after every run, and every session is normalised. */
  lemma {:induction false} RunSound<C(!new)>(rules: Rules<C>, state: State<C>, events: seq<Event<C>>)
    requires Idempotent(rules) && Sound(rules, state)
    ensures Sound(rules, Run(rules, state, events))
    decreases |events|
  {
    if events != [] {
      StepSound(rules, state, events[0].operation, events[0].world);
      RunSound(rules, Step(rules, state, events[0].operation, events[0].world).0, events[1..]);
    }
  }

  // What one operation may do: exchange the session, or nothing at all.
  predicate Exchanges<C(==)>(before: State<C>, after: State<C>, outcome: Outcome<C>) {
    && after.core.sequence == before.core.sequence + 1
    && outcome == Done(after.core.session)
    && after.stored == before.stored + [after.core.session]
    && (before.core.session.updatedAt < after.core.session.updatedAt || after.core.session.updatedAt == U64_MAX)
  }

  predicate Idles<C(==)>(before: State<C>, after: State<C>, outcome: Outcome<C>) {
    after == before && (outcome.Failed? || outcome == Done(before.core.session))
  }

  /** Every operation either exchanges the session, when its save is accepted and not before, or leaves the session,
      the sequence, both stacks and storage as they were; an undo or redo that does not fail always exchanges. */
  lemma {:induction false} AllOrNothing<C(!new)>(rules: Rules<C>, state: State<C>, operation: Operation<C>,
                                                 world: World)
    ensures var (after, outcome) := Step(rules, state, operation, world);
      && (Exchanges(state, after, outcome) || Idles(state, after, outcome))
      && (!world.accepts ==> Idles(state, after, outcome))
      && (Travels(operation) ==> (outcome.Done? <==> Exchanges(state, after, outcome)))
  {
  }

  /** An undo right after a commit that changed something restores the content before it, unless that no longer
      validates. */
  lemma {:induction false} UndoTakesBackCommit<C(!new)>(rules: Rules<C>, state: State<C>, operation: Operation<C>,
                                                        world: World, clock: Option<u64>)
    requires Idempotent(rules) && Sound(rules, state) && !Travels(operation)
    requires Step(rules, state, operation, world).0 != state
    ensures var committed := Step(rules, state, operation, world).0;
      var undone := Step(rules, committed, Undo, World(clock, true));
      && undone.1.Done? && undone.0.core.session.content == state.core.session.content
      && undone.0.core.redo == [committed.core.session] && committed.core.redo == []
  {
  }

  /** A commit that changes something cuts the timeline after the current session and appends the new one, dropping
      the oldest when the undo stack is full. */
  lemma {:induction false} CommitCutsTimeline<C(!new)>(rules: Rules<C>, state: State<C>, candidate: Session<C>,
                                                       world: World)
    requires Candidate(rules, state, candidate, world).0 != state && |state.core.undo| <= HISTORY_LIMIT
    ensures var after := Candidate(rules, state, candidate, world).0.core;
      var kept := Timeline(rules, state.core)[..|state.core.undo| + 1];
      Timeline(rules, after) == (if |kept| > HISTORY_LIMIT then kept[1..] else kept) + [Canon(rules, after.session)]
  {
  }

  /** Committing again what a commit returned changes nothing. */
  lemma {:induction false} CommitTwice<C(!new)>(rules: Rules<C>, state: State<C>, candidate: Session<C>, first: World,
                                                second: World)
    requires Idempotent(rules)
    ensures var (after, outcome) := Candidate(rules, state, candidate, first);
      outcome.Done? ==> Candidate(rules, after, outcome.session, second) == (after, outcome)
  {
  }

  lemma {:induction false} SequenceRises<C(!new)>(rules: Rules<C>, state: State<C>, events: seq<Event<C>>)
    ensures var after := Run(rules, state, events);
      && state.core.sequence <= after.core.sequence
      && (state.core.sequence == after.core.sequence ==> after == state)
    decreases |events|
  {
    if events != [] {
      AllOrNothing(rules, state, events[0].operation, events[0].world);
      SequenceRises(rules, Step(rules, state, events[0].operation, events[0].world).0, events[1..]);
    }
  }

  /** The sequence counts the sessions accepted, over every run. */
  lemma {:induction false} SequenceCountsSaves<C(!new)>(rules: Rules<C>, state: State<C>, events: seq<Event<C>>)
    ensures var after := Run(rules, state, events);
      after.core.sequence - state.core.sequence == |after.stored| - |state.stored|
    decreases |events|
  {
    if events != [] {
      AllOrNothing(rules, state, events[0].operation, events[0].world);
      SequenceCountsSaves(rules, Step(rules, state, events[0].operation, events[0].world).0, events[1..]);
    }
  }

  /** A candidate prepared from one snapshot and committed after any run: it is accepted only onto that very snapshot,
      with nothing exchanged in between; otherwise it is a conflict and nothing changes. */
  lemma {:induction false} PreparedOntoItsOwn<C(!new)>(rules: Rules<C>, state: State<C>,
                                                       edit: Session<C> -> Option<Session<C>>, events: seq<Event<C>>,
                                                       world: World)
    requires Prepare(rules, state.core, edit).Some?
    ensures var now := Run(rules, state, events);
      var (after, outcome) := Step(rules, now, CommitPrepared(Prepare(rules, state.core, edit).value), world);
      if now == state then !(outcome.Failed? && outcome.error.Conflict?)
      else after == now && outcome == Failed(Conflict(state.core.sequence, now.core.sequence))
  {
    SequenceRises(rules, state, events);
  }

  // Each update is later than the one before it, until the clock's last value is reached.
  ghost predicate Rising<C(!new)>(stored: seq<Session<C>>) {
    forall i, j :: 0 <= i < j < |stored| ==> stored[i].updatedAt < stored[j].updatedAt || stored[j].updatedAt == U64_MAX
  }

  /** The times of update of the accepted sessions rise strictly over every run, whatever the clock does. */
  lemma {:induction false} UpdatesRise<C(!new)>(rules: Rules<C>, state: State<C>, events: seq<Event<C>>)
    requires Idempotent(rules) && Sound(rules, state) && Rising(state.stored)
    ensures Rising(Run(rules, state, events).stored)
    decreases |events|
  {
    if events != [] {
      var next := Step(rules, state, events[0].operation, events[0].world).0;
      AllOrNothing(rules, state, events[0].operation, events[0].world);
      StepSound(rules, state, events[0].operation, events[0].world);
      StepRises(state, next);
      UpdatesRise(rules, next, events[1..]);
    }
  }

  lemma {:induction false} StepRises<C(!new)>(state: State<C>, next: State<C>)
    requires Rising(state.stored) && state.stored != [] && state.stored[|state.stored| - 1] == state.core.session
    requires next == state || (next.stored == state.stored + [next.core.session] &&
      (state.core.session.updatedAt < next.core.session.updatedAt || next.core.session.updatedAt == U64_MAX))
    ensures Rising(next.stored)
  {
  }
}
