/** The canonical core over the session store: what the file holds after every run of commits, undos and redos. */
module PersistentCore {
  import opened Wrappers
  import opened Bytes
  import Core = CanonicalSession
  import History = UndoHistory
  import Files = SessionFiles

  // The core and the disk; for the proof also the session the file was replaced with last, and whether storage then
  // reported success.
  datatype Whole<C, F> = Whole(state: Core.State<C>, disk: Files.Disk<F>, last: Core.Session<C>, reported: bool)

  datatype Event<!C, F> = Event(operation: Core.Operation<C>, clock: Option<u64>, world: Files.World<F>)

  // The store checks and reads sessions by the rules of the core, and what it reads is normalised.
  ghost predicate Agree<C(!new), F(!new)>(rules: Core.Rules<C>, codec: Files.Codec<Core.Session<C>, F>) {
    && Core.Idempotent(rules) && Files.Faithful(codec)
    && (forall s :: History.Settled(rules, s) && codec.normalize(s).Some? ==> codec.normalize(s) == Some(s))
    && (forall file :: codec.decode(file).Some? ==> History.Settled(rules, codec.decode(file).value))
  }

  // The session an operation offers to storage: what it exchanges to when the save is accepted.
  function Offered<C(==)>(rules: Core.Rules<C>, state: Core.State<C>, operation: Core.Operation<C>, clock: Option<u64>):
    Option<Core.Session<C>>
  {
    var accepted := Core.Step(rules, state, operation, Core.World(clock, true)).0;
    if accepted == state then None else Some(accepted.core.session)
  }

  function Step<C(==), F>(rules: Core.Rules<C>, codec: Files.Codec<Core.Session<C>, F>, whole: Whole<C, F>,
                           event: Event<C, F>): Whole<C, F>
  {
    match Offered(rules, whole.state, event.operation, event.clock)
    case None => whole
    case Some(session) =>
      var (disk, r) := Files.SaveEffect(codec, whole.disk, session, event.world);
      var state := Core.Step(rules, whole.state, event.operation, Core.World(event.clock, r.Saved?)).0;
      if r.Saved? || r.error.PruneFailed? then Whole(state, disk, session, r.Saved?)
      else Whole(state, disk, whole.last, whole.reported)
  }

  function Run<C(==), F>(rules: Core.Rules<C>, codec: Files.Codec<Core.Session<C>, F>, whole: Whole<C, F>,
                          events: seq<Event<C, F>>): Whole<C, F>
    decreases |events|
  {
    if events == [] then whole else Run(rules, codec, Step(rules, codec, whole, events[0]), events[1..])
  }

  // Opened on a session the store loaded from the active file.
  function Opened<C, F>(session: Core.Session<C>, sequence: nat, disk: Files.Disk<F>): Whole<C, F> {
    Whole(Core.State(Core.Core(session, sequence, [], []), [session]), disk, session, true)
  }

  // The file holds the session it was replaced with last: the canonical one when
  // storage reported success, otherwise one updated later than the canonical one.
  ghost predicate Kept<C(!new), F(!new)>(rules: Core.Rules<C>, codec: Files.Codec<Core.Session<C>, F>,
                                         whole: Whole<C, F>)
  {
    && History.Sound(rules, whole.state)
    && whole.disk.current.Some? && codec.decode(whole.disk.current.value) == Some(whole.last)
    && (whole.reported ==> whole.last == whole.state.core.session)
    && (!whole.reported ==> Later(whole.last, whole.state.core.session))
  }

  predicate Later<C>(a: Core.Session<C>, b: Core.Session<C>) {
    b.updatedAt < a.updatedAt || b.updatedAt == U64_MAX
  }

  /** A core created on a loaded session starts sound, with the file holding its session. */
  lemma {:induction false} OpenedIsKept<C(!new), F(!new)>(rules: Core.Rules<C>, codec: Files.Codec<Core.Session<C>, F>,
                                                          sequence: nat, disk: Files.Disk<F>, listing: Files.Listing,
                                                          session: Core.Session<C>)
    requires Agree(rules, codec) && Files.Loads(codec, disk, listing, Files.Loaded(session, false))
    ensures Kept(rules, codec, Opened(session, sequence, disk))
  {
  }

  // What is offered is settled and updated later than the session before it.
  lemma {:induction false} OfferedIsLater<C(!new)>(rules: Core.Rules<C>, state: Core.State<C>,
                                                   operation: Core.Operation<C>, clock: Option<u64>)
    requires Core.Idempotent(rules) && History.Sound(rules, state)
    ensures var offered := Offered(rules, state, operation, clock);
      offered.Some? ==>
        && History.Settled(rules, offered.value) && Later(offered.value, state.core.session)
        && Core.Step(rules, state, operation, Core.World(clock, false)).0 == state
        && Core.Step(rules, state, operation, Core.World(clock, true)).0.core.session == offered.value
  {
    hide Core.Step, History.Sound;
    History.AllOrNothing(rules, state, operation, Core.World(clock, true));
    History.AllOrNothing(rules, state, operation, Core.World(clock, false));
    History.StepSound(rules, state, operation, Core.World(clock, true));
    SoundIsSettled(rules, Core.Step(rules, state, operation, Core.World(clock, true)).0);
  }

  lemma {:induction false} SoundIsSettled<C(!new)>(rules: Core.Rules<C>, state: Core.State<C>)
    requires History.Sound(rules, state)
    ensures History.Settled(rules, state.core.session)
  {
  }

  lemma {:induction false} StepKept<C(!new), F(!new)>(rules: Core.Rules<C>, codec: Files.Codec<Core.Session<C>, F>,
                                                      whole: Whole<C, F>, event: Event<C, F>)
    requires Agree(rules, codec) && Kept(rules, codec, whole)
    ensures Kept(rules, codec, Step(rules, codec, whole, event))
  {
    hide Core.Step, History.Sound, Files.SaveEffect;
    OfferedIsLater(rules, whole.state, event.operation, event.clock);
    var offered := Offered(rules, whole.state, event.operation, event.clock);
    if offered.Some? {
      var r := Files.SaveEffect(codec, whole.disk, offered.value, event.world).1;
      Files.ErrorsAndFiles(codec, whole.disk, offered.value, event.world);
      History.StepSound(rules, whole.state, event.operation, Core.World(event.clock, r.Saved?));
    }
  }

  lemma {:induction false} RunKept<C(!new), F(!new)>(rules: Core.Rules<C>, codec: Files.Codec<Core.Session<C>, F>,
                                                     whole: Whole<C, F>, events: seq<Event<C, F>>)
    requires Agree(rules, codec) && Kept(rules, codec, whole)
    ensures Kept(rules, codec, Run(rules, codec, whole, events))
    decreases |events|
  {
    hide Kept, Step, Agree;
    if events != [] {
      StepKept(rules, codec, whole, events[0]);
      RunKept(rules, codec, Step(rules, codec, whole, events[0]), events[1..]);
    }
  }

  /** After every run the file loads as the canonical session if and only if the last save that replaced the file was
      reported as a success and so did not fail in pruning, as long as the canonical update time is short of its limit;
      when it was not, the file loads as the session offered then, later than the canonical one. */
  lemma {:induction false} FileIsCanonicalExactlyWhen<C(!new), F(!new)>(
      rules: Core.Rules<C>, codec: Files.Codec<Core.Session<C>, F>, session: Core.Session<C>, sequence: nat,
      disk: Files.Disk<F>, events: seq<Event<C, F>>, listing: Files.Listing)
    requires Agree(rules, codec) && Files.Loads(codec, disk, listing, Files.Loaded(session, false))
    ensures var after := Run(rules, codec, Opened(session, sequence, disk), events);
      var canonical := after.state.core.session;
      && Files.Loads(codec, after.disk, listing, Files.Loaded(after.last, false))
      && (Files.Loads(codec, after.disk, listing, Files.Loaded(canonical, false)) <==> after.last == canonical)
      && (after.reported ==> after.last == canonical)
      && (canonical.updatedAt < U64_MAX ==>
          (Files.Loads(codec, after.disk, listing, Files.Loaded(canonical, false)) <==> after.reported))
  {
    OpenedIsKept(rules, codec, sequence, disk, listing, session);
    RunKept(rules, codec, Opened(session, sequence, disk), events);
  }

  // The fields followed are what they say: they change with a save that replaces the file, and with no other.
  lemma {:induction false} ReportedIsTheLastReplacement<C(!new), F(!new)>(
      rules: Core.Rules<C>, codec: Files.Codec<Core.Session<C>, F>, whole: Whole<C, F>, event: Event<C, F>)
    ensures var after, offered := Step(rules, codec, whole, event),
        Offered(rules, whole.state, event.operation, event.clock);
      var saves := offered.Some? && codec.normalize(offered.value).Some? && event.world.room && event.world.written
                   && event.world.replaced && (whole.disk.current.None? || event.world.copied);
      if saves then after.last == offered.value && after.reported == event.world.listing.AllBut?
      else after.last == whole.last && after.reported == whole.reported && after.disk.current == whole.disk.current
  {
    var offered := Offered(rules, whole.state, event.operation, event.clock);
    if offered.Some? {
      Files.ErrorsAndFiles(codec, whole.disk, offered.value, event.world);
    }
  }
}
