/** Switching between Hosts: the steps of the connection manager under its locks, and what every interleaving keeps. */
module HostSwitching {
  import opened Wrappers
  import opened EventBuffer
  import Router = EventRouter

  datatype Kind = Embedded | Attached

  datatype Active = Hosting(kind: Kind, generation: nat) | Disconnected(generation: nat)

  datatype Bootstrap<B> = Bootstrap(project: string, content: B)

  // What the holder of the switch lock has done so far.
  datatype Phase<B> =
    | Idle
    | Preparing(generation: nat)
    | Prepared(kind: Kind, generation: nat, bootstrap: Bootstrap<B>)
    | Dropping(generation: nat)
    | Swapped(generation: nat, previous: Active)
    | Closing(previous: Active)
    | Disconnecting(generation: nat)
    | Gone

  // `calls` are the calls made on the router, `prepared` and
  // `closed` the generations whose Host was opened and shut down.
  datatype Manager<B, P> = Manager(
    active: Active, bootstrap: Option<Bootstrap<B>>, project: Option<string>, next: nat,
    phase: Phase<B>, calls: seq<Router.Call<P>>, prepared: set<nat>, closed: multiset<nat>)

  datatype Step<B, P> =
    | Begin(recording: bool)
    | PrepareFails
    | PrepareSucceeds(kind: Kind, bootstrap: Bootstrap<B>)
    | Refuse
    | Install
    | Announce
    | Close
    | Disconnect(generation: nat)
    | Report
    | Shutdown
    | Receive(generation: nat, frame: Frame<P>)
    | Refresh(bootstrap: Bootstrap<B>)
    | Follow(project: string)

  // The first generation belongs to the Host the Desktop starts with.
  const FIRST: nat := 1

  function Start<B, P>(): Manager<B, P> {
    Manager(Disconnected(0), None, None, FIRST, Preparing(FIRST), [], {}, multiset{})
  }

  predicate Enabled<B, P>(m: Manager<B, P>, step: Step<B, P>) {
    match step
    case Begin(_) => m.phase.Idle?
    case PrepareFails => m.phase.Preparing?
    case PrepareSucceeds(_, _) => m.phase.Preparing?
    case Refuse => m.phase.Prepared?
    case Install => m.phase.Prepared?
    case Announce => m.phase.Swapped?
    case Close => m.phase.Closing? || m.phase.Dropping?
    case Disconnect(_) => m.phase.Idle?
    case Report => m.phase.Disconnecting?
    case Shutdown => m.phase.Idle?
    case Receive(generation, _) => 1 <= generation <= m.next
    case Refresh(_) => !m.phase.Prepared? && !m.phase.Swapped?
    case Follow(_) => true
  }

  // How many times a Host is meant: once by the connection to it.
  function Counts(active: Active, g: nat): nat {
    if active.Hosting? && active.generation == g then 1 else 0
  }

  function ShutDown(closed: multiset<nat>, active: Active): multiset<nat> {
    if active.Hosting? then closed[active.generation := closed[active.generation] + 1] else closed
  }

  function Do<B, P>(m: Manager<B, P>, step: Step<B, P>): Manager<B, P>
    requires Enabled(m, step)
  {
    match step
    case Begin(recording) =>
      if recording then m else m.(next := m.next + 1, phase := Preparing(m.next + 1))
    case PrepareFails =>
      if m.phase.generation == FIRST then m.(phase := Gone)
      else m.(calls := m.calls + [Router.Discard(m.phase.generation)], phase := Idle)
    case PrepareSucceeds(kind, bootstrap) =>
      m.(phase := Prepared(kind, m.phase.generation, bootstrap), prepared := m.prepared + {m.phase.generation})
    case Refuse =>
      m.(calls := m.calls + [Router.Discard(m.phase.generation)], phase := Dropping(m.phase.generation))
    case Install =>
      m.(active := Hosting(m.phase.kind, m.phase.generation), bootstrap := Some(m.phase.bootstrap),
         project := Some(m.phase.bootstrap.project), phase := Swapped(m.phase.generation, m.active))
    case Announce =>
      m.(calls := m.calls + [Router.Activate(m.phase.generation)], phase := Closing(m.phase.previous))
    case Close =>
      if m.phase.Closing? then m.(closed := ShutDown(m.closed, m.phase.previous), phase := Idle)
      else m.(closed := m.closed[m.phase.generation := m.closed[m.phase.generation] + 1],
              phase := if m.phase.generation == FIRST then Gone else Idle)
    case Disconnect(generation) =>
      if m.active != Hosting(Attached, generation) then m
      else m.(active := Disconnected(m.next + 1), next := m.next + 1, closed := ShutDown(m.closed, m.active),
              phase := Disconnecting(m.next + 1))
    case Report =>
      m.(calls := m.calls + [Router.Invalidate(m.phase.generation)], phase := Idle)
    case Shutdown => m.(active := Disconnected(m.active.generation), phase := Closing(m.active))
    case Receive(generation, frame) => m.(calls := m.calls + [Router.Receive(generation, frame)])
    case Refresh(bootstrap) => m.(bootstrap := Some(bootstrap))
    case Follow(project) => m.(project := Some(project))
  }

  // Every step of a run is one that some thread may take.
  ghost predicate Runs<B, P>(m: Manager<B, P>, steps: seq<Step<B, P>>)
    decreases |steps|
  {
    steps == [] || (Enabled(m, steps[0]) && Runs(Do(m, steps[0]), steps[1..]))
  }

  ghost function After<B, P>(m: Manager<B, P>, steps: seq<Step<B, P>>): Manager<B, P>
    requires Runs(m, steps)
    decreases |steps|
  {
    if steps == [] then m else After(Do(m, steps[0]), steps[1..])
  }

  // The generation the switch lock's holder is about to decide.
  function Undecided<B>(phase: Phase<B>): Option<nat> {
    match phase
    case Preparing(g) => Some(g)
    case Prepared(_, g, _) => Some(g)
    case Swapped(g, _) => Some(g)
    case Disconnecting(g) => Some(g)
    case _ => None
  }

  // Generations reach the router as they are handed out, and it follows the active Host.
  ghost predicate InStep<B, P>(m: Manager<B, P>) {
    && Router.Allowed(m.calls)
    && Router.Decided(m.calls) <= m.next
    && (Undecided(m.phase).Some? ==> Undecided(m.phase).value == m.next && Router.Decided(m.calls) < m.next)
    && (Undecided(m.phase).None? && !m.phase.Gone? ==> Router.Decided(m.calls) == m.next)
    && FIRST <= m.next
    && Router.LastAnnounced(m.calls) <= Router.Decided(m.calls)
    && m.active.generation ==
       (if m.phase.Swapped? || m.phase.Disconnecting? then m.phase.generation else Router.LastAnnounced(m.calls))
  }

  lemma {:induction false} CallsNext<P>(calls: seq<Router.Call<P>>, call: Router.Call<P>)
    ensures Router.Decided(calls + [call]) == if call.Receive? then Router.Decided(calls) else call.generation
    ensures Router.LastAnnounced(calls + [call]) ==
            if call.Activate? || call.Invalidate? then call.generation else Router.LastAnnounced(calls)
    ensures Router.Allowed(calls + [call]) <==>
            Router.Allowed(calls) && 1 <= call.generation
                && (!call.Receive? ==> Router.Decided(calls) < call.generation)
  {
    assert (calls + [call])[..|calls|] == calls;
  }

  lemma {:induction false} StepInStep<B, P>(m: Manager<B, P>, step: Step<B, P>)
    requires InStep(m) && Enabled(m, step)
    ensures InStep(Do(m, step))
  {
    hide Router.Allowed, Router.Decided, Router.LastAnnounced;
    var after := Do(m, step);
    if after.calls != m.calls {
      CallsNext(m.calls, after.calls[|m.calls|]);
    }
  }

  // And by the holder of the switch lock.
  function Held<B>(phase: Phase<B>, g: nat): nat {
    match phase
    case Prepared(_, held, _) => if held == g then 1 else 0
    case Dropping(held) => if held == g then 1 else 0
    case Swapped(_, previous) => Counts(previous, g)
    case Closing(previous) => Counts(previous, g)
    case _ => 0
  }

  // A Host prepared is either open once or was shut down once, and no other Host is.
  predicate Accounted<B, P>(m: Manager<B, P>, g: nat) {
    Counts(m.active, g) + Held(m.phase, g) + m.closed[g] == if g in m.prepared then 1 else 0
  }

  // New Hosts get new numbers, and no Host has the number of a reported disconnection.
  ghost predicate Numbered<B, P>(m: Manager<B, P>) {
    && (forall g :: g in m.prepared ==> 1 <= g <= m.next)
    && (m.phase.Preparing? || m.phase.Disconnecting? ==> m.phase.generation == m.next && m.next !in m.prepared)
    && (forall i :: 0 <= i < |m.calls| && m.calls[i].Invalidate? ==> m.calls[i].generation !in m.prepared)
    && (forall i :: 0 <= i < |m.calls| && m.calls[i].Invalidate? ==> m.calls[i].generation <= m.next)
    && (m.phase.Preparing? ==> forall i :: 0 <= i < |m.calls| && m.calls[i].Invalidate? ==>
          m.calls[i].generation < m.next)
  }

  lemma {:induction false} StepAccounted<B, P>(m: Manager<B, P>, step: Step<B, P>, g: nat)
    requires Accounted(m, g) && Numbered(m) && Enabled(m, step)
    ensures Accounted(Do(m, step), g)
  {
    hide Numbered;
    if step.PrepareSucceeds? {
      NewNumber(m);
    }
  }

  lemma {:induction false} NewNumber<B, P>(m: Manager<B, P>)
    requires Numbered(m) && m.phase.Preparing?
    ensures m.phase.generation !in m.prepared
  {
  }

  lemma {:induction false} StepNumbered<B, P>(m: Manager<B, P>, step: Step<B, P>)
    requires Numbered(m) && InStep(m) && Enabled(m, step)
    ensures Numbered(Do(m, step))
  {
  }

  ghost predicate Inv<B, P>(m: Manager<B, P>) {
    InStep(m) && Numbered(m) && forall g: nat :: Accounted(m, g)
  }

  /** Every interleaving keeps the invariants. */
  lemma {:induction false} RunKeeps<B, P>(m: Manager<B, P>, steps: seq<Step<B, P>>)
    requires Inv(m) && Runs(m, steps)
    ensures Inv(After(m, steps))
    decreases |steps|
  {
    hide InStep, Numbered, Accounted, Enabled, Do;
    if steps != [] {
      StepInStep(m, steps[0]);
      StepNumbered(m, steps[0]);
      forall g: nat ensures Accounted(Do(m, steps[0]), g) {
        StepAccounted(m, steps[0], g);
      }
      RunKeeps(Do(m, steps[0]), steps[1..]);
    }
  }

  lemma {:induction false} RunFromStart<B, P>(steps: seq<Step<B, P>>)
    requires Runs(Start(), steps)
    ensures Inv(After(Start(), steps))
  {
    var m: Manager<B, P> := Start();
    assert Inv(m);
    RunKeeps(m, steps);
  }

  predicate IsActive(active: Active, g: nat) {
    active.Hosting? && active.generation == g
  }

  /** In every run a Host is shut down at most once and only if it was prepared; and whenever no switch is under way,
      each prepared Host is either the active one or has been shut down, never both. */
  lemma {:induction false} HostsEndOnce<B, P>(steps: seq<Step<B, P>>, g: nat)
    requires Runs(Start(), steps)
    ensures var m := After(Start(), steps);
      && m.closed[g] <= (if g in m.prepared then 1 else 0)
      && (m.phase.Idle? || m.phase.Gone? ==> (g in m.prepared <==> m.closed[g] == 1 || IsActive(m.active, g)))
      && (m.closed[g] == 1 ==> !IsActive(m.active, g))
  {
    RunFromStart(steps);
    assert Accounted(After(Start(), steps), g);
  }

  /** Whatever the interleaving, the router emits each frame in its turn with announcements rising, and outside the
      moment between a change of Host and its announcement the generation it lets through is that of the active Host. */
  lemma {:induction false} RouterFollows<B, P>(steps: seq<Step<B, P>>)
    requires Runs(Start(), steps)
    ensures var m := After(Start(), steps);
      var router := Router.Run(Router.Open(), m.calls);
      && Router.InItsTurn(router.out) && Router.AnnouncementsRise(router.out)
      && (!m.phase.Swapped? && !m.phase.Disconnecting? ==> router.active == m.active.generation)
  {
    var m := After(Start(), steps);
    RunFromStart(steps);
    Router.RunTracks(m.calls);
    Router.AnnouncedLast(m.calls);
  }

  /** Of the active Host the shell has every frame that is neither telemetry nor of the two plugin events never
      forwarded, in the order of arrival. */
  lemma {:induction false} ActiveHostHeard<B, P>(steps: seq<Step<B, P>>)
    requires Runs(Start(), steps) && After(Start(), steps).phase.Idle? && After(Start(), steps).active.Hosting?
    ensures var m := After(Start(), steps);
      var g := m.active.generation;
      Lasting(Router.Delivered(Router.Run(Router.Open(), m.calls).out, g)) == Lasting(Router.Arrived(m.calls, g))
  {
    var m := After(Start(), steps);
    var g := m.active.generation;
    RunFromStart(steps);
    assert Accounted(m, g);
    Router.RunExact(m.calls, g);
    Router.NothingLost(m.calls, g);
  }

  lemma {:induction false} CallsKept<B, P>(m: Manager<B, P>, step: Step<B, P>)
    requires Enabled(m, step)
    ensures m.calls <= Do(m, step).calls
  {
  }

  lemma {:induction false} CallsGrow<B, P>(m: Manager<B, P>, steps: seq<Step<B, P>>) returns (more: seq<Router.Call<P>>)
    requires Runs(m, steps)
    ensures After(m, steps).calls == m.calls + more
    decreases |steps|
  {
    hide Do, Enabled;
    if steps == [] {
      more := [];
    } else {
      CallsKept(m, steps[0]);
      var rest := CallsGrow(Do(m, steps[0]), steps[1..]);
      more := Do(m, steps[0]).calls[|m.calls|..] + rest;
    }
  }

  lemma {:induction false} AfterBoth<B, P>(m: Manager<B, P>, steps: seq<Step<B, P>>, more: seq<Step<B, P>>)
    requires Runs(m, steps) && Runs(After(m, steps), more)
    ensures Runs(m, steps + more) && After(m, steps + more) == After(After(m, steps), more)
    decreases |steps|
  {
    if steps == [] {
      assert steps + more == more;
    } else {
      assert (steps + more)[1..] == steps[1..] + more;
      AfterBoth(Do(m, steps[0]), steps[1..], more);
    }
  }

  /** Once a switch is over, no frame of any other generation handed out so far is ever emitted again, whatever
      follows. */
  lemma {:induction false} OtherHostsSilent<B, P>(steps: seq<Step<B, P>>, more: seq<Step<B, P>>, g: nat)
    requires Runs(Start(), steps) && Runs(After(Start(), steps), more)
    requires After(Start(), steps).phase.Idle? && 1 <= g <= After(Start(), steps).next
    requires g != After(Start(), steps).active.generation
    ensures Router.Delivered(Router.Run(Router.Open(), After(After(Start(), steps), more).calls).out, g) ==
            Router.Delivered(Router.Run(Router.Open(), After(Start(), steps).calls).out, g)
  {
    var m := After(Start(), steps);
    RunFromStart(steps);
    AfterBoth(Start(), steps, more);
    RunFromStart(steps + more);
    var calls := CallsGrow(m, more);
    Router.OverIsSilent(m.calls, calls, g);
  }

  predicate Reconnects<B, P>(m: Manager<B, P>, step: Step<B, P>) {
    step.Install? || (step.Disconnect? && m.active == Hosting(Attached, step.generation))
  }

  /** The connection generation rises with every Host installed and every disconnection accepted, and with nothing else;
      the active Host changes with these and with a shutdown only. Numbers are handed out one by one, to a switch that
      is begun and to a disconnection. Bootstrap and project are those of the Host installed last, or set since. */
  lemma {:induction false} GenerationRises<B, P>(m: Manager<B, P>, step: Step<B, P>)
    requires Inv(m) && Enabled(m, step)
    ensures if Reconnects(m, step) then m.active.generation < Do(m, step).active.generation
            else Do(m, step).active.generation == m.active.generation
    ensures Reconnects(m, step) || step.Shutdown? || Do(m, step).active == m.active
    ensures Do(m, step).next ==
            m.next + if step == Begin(false) || (Reconnects(m, step) && !step.Install?) then 1 else 0
    ensures Do(m, step).bootstrap ==
            match step
            case Install => Some(m.phase.bootstrap)
            case Refresh(bootstrap) => Some(bootstrap)
            case _ => m.bootstrap
    ensures Do(m, step).project ==
            match step
            case Install => Some(m.phase.bootstrap.project)
            case Follow(project) => Some(project)
            case _ => m.project
  {
  }

  // A run that ends the switch under way at its last step, or not yet.
  ghost predicate Busy<B, P>(m: Manager<B, P>, steps: seq<Step<B, P>>)
    requires Runs(m, steps)
    decreases |steps|
  {
    steps == [] || (!m.phase.Idle? && Busy(Do(m, steps[0]), steps[1..]))
  }

  predicate Others<B, P>(step: Step<B, P>) {
    step.Refresh? || step.Follow?
  }

  // No bootstrap is refreshed and no project followed meanwhile.
  ghost predicate Undisturbed<B, P>(steps: seq<Step<B, P>>) {
    forall i :: 0 <= i < |steps| ==> !Others(steps[i])
  }

  // The Host a switch has prepared: what the preparation among its steps yields.
  datatype Host<B> = Host(kind: Kind, bootstrap: Bootstrap<B>)

  function Fetched<B, P>(host: Option<Host<B>>, step: Step<B, P>): Option<Host<B>> {
    if step.PrepareSucceeds? then Some(Host(step.kind, step.bootstrap)) else host
  }

  function FetchedIn<B, P>(host: Option<Host<B>>, steps: seq<Step<B, P>>): Option<Host<B>>
    decreases |steps|
  {
    if steps == [] then host else FetchedIn(Fetched(host, steps[0]), steps[1..])
  }

  ghost predicate Untouched<B, P>(before: Manager<B, P>, m: Manager<B, P>, quiet: bool) {
    m.active == before.active && (quiet ==> m.bootstrap == before.bootstrap && m.project == before.project)
  }

  ghost predicate WithNew<B, P>(before: Manager<B, P>, m: Manager<B, P>) {
    m.prepared == before.prepared + {before.next + 1}
  }

  // The prepared Host is the active one, and unless something else set them, bootstrap and project are its own.
  ghost predicate Installed<B, P>(before: Manager<B, P>, m: Manager<B, P>, quiet: bool, host: Option<Host<B>>) {
    && host.Some? && m.active == Hosting(host.value.kind, before.next + 1) && WithNew(before, m)
    && (quiet ==> m.bootstrap == Some(host.value.bootstrap) && m.project == Some(host.value.bootstrap.project))
  }

  // A switch begun in `before` and not over yet.
  ghost predicate UnderWay<B, P>(before: Manager<B, P>, m: Manager<B, P>, quiet: bool, host: Option<Host<B>>) {
    && m.next == before.next + 1 && m.closed == before.closed
    && match m.phase
       case Preparing(g) => g == m.next && Untouched(before, m, quiet) && m.prepared == before.prepared && host.None?
       case Prepared(kind, g, bootstrap) =>
         g == m.next && Untouched(before, m, quiet) && WithNew(before, m) && host == Some(Host(kind, bootstrap))
       case Dropping(g) => g == m.next && Untouched(before, m, quiet) && WithNew(before, m) && host.Some?
       case Swapped(g, previous) => g == m.next && previous == before.active && Installed(before, m, quiet, host)
       case Closing(previous) => previous == before.active && Installed(before, m, quiet, host)
       case _ => false
  }

  ghost predicate SwitchFailed<B, P>(before: Manager<B, P>, m: Manager<B, P>, quiet: bool, host: Option<Host<B>>) {
    && Untouched(before, m, quiet)
    && if host.None? then m.prepared == before.prepared && m.closed == before.closed
       else WithNew(before, m) && m.closed == before.closed[before.next + 1 := before.closed[before.next + 1] + 1]
  }

  ghost predicate SwitchSucceeded<B, P>(before: Manager<B, P>, m: Manager<B, P>, quiet: bool, host: Option<Host<B>>) {
    Installed(before, m, quiet, host) && m.closed == ShutDown(before.closed, before.active)
  }

  ghost predicate SwitchOver<B, P>(before: Manager<B, P>, m: Manager<B, P>, quiet: bool, host: Option<Host<B>>) {
    && m.phase.Idle? && m.next == before.next + 1
    && (SwitchFailed(before, m, quiet, host) || SwitchSucceeded(before, m, quiet, host))
  }

  lemma {:induction false} SwitchStep<B, P>(before: Manager<B, P>, m: Manager<B, P>, step: Step<B, P>, quiet: bool,
                                            host: Option<Host<B>>)
    requires UnderWay(before, m, quiet, host) && Enabled(m, step) && (quiet ==> !Others(step)) && before.next >= FIRST
    ensures UnderWay(before, Do(m, step), quiet, Fetched(host, step))
        || SwitchOver(before, Do(m, step), quiet, Fetched(host, step))
  {
  }

  lemma {:induction false} SwitchGoesOn<B, P>(before: Manager<B, P>, m: Manager<B, P>, steps: seq<Step<B, P>>,
                                              quiet: bool, host: Option<Host<B>>)
    requires UnderWay(before, m, quiet, host) && Runs(m, steps) && Busy(m, steps) && before.next >= FIRST
    requires quiet ==> Undisturbed(steps)
    ensures var after, fetched := After(m, steps), FetchedIn(host, steps);
      UnderWay(before, after, quiet, fetched) || SwitchOver(before, after, quiet, fetched)
    decreases |steps|
  {
    hide UnderWay, SwitchOver, Do, Enabled, Fetched;
    if steps != [] {
      var next := Do(m, steps[0]);
      SwitchStep(before, m, steps[0], quiet, host);
      if UnderWay(before, next, quiet, Fetched(host, steps[0])) {
        SwitchGoesOn(before, next, steps[1..], quiet, Fetched(host, steps[0]));
      } else {
        OverIsIdle(before, next, quiet, Fetched(host, steps[0]));
      }
    }
  }

  lemma {:induction false} OverIsIdle<B, P>(before: Manager<B, P>, m: Manager<B, P>, quiet: bool, host: Option<Host<B>>)
    requires SwitchOver(before, m, quiet, host)
    ensures m.phase.Idle?
  {
  }

  lemma {:induction false} SwitchBegins<B, P>(before: Manager<B, P>)
    requires before.phase.Idle?
    ensures Enabled(before, Begin(false)) && UnderWay(before, Do(before, Begin(false)), true, None)
    ensures UnderWay(before, Do(before, Begin(false)), false, None)
  {
  }

  lemma {:induction false} NeverIdleUnderWay<B, P>(before: Manager<B, P>, m: Manager<B, P>, quiet: bool,
                                                   host: Option<Host<B>>)
    ensures UnderWay(before, m, quiet, host) ==> !m.phase.Idle?
  {
  }

  /** A switch is transactional. Begun after any run from the start in which nothing is left under way, and followed
      amid whatever else may happen until nothing is under way again, it leaves one of two states: the prepared Host
      is the active one under a new generation and the previous one has been shut down; or the active Host and its
      generation are what they were, and the new Host, if one was prepared, has been shut down. Bootstrap and project
      are then those of the prepared Host, or what they were, unless something else set them meanwhile. */
  lemma {:induction false} SwitchIsTransactional<B, P>(steps: seq<Step<B, P>>, switching: seq<Step<B, P>>, quiet: bool)
    requires Runs(Start(), steps) && After(Start(), steps).phase.Idle?
    requires Runs(Do(After(Start(), steps), Begin(false)), switching)
    requires Busy(Do(After(Start(), steps), Begin(false)), switching) && (quiet ==> Undisturbed(switching))
    requires After(Do(After(Start(), steps), Begin(false)), switching).phase.Idle?
    ensures var before: Manager<B, P> := After(Start(), steps);
      var after := After(Do(before, Begin(false)), switching);
      && SwitchOver(before, after, quiet, FetchedIn(None, switching))
      && before.active.generation <= before.next
      && (after.active.generation > before.active.generation <==>
            SwitchSucceeded(before, after, quiet, FetchedIn(None, switching)))
  {
    var before: Manager<B, P> := After(Start(), steps);
    var begun := Do(before, Begin(false));
    RunFromStart(steps);
    SwitchBegins(before);
    SwitchGoesOn(before, begun, switching, quiet, None);
    NeverIdleUnderWay(before, After(begun, switching), quiet, FetchedIn(None, switching));
  }
}
