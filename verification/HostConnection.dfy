/** The connection manager as the object that owns the Host: its operations, each a run of steps under its locks. */
module HostConnection {
  import opened Wrappers
  import opened HostSwitching
  import Router = EventRouter

  // The steps of one whole operation when nothing comes between them.
  function SwitchSteps<B, P>(recording: bool, target: Option<(Kind, Bootstrap<B>)>, refused: bool): seq<Step<B, P>> {
    if recording then [Begin(true)]
    else if target.None? then [Begin(false), PrepareFails]
    else if refused then [Begin(false), PrepareSucceeds(target.value.0, target.value.1), Refuse, Close]
    else [Begin(false), PrepareSucceeds(target.value.0, target.value.1), Install, Announce, Close]
  }

  function DisconnectSteps<B, P>(active: Active, generation: nat): seq<Step<B, P>> {
    if active == Hosting(Attached, generation) then [Disconnect(generation), Report] else [Disconnect(generation)]
  }

  function FirstSteps<B, P>(target: Option<(Kind, Bootstrap<B>)>, refused: bool): seq<Step<B, P>> {
    if target.None? then [PrepareFails]
    else if refused then [PrepareSucceeds(target.value.0, target.value.1), Refuse, Close]
    else [PrepareSucceeds(target.value.0, target.value.1), Install, Announce, Close]
  }

  lemma {:induction false} RunOne<B, P>(m: Manager<B, P>, step: Step<B, P>)
    requires Enabled(m, step)
    ensures Runs(m, [step]) && After(m, [step]) == Do(m, step)
  {
    assert [step][1..] == [];
    assert Runs(Do(m, step), []) && After(Do(m, step), []) == Do(m, step);
  }

  lemma {:induction false} RunFirst<B, P>(m: Manager<B, P>, step: Step<B, P>, rest: seq<Step<B, P>>)
    requires Enabled(m, step) && Runs(Do(m, step), rest)
    ensures Runs(m, [step] + rest) && After(m, [step] + rest) == After(Do(m, step), rest)
  {
    assert ([step] + rest)[1..] == rest;
  }

  lemma {:induction false} RunTwo<B, P>(m: Manager<B, P>, a: Step<B, P>, b: Step<B, P>)
    requires Enabled(m, a) && Enabled(Do(m, a), b)
    ensures Runs(m, [a, b]) && After(m, [a, b]) == Do(Do(m, a), b)
  {
    hide Do, Enabled;
    RunOne(Do(m, a), b);
    RunFirst(m, a, [b]);
    assert [a, b] == [a] + [b];
  }

  // A prepared Host put in place of the active one, or refused.
  lemma {:induction false} InstallRun<B, P>(m: Manager<B, P>, host: Kind, bootstrap: Bootstrap<B>, refused: bool)
    requires m.phase.Preparing?
    ensures var rest := if refused then [Refuse, Close] else [Install, Announce, Close];
      var steps := [PrepareSucceeds(host, bootstrap)] + rest;
      var ready := Do(m, PrepareSucceeds(host, bootstrap));
      && Runs(m, steps)
      && After(m, steps) ==
         if refused then Do(Do(ready, Refuse), Close) else Do(Do(Do(ready, Install), Announce), Close)
  {
    var ready := Do(m, PrepareSucceeds(host, bootstrap));
    if refused {
      RunTwo(ready, Refuse, Close);
      RunFirst(m, PrepareSucceeds(host, bootstrap), [Refuse, Close]);
    } else {
      RunTwo(Do(ready, Install), Announce, Close);
      RunFirst(ready, Install, [Announce, Close]);
      assert [Step<B, P>.Install] + [Announce, Close] == [Install, Announce, Close];
      RunFirst(m, PrepareSucceeds(host, bootstrap), [Install, Announce, Close]);
    }
  }

  ghost function Placed<B, P>(m: Manager<B, P>, host: Kind, bootstrap: Bootstrap<B>, refused: bool): Manager<B, P>
    requires m.phase.Preparing?
  {
    var ready := Do(m, PrepareSucceeds(host, bootstrap));
    if refused then Do(Do(ready, Refuse), Close) else Do(Do(Do(ready, Install), Announce), Close)
  }

  lemma {:induction false} FirstRun<B, P>(target: Option<(Kind, Bootstrap<B>)>, refused: bool)
    ensures var steps, m: Manager<B, P> := FirstSteps(target, refused), Start();
      && Runs(m, steps)
      && After(m, steps) ==
         if target.None? then Do(m, PrepareFails) else Placed(m, target.value.0, target.value.1, refused)
  {
    hide Do, Runs, After;
    var m: Manager<B, P> := Start();
    if target.None? {
      PreparingEnables(m);
      RunOne(m, PrepareFails);
    } else {
      InstallRun(m, target.value.0, target.value.1, refused);
      SameSteps<B, P>(target.value, refused);
    }
  }

  lemma {:induction false} PreparingEnables<B, P>(m: Manager<B, P>)
    requires m.phase.Preparing?
    ensures Enabled(m, PrepareFails)
  {
  }

  lemma {:induction false} SameSteps<B, P>(target: (Kind, Bootstrap<B>), refused: bool)
    ensures FirstSteps<B, P>(Some(target), refused) ==
            [PrepareSucceeds(target.0, target.1)] + if refused then [Refuse, Close] else [Install, Announce, Close]
    ensures SwitchSteps<B, P>(false, Some(target), refused) == [Begin(false)] + FirstSteps(Some(target), refused)
  {
  }

  lemma {:induction false} SwitchRun<B, P>(m: Manager<B, P>, recording: bool, target: Option<(Kind, Bootstrap<B>)>,
                                           refused: bool)
    requires m.phase.Idle?
    ensures var steps := SwitchSteps(recording, target, refused);
      var begun := Do(m, Begin(recording));
      && Runs(m, steps)
      && After(m, steps) == if recording then begun else if target.None? then Do(begun, PrepareFails)
                            else Placed(begun, target.value.0, target.value.1, refused)
  {
    hide Runs, After;
    var begun := Do(m, Begin(recording));
    if recording {
      RunOne(m, Begin(true));
    } else if target.None? {
      RunTwo(m, Begin(false), PrepareFails);
    } else {
      InstallRun(begun, target.value.0, target.value.1, refused);
      SameSteps<B, P>(target.value, refused);
      RunFirst(m, Begin(false), FirstSteps(target, refused));
    }
  }

  lemma {:induction false} ShutdownEffect<B, P>(m: Manager<B, P>)
    requires m.phase.Idle?
    ensures Runs(m, [Step.Shutdown, Close])
    ensures After(m, [Step.Shutdown, Close]) ==
            m.(active := Disconnected(m.active.generation), closed := ShutDown(m.closed, m.active))
  {
    hide Runs, After;
    RunTwo(m, Step.Shutdown, Close);
  }

  // What the first Host leaves behind, with the manager given up or not.
  function Opened<B, P>(target: Option<(Kind, Bootstrap<B>)>, refused: bool): Manager<B, P> {
    var m: Manager<B, P> := Start().(phase := Idle);
    if target.None? then m
    else if refused then m.(calls := [Router.Discard(FIRST)], prepared := {FIRST}, closed := multiset{FIRST})
    else m.(calls := [Router.Activate(FIRST)], prepared := {FIRST}, active := Hosting(target.value.0, FIRST),
            bootstrap := Some(target.value.1), project := Some(target.value.1.project))
  }

  lemma {:induction false} FirstEffect<B, P>(target: Option<(Kind, Bootstrap<B>)>, refused: bool)
    ensures Runs(Start<B, P>(), FirstSteps(target, refused))
    ensures After(Start<B, P>(), FirstSteps(target, refused)).(phase := Idle) == Opened(target, refused)
  {
    hide Runs, After, FirstSteps;
    FirstRun<B, P>(target, refused);
  }

  // The whole effect of a switch: one that could not prepare its Host, one refused, one that succeeded.
  function Unprepared<B, P>(m: Manager<B, P>): Manager<B, P> {
    m.(next := m.next + 1, calls := m.calls + [Router.Discard(m.next + 1)])
  }

  function Refused<B, P>(m: Manager<B, P>): Manager<B, P> {
    var g := m.next + 1;
    m.(next := g, calls := m.calls + [Router.Discard(g)], prepared := m.prepared + {g},
       closed := m.closed[g := m.closed[g] + 1])
  }

  function Replaced<B, P>(m: Manager<B, P>, host: Kind, bootstrap: Bootstrap<B>): Manager<B, P> {
    var g := m.next + 1;
    m.(next := g, calls := m.calls + [Router.Activate(g)], prepared := m.prepared + {g},
       closed := ShutDown(m.closed, m.active),
       active := Hosting(host, g), bootstrap := Some(bootstrap), project := Some(bootstrap.project))
  }

  lemma {:induction false} UnpreparedEffect<B, P>(m: Manager<B, P>)
    requires m.phase.Idle? && m.next >= FIRST
    ensures Do(m, Begin(true)) == m && Do(Do(m, Begin(false)), PrepareFails) == Unprepared(m)
  {
  }

  lemma {:induction false} RefusedEffect<B, P>(m: Manager<B, P>, host: Kind, bootstrap: Bootstrap<B>)
    requires m.phase.Idle? && m.next >= FIRST
    ensures Placed(Do(m, Begin(false)), host, bootstrap, true) == Refused(m)
  {
  }

  lemma {:induction false} ReplacedEffect<B, P>(m: Manager<B, P>, host: Kind, bootstrap: Bootstrap<B>)
    requires m.phase.Idle? && m.next >= FIRST
    ensures Placed(Do(m, Begin(false)), host, bootstrap, false) == Replaced(m, host, bootstrap)
  {
  }

  function Switched<B, P>(m: Manager<B, P>, recording: bool, target: Option<(Kind, Bootstrap<B>)>,
                          refused: bool): Manager<B, P> {
    if recording then m else if target.None? then Unprepared(m)
    else if refused then Refused(m) else Replaced(m, target.value.0, target.value.1)
  }

  lemma {:induction false} SwitchEffect<B, P>(m: Manager<B, P>, recording: bool, target: Option<(Kind, Bootstrap<B>)>,
                                              refused: bool)
    requires m.phase.Idle? && m.next >= FIRST
    ensures Runs(m, SwitchSteps(recording, target, refused))
    ensures After(m, SwitchSteps(recording, target, refused)) == Switched(m, recording, target, refused)
  {
    hide Runs, After, SwitchSteps, Placed, Do, Unprepared, Refused, Replaced;
    SwitchRun(m, recording, target, refused);
    UnpreparedEffect(m);
    if target.Some? {
      RefusedEffect(m, target.value.0, target.value.1);
      ReplacedEffect(m, target.value.0, target.value.1);
    }
  }

  /** What a switch without interference comes to. It is refused while the current Host records, and changes nothing;
      it fails, shutting the new Host down, when that cannot be prepared or is refused, and then the active Host is what
      it was; otherwise the new Host takes the place of the old one, which is shut down, under the next number. */
  lemma {:induction false} SwitchComesTo<B, P>(m: Manager<B, P>, recording: bool, target: Option<(Kind, Bootstrap<B>)>,
                                               refused: bool)
    requires m.phase.Idle? && m.next >= FIRST
    ensures Runs(m, SwitchSteps(recording, target, refused))
    ensures var after, g := After(m, SwitchSteps(recording, target, refused)), m.next + 1;
      if recording then after == m
      else
        && after.phase.Idle? && after.next == g
        && after.prepared == (if target.Some? then m.prepared + {g} else m.prepared)
        && if target.Some? && !refused then
             && after.active == Hosting(target.value.0, g) && after.bootstrap == Some(target.value.1)
             && after.project == Some(target.value.1.project) && after.calls == m.calls + [Router.Activate(g)]
             && after.closed == m.closed + if m.active.Hosting? then multiset{m.active.generation} else multiset{}
           else
             && after.active == m.active && after.bootstrap == m.bootstrap && after.project == m.project
             && after.calls == m.calls + [Router.Discard(g)]
             && after.closed == m.closed + if target.Some? then multiset{g} else multiset{}
  {
    hide Runs, After, SwitchSteps;
    SwitchEffect(m, recording, target, refused);
  }

  function Dropped<B, P>(m: Manager<B, P>, generation: nat): Manager<B, P> {
    if m.active != Hosting(Attached, generation) then m
    else m.(active := Disconnected(m.next + 1), next := m.next + 1, closed := ShutDown(m.closed, m.active),
            calls := m.calls + [Router.Invalidate(m.next + 1)])
  }

  lemma {:induction false} DisconnectEffect<B, P>(m: Manager<B, P>, generation: nat)
    requires m.phase.Idle?
    ensures Runs(m, DisconnectSteps(m.active, generation))
    ensures After(m, DisconnectSteps(m.active, generation)) == Dropped(m, generation)
  {
    hide Runs, After;
    if m.active != Hosting(Attached, generation) {
      RunOne(m, Disconnect(generation));
    } else {
      RunTwo(m, Disconnect(generation), Report);
    }
  }

  class HostConnectionManager<B(==), P(==)> {
    var active: Active
    var bootstrap: Option<Bootstrap<B>>
    var activeProjectId: Option<string>
    var nextGeneration: nat
    const router: Router.DesktopEventRouter<P>
    ghost var calls: seq<Router.Call<P>>
    ghost var prepared: set<nat>
    ghost var closed: multiset<nat>

    constructor ()
      ensures Valid() && fresh(router) && Value() == Start().(phase := Idle)
    {
      active, bootstrap, activeProjectId, nextGeneration := Disconnected(0), None, None, FIRST;
      calls, prepared, closed := [], {}, multiset{};
      router := new Router.DesktopEventRouter();
    }

    // The state between operations, when nobody holds the switch lock.
    ghost function Value(): Manager<B, P>
      reads this
    {
      Manager(active, bootstrap, activeProjectId, nextGeneration, Idle, calls, prepared, closed)
    }

    ghost predicate Valid()
      reads this, router
    {
      nextGeneration >= FIRST && router.Value() == Router.Run(Router.Open(), calls)
    }

    method AllocateGeneration() returns (generation: nat)
      modifies this`nextGeneration
      ensures generation == nextGeneration == old(nextGeneration) + 1
    {
      nextGeneration := nextGeneration + 1;
      return nextGeneration;
    }

    method ShutdownOld(host: Active)
      modifies this`closed
      ensures closed == ShutDown(old(closed), host)
    {
      if host.Hosting? {
        closed := closed[host.generation := closed[host.generation] + 1];
      }
    }

    ghost method Tell(call: Router.Call<P>)
      modifies this`calls
      ensures calls == old(calls) + [call]
      ensures Router.Run(Router.Open(), calls) == Router.Step(Router.Run(Router.Open(), old(calls)), call)
    {
      assert (calls + [call])[..|calls|] == calls;
      calls := calls + [call];
    }

    method Discard(generation: nat)
      requires Valid()
      modifies this`calls, router
      ensures Valid() && calls == old(calls) + [Router.Discard(generation)]
    {
      router.Discard(generation);
      Tell(Router.Discard(generation));
    }

    // Swaps the prepared Host in and announces it, or discards and shuts it down when its event reader has failed.
    method InstallPrepared(host: Active, bootstrap: Bootstrap<B>, readerFailed: bool) returns (replaced: Option<Active>)
      requires Valid() && host.Hosting?
      modifies this`active, this`bootstrap, this`activeProjectId, this`calls, this`closed, router
      ensures Valid() && replaced == if readerFailed then None else Some(old(active))
      ensures readerFailed ==>
        && Value() == old(Value()).(calls := old(calls) + [Router.Discard(host.generation)],
                                    closed := ShutDown(old(closed), host))
      ensures !readerFailed ==>
        && Value() == old(Value()).(active := host, bootstrap := Some(bootstrap), project := Some(bootstrap.project),
                                    calls := old(calls) + [Router.Activate(host.generation)])
    {
      hide Router.Run, Router.Step;
      if readerFailed {
        Discard(host.generation);
        ShutdownOld(host);
        return None;
      }
      replaced := Some(active);
      active := host;
      this.bootstrap := Some(bootstrap);
      activeProjectId := Some(bootstrap.project);
      router.Activate(host.generation);
      Tell(Router.Activate(host.generation));
    }

    // The first Host; when it cannot be opened and installed, the manager is given up.
    method Initialize(target: Option<(Kind, Bootstrap<B>)>, readerFailed: bool) returns (ok: bool)
      requires Valid() && Value() == Start().(phase := Idle)
      modifies this, router
      ensures Valid() && ok == (target.Some? && !readerFailed)
      ensures Runs(Start<B, P>(), FirstSteps(target, readerFailed))
      ensures Value() == After(Start<B, P>(), FirstSteps(target, readerFailed)).(phase := Idle)
    {
      hide Runs, After, Do, FirstSteps, Router.Run, Router.Step;
      FirstEffect<B, P>(target, readerFailed);
      if target.None? {
        return false;
      }
      var host := Hosting(target.value.0, FIRST);
      prepared := prepared + {FIRST};
      var replaced := InstallPrepared(host, target.value.1, readerFailed);
      if replaced.None? {
        return false;
      }
      ShutdownOld(replaced.value);
      return true;
    }

    /** A switch without interference is the run of its steps. The answers of the world outside: whether the current
        Host records before and after the preparation, what the preparation yields, and whether its event reader has
        failed. */
    method Switch(recording: bool, target: Option<(Kind, Bootstrap<B>)>, recordingNow: bool, readerFailed: bool)
        returns (ok: bool)
      requires Valid()
      modifies this, router
      ensures Valid() && ok == (!recording && target.Some? && !recordingNow && !readerFailed)
      ensures Runs(old(Value()), SwitchSteps(recording, target, recordingNow || readerFailed))
      ensures Value() == After(old(Value()), SwitchSteps(recording, target, recordingNow || readerFailed))
    {
      hide Runs, After, SwitchSteps, Router.Run, Router.Step, Do;
      SwitchEffect(Value(), recording, target, recordingNow || readerFailed);
      if recording {
        return false;
      }
      var generation := AllocateGeneration();
      if target.None? {
        Discard(generation);
        return false;
      }
      var host := Hosting(target.value.0, generation);
      prepared := prepared + {generation};
      if recordingNow {
        Discard(generation);
        ShutdownOld(host);
        return false;
      }
      var replaced := InstallPrepared(host, target.value.1, readerFailed);
      if replaced.None? {
        return false;
      }
      ShutdownOld(replaced.value);
      return true;
    }

    method HandleDisconnect(generation: nat)
      requires Valid()
      modifies this, router
      ensures Valid()
      ensures Runs(old(Value()), DisconnectSteps(old(active), generation))
      ensures Value() == After(old(Value()), DisconnectSteps(old(active), generation))
      ensures old(active) != Hosting(Attached, generation) ==> Value() == old(Value())
      ensures old(active) == Hosting(Attached, generation) ==>
        && active == Disconnected(old(nextGeneration) + 1) && closed == old(closed) + multiset{generation}
        && calls == old(calls) + [Router.Invalidate(active.generation)]
        && bootstrap == old(bootstrap) && activeProjectId == old(activeProjectId)
    {
      hide Runs, After, DisconnectSteps, Router.Run, Router.Step, Do;
      DisconnectEffect(Value(), generation);
      if active != Hosting(Attached, generation) {
        return;
      }
      var disconnected := AllocateGeneration();
      ShutdownOld(active);
      active := Disconnected(disconnected);
      router.Invalidate(disconnected);
      Tell(Router.Invalidate(disconnected));
    }

    method Shutdown()
      requires Valid()
      modifies this
      ensures Valid() && Runs(old(Value()), [Step.Shutdown, Close])
      ensures Value() == After(old(Value()), [Step.Shutdown, Close])
    {
      hide Runs, After, Do, Router.Run, Router.Step;
      ShutdownEffect(Value());
      var previous := active;
      active := Disconnected(active.generation);
      ShutdownOld(previous);
    }
  }
}
