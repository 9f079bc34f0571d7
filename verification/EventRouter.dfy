/** The router of Host events: buffering, discarding and announcing numbered generations of the connection. */
module EventRouter {
  import opened EventBuffer

  // What reaches the shell; the generation a frame came from is known to the proof only.
  datatype Output<P> = Emitted(generation: nat, frame: Frame<P>) | Connected(generation: nat)
      | Invalidated(generation: nat)

  datatype Router<P> = Router(active: nat, discardedThrough: nat, pending: map<nat, seq<Frame<P>>>, out: seq<Output<P>>)

  datatype Call<P> =
    | Receive(generation: nat, frame: Frame<P>)
    | Discard(generation: nat)
    | Activate(generation: nat)
    | Invalidate(generation: nat)

  function Open<P>(): Router<P> {
    Router(0, 0, map[], [])
  }

  predicate IsDropped(event: string) {
    event == "plugin-state-changed" || event == "plugin-parameter-changed"
  }

  function QueueOf<P>(pending: map<nat, seq<Frame<P>>>, generation: nat): seq<Frame<P>> {
    if generation in pending then pending[generation] else []
  }

  function From<P>(pending: map<nat, seq<Frame<P>>>, generation: nat): map<nat, seq<Frame<P>>> {
    map g | g in pending && g >= generation :: pending[g]
  }

  function EmitAll<P>(generation: nat, frames: seq<Frame<P>>): (r: seq<Output<P>>)
    ensures |r| == |frames| && forall i :: 0 <= i < |r| ==> r[i] == Emitted(generation, frames[i])
  {
    seq(|frames|, i requires 0 <= i < |frames| => Emitted(generation, frames[i]))
  }

  function Received<P>(router: Router<P>, generation: nat, frame: Frame<P>): Router<P> {
    if IsDropped(frame.event) || (generation != router.active && generation <= router.discardedThrough) then router
    else if generation == router.active then router.(out := router.out + [Emitted(generation, frame)])
    else if generation > router.active then
      router.(pending := router.pending[generation := Buffer(QueueOf(router.pending, generation), frame)])
    else router
  }

  function Step<P>(router: Router<P>, call: Call<P>): Router<P> {
    match call
    case Receive(generation, frame) => Received(router, generation, frame)
    case Discard(generation) =>
      router.(discardedThrough := if router.discardedThrough < generation then generation else router.discardedThrough,
              pending := router.pending - {generation})
    case Activate(generation) =>
      router.(active := generation, pending := From(router.pending, generation) - {generation},
              out := router.out + [Connected(generation)] + EmitAll(generation, QueueOf(router.pending, generation)))
    case Invalidate(generation) =>
      router.(active := generation, pending := From(router.pending, generation),
              out := router.out + [Invalidated(generation)])
  }

  function Run<P>(router: Router<P>, calls: seq<Call<P>>): Router<P> {
    if calls == [] then router else Step(Run(router, calls[..|calls| - 1]), calls[|calls| - 1])
  }

  // The last generation decided: announced, invalidated or discarded.
  function Decided<P>(calls: seq<Call<P>>): nat {
    if calls == [] then 0
    else if calls[|calls| - 1].Receive? then Decided(calls[..|calls| - 1])
    else calls[|calls| - 1].generation
  }

  /** How generations are handed out: numbers start at 1, and each is decided after all smaller ones. Frames of any
      generation may arrive at any time. */
  ghost predicate Allowed<P>(calls: seq<Call<P>>) {
    calls != [] ==>
      var n := |calls| - 1;
      && Allowed(calls[..n])
      && 1 <= calls[n].generation
      && (!calls[n].Receive? ==> Decided(calls[..n]) < calls[n].generation)
  }

  // The generation last announced to the shell, either way.
  function Announced<P>(out: seq<Output<P>>): nat {
    if out == [] then 0
    else if out[|out| - 1].Emitted? then Announced(out[..|out| - 1])
    else out[|out| - 1].generation
  }

  // Every frame comes after the announcement of its own generation and before the next one.
  ghost predicate InItsTurn<P>(out: seq<Output<P>>) {
    forall i :: 0 <= i < |out| && out[i].Emitted? ==> out[i].generation == Announced(out[..i])
  }

  ghost predicate AnnouncementsRise<P>(out: seq<Output<P>>) {
    forall i :: 0 <= i < |out| && !out[i].Emitted? ==> Announced(out[..i]) < out[i].generation
  }

  lemma {:induction false} AnnouncedNext<P>(out: seq<Output<P>>, next: Output<P>)
    ensures Announced(out + [next]) == if next.Emitted? then Announced(out) else next.generation
    ensures InItsTurn(out) && (next.Emitted? ==> next.generation == Announced(out)) ==> InItsTurn(out + [next])
    ensures AnnouncementsRise(out) && (!next.Emitted? ==> Announced(out) < next.generation) ==>
      AnnouncementsRise(out + [next])
  {
    assert (out + [next])[..|out|] == out;
    assert forall i :: 0 <= i < |out| ==> (out + [next])[..i] == out[..i];
  }

  lemma {:induction false} EmitOneMore<P>(generation: nat, frames: seq<Frame<P>>)
    requires frames != []
    ensures var n := |frames| - 1;
      EmitAll(generation, frames) == EmitAll(generation, frames[..n]) + [Emitted(generation, frames[n])]
  {
  }

  lemma {:induction false} EmittedInTurn<P>(out: seq<Output<P>>, frames: seq<Frame<P>>)
    requires InItsTurn(out) && AnnouncementsRise(out)
    ensures var all := out + EmitAll(Announced(out), frames);
      Announced(all) == Announced(out) && InItsTurn(all) && AnnouncementsRise(all)
  {
    hide InItsTurn, AnnouncementsRise, Announced;
    var g := Announced(out);
    if frames == [] {
      assert out + EmitAll(g, frames) == out;
    } else {
      var n := |frames| - 1;
      EmittedInTurn(out, frames[..n]);
      AnnouncedNext(out + EmitAll(g, frames[..n]), Emitted(g, frames[n]));
      EmitOneMore(g, frames);
      assert out + EmitAll(g, frames) == out + EmitAll(g, frames[..n]) + [Emitted(g, frames[n])];
    }
  }

  // What the router's fields say of the calls made so far.
  ghost predicate Tracks<P>(router: Router<P>, calls: seq<Call<P>>) {
    && router.active == Announced(router.out)
    && router.active <= Decided(calls) && router.discardedThrough <= Decided(calls)
    && (Decided(calls) == router.active || Decided(calls) == router.discardedThrough)
    && InItsTurn(router.out) && AnnouncementsRise(router.out)
  }

  /** In every run, each emitted frame carries the generation that is active at that moment and comes after its
      announcement, and announcements rise. */
  lemma {:induction false} RunTracks<P>(calls: seq<Call<P>>)
    requires Allowed(calls)
    ensures Tracks(Run(Open(), calls), calls)
  {
    if calls != [] {
      var n := |calls| - 1;
      RunTracks(calls[..n]);
      StepTracks(Run(Open(), calls[..n]), calls);
    }
  }

  lemma {:induction false} StepTracks<P>(router: Router<P>, calls: seq<Call<P>>)
    requires Allowed(calls) && calls != [] && Tracks(router, calls[..|calls| - 1])
    ensures Tracks(Step(router, calls[|calls| - 1]), calls)
  {
    hide InItsTurn, AnnouncementsRise, Announced, Allowed;
    var call, n := calls[|calls| - 1], |calls| - 1;
    AllowedLast(calls);
    match call
    case Receive(generation, frame) => AnnouncedNext(router.out, Emitted(generation, frame));
    case Discard(generation) =>
    case Invalidate(generation) => AnnouncedNext(router.out, Invalidated(generation));
    case Activate(generation) =>
      AnnouncedNext(router.out, Connected(generation));
      EmittedInTurn(router.out + [Connected(generation)], QueueOf(router.pending, generation));
  }

  lemma {:induction false} AllowedLast<P>(calls: seq<Call<P>>)
    requires Allowed(calls) && calls != []
    ensures var n := |calls| - 1;
      1 <= calls[n].generation && (!calls[n].Receive? ==> Decided(calls[..n]) < calls[n].generation)
  {
  }

  // The two plugin events that are never forwarded.
  predicate Private(event: string) {
    event in ["plugin-state-changed", "plugin-parameter-changed"]
  }

  // The frames of one generation among the calls and among the outputs.
  function Arrived<P>(calls: seq<Call<P>>, generation: nat): seq<Frame<P>> {
    if calls == [] then []
    else
      var last := calls[|calls| - 1];
      var before := Arrived(calls[..|calls| - 1], generation);
      if last.Receive? && last.generation == generation && !Private(last.frame.event) then before + [last.frame]
      else before
  }

  function Delivered<P>(out: seq<Output<P>>, generation: nat): seq<Frame<P>> {
    if out == [] then []
    else
      var last := out[|out| - 1];
      var before := Delivered(out[..|out| - 1], generation);
      if last.Emitted? && last.generation == generation then before + [last.frame] else before
  }

  lemma {:induction false} DeliveredNext<P>(out: seq<Output<P>>, next: Output<P>, generation: nat)
    ensures Delivered(out + [next], generation) ==
            if next.Emitted? && next.generation == generation then Delivered(out, generation) + [next.frame]
            else Delivered(out, generation)
  {
    assert (out + [next])[..|out|] == out;
  }

  lemma {:induction false} DeliveredAll<P>(out: seq<Output<P>>, from: nat, frames: seq<Frame<P>>, generation: nat)
    ensures Delivered(out + EmitAll(from, frames), generation) ==
            if from == generation then Delivered(out, generation) + frames else Delivered(out, generation)
  {
    hide Delivered;
    if frames == [] {
      assert out + EmitAll(from, frames) == out;
    } else {
      var n := |frames| - 1;
      DeliveredAll(out, from, frames[..n], generation);
      EmitOneMore(from, frames);
      DeliveredNext(out + EmitAll(from, frames[..n]), Emitted(from, frames[n]), generation);
      assert Delivered(out, generation) + frames == Delivered(out, generation) + frames[..n] + [frames[n]];
      assert out + EmitAll(from, frames) == out + EmitAll(from, frames[..n]) + [Emitted(from, frames[n])];
    }
  }

  // What should be delivered of a generation, told from the calls alone: on activation, what arrived before it,
  // buffered; then each frame as it arrives, until the next announcement.
  function Due<P>(calls: seq<Call<P>>, generation: nat): seq<Frame<P>>
    decreases |calls|, 1
  {
    if calls == [] then []
    else
      var before, last := calls[..|calls| - 1], calls[|calls| - 1];
      DueNext(before, last, generation)
  }

  function DueNext<P>(before: seq<Call<P>>, call: Call<P>, generation: nat): seq<Frame<P>>
    decreases |before|, 2
  {
    match call
    case Activate(g) => if g == generation then Buffered(Arrived(before, g)) else Due(before, generation)
    case Receive(g, frame) =>
      if g == generation && LastAnnounced(before) == g && !Private(frame.event) then Due(before, generation) + [frame]
      else Due(before, generation)
    case Discard(_) => Due(before, generation)
    case Invalidate(_) => Due(before, generation)
  }

  function LastAnnounced<P>(calls: seq<Call<P>>): nat {
    if calls == [] then 0
    else if calls[|calls| - 1].Activate? || calls[|calls| - 1].Invalidate? then calls[|calls| - 1].generation
    else LastAnnounced(calls[..|calls| - 1])
  }

  ghost predicate Exact<P>(router: Router<P>, calls: seq<Call<P>>, generation: nat) {
    && Delivered(router.out, generation) == Due(calls, generation)
    && (generation > Decided(calls) ==>
          QueueOf(router.pending, generation) == Buffered(Arrived(calls, generation)) && Due(calls, generation) == [])
  }

  lemma {:induction false} BufferedNext<P>(frames: seq<Frame<P>>, frame: Frame<P>)
    ensures Buffered(frames + [frame]) == Buffer(Buffered(frames), frame)
  {
    assert (frames + [frame])[..|frames|] == frames;
  }

  lemma {:induction false} AnnouncedLast<P>(calls: seq<Call<P>>)
    ensures Run(Open(), calls).active == LastAnnounced(calls)
  {
    if calls != [] {
      AnnouncedLast(calls[..|calls| - 1]);
    }
  }

  lemma {:induction false} CallsNext<P>(before: seq<Call<P>>, call: Call<P>, generation: nat)
    ensures Decided(before + [call]) == if call.Receive? then Decided(before) else call.generation
    ensures Due(before + [call], generation) == DueNext(before, call, generation)
    ensures Arrived(before + [call], generation) ==
            if call.Receive? && call.generation == generation && !Private(call.frame.event)
            then Arrived(before, generation) + [call.frame] else Arrived(before, generation)
  {
    assert (before + [call])[..|before|] == before;
  }

  lemma {:induction false} ReceiveExact<P>(router: Router<P>, before: seq<Call<P>>, from: nat, frame: Frame<P>,
                                           generation: nat)
    requires Tracks(router, before) && Exact(router, before, generation) && router.active == LastAnnounced(before)
    requires from != 0
    ensures Exact(Received(router, from, frame), before + [Receive(from, frame)], generation)
  {
    hide Due, Arrived, Delivered, Decided, LastAnnounced, Buffered, Buffer, InItsTurn, AnnouncementsRise;
    CallsNext(before, Receive(from, frame), generation);
    DeliveredNext(router.out, Emitted(from, frame), generation);
    BufferedNext(Arrived(before, generation), frame);
  }

  lemma {:induction false} ActivateExact<P>(router: Router<P>, before: seq<Call<P>>, active: nat, generation: nat)
    requires active > Decided(before) && Exact(router, before, generation) && generation != 0
    ensures Exact(Step(router, Activate(active)), before + [Activate(active)], generation)
  {
    hide Due, Arrived, Delivered, Decided, Buffered;
    var queue := QueueOf(router.pending, active);
    CallsNext(before, Activate(active), generation);
    DeliveredNext(router.out, Connected(active), generation);
    DeliveredAll(router.out + [Connected(active)], active, queue, generation);
  }

  lemma {:induction false} StepExact<P>(router: Router<P>, before: seq<Call<P>>, call: Call<P>, generation: nat)
    requires generation != 0 && call.generation != 0 && (!call.Receive? ==> Decided(before) < call.generation)
    requires Tracks(router, before) && router.active == LastAnnounced(before) && Exact(router, before, generation)
    ensures Exact(Step(router, call), before + [call], generation)
  {
    hide Due, Arrived, Delivered, Decided, Buffered, LastAnnounced, Tracks;
    CallsNext(before, call, generation);
    match call
    case Discard(_) =>
    case Receive(from, frame) => ReceiveExact(router, before, from, frame, generation);
    case Invalidate(active) => DeliveredNext(router.out, Invalidated(active), generation);
    case Activate(active) => ActivateExact(router, before, active, generation);
  }

  lemma {:induction false} NothingDue<P>(generation: nat)
    ensures Exact<P>(Open(), [], generation)
  {
  }

  /** In every run, what the shell gets of a generation is exactly what is due, and what waits for a generation not
      decided yet is exactly what arrived, buffered. */
  lemma {:induction false} RunExact<P>(calls: seq<Call<P>>, generation: nat)
    requires Allowed(calls) && generation != 0
    ensures Exact(Run(Open(), calls), calls, generation)
  {
    hide Exact, Step, Tracks;
    if calls == [] {
      NothingDue<P>(generation);
    } else {
      var before, last := calls[..|calls| - 1], calls[|calls| - 1];
      AllowedLast(calls);
      RunTracks(before);
      AnnouncedLast(before);
      RunExact(before, generation);
      StepExact(Run(Open(), before), before, last, generation);
      assert calls == before + [last];
    }
  }

  // The announcements the shell gets, and those the calls make due.
  function Announcements<P>(out: seq<Output<P>>): seq<Output<P>> {
    if out == [] then []
    else
      var before, last := Announcements(out[..|out| - 1]), out[|out| - 1];
      if last.Emitted? then before else before + [last]
  }

  function AnnouncementsDue<P>(calls: seq<Call<P>>): seq<Output<P>> {
    if calls == [] then []
    else
      var before := AnnouncementsDue(calls[..|calls| - 1]);
      match calls[|calls| - 1]
      case Activate(generation) => before + [Connected(generation)]
      case Invalidate(generation) => before + [Invalidated(generation)]
      case _ => before
  }

  lemma {:induction false} AnnouncementsNext<P>(out: seq<Output<P>>, next: Output<P>)
    ensures Announcements(out + [next]) == Announcements(out) + if next.Emitted? then [] else [next]
  {
    assert (out + [next])[..|out|] == out;
  }

  lemma {:induction false} EmittingAnnouncesNothing<P>(out: seq<Output<P>>, generation: nat, frames: seq<Frame<P>>)
    ensures Announcements(out + EmitAll(generation, frames)) == Announcements(out)
  {
    hide Announcements;
    if frames == [] {
      assert out + EmitAll(generation, frames) == out;
    } else {
      var n := |frames| - 1;
      EmittingAnnouncesNothing(out, generation, frames[..n]);
      EmitOneMore(generation, frames);
      AnnouncementsNext(out + EmitAll(generation, frames[..n]), Emitted(generation, frames[n]));
      assert out + EmitAll(generation, frames) ==
             out + EmitAll(generation, frames[..n]) + [Emitted(generation, frames[n])];
    }
  }

  /** In every run, the shell is told of exactly the connections and disconnections there were, in their order. */
  lemma {:induction false} AnnouncedExactly<P>(calls: seq<Call<P>>)
    ensures Announcements(Run(Open(), calls).out) == AnnouncementsDue(calls)
  {
    hide Announcements;
    if calls == [] {
      NothingAnnounced<P>();
    } else {
      var before, last := calls[..|calls| - 1], calls[|calls| - 1];
      AnnouncedExactly(before);
      var router := Run(Open(), before);
      match last
      case Receive(generation, frame) => AnnouncementsNext(router.out, Emitted(generation, frame));
      case Discard(_) =>
      case Invalidate(generation) => AnnouncementsNext(router.out, Invalidated(generation));
      case Activate(generation) =>
        AnnouncementsNext(router.out, Connected(generation));
        EmittingAnnouncesNothing(router.out + [Connected(generation)], generation,
                                 QueueOf(router.pending, generation));
    }
  }

  lemma {:induction false} NothingAnnounced<P>()
    ensures Announcements<P>([]) == []
  {
  }

  // Decided and not active: discarded, or announced and since replaced.
  predicate Over<P>(calls: seq<Call<P>>, generation: nat) {
    0 < generation <= Decided(calls) && generation != LastAnnounced(calls)
  }

  lemma {:induction false} StaysOver<P>(calls: seq<Call<P>>, more: seq<Call<P>>, generation: nat)
    requires Allowed(calls + more) && Over(calls, generation)
    ensures Over(calls + more, generation) && Due(calls + more, generation) == Due(calls, generation)
  {
    if more == [] {
      assert calls + more == calls;
    } else {
      var n := |more| - 1;
      assert (calls + more)[..|calls + more| - 1] == calls + more[..n];
      StaysOver(calls, more[..n], generation);
    }
  }

  lemma {:induction false} AllowedBefore<P>(calls: seq<Call<P>>, more: seq<Call<P>>)
    requires Allowed(calls + more)
    ensures Allowed(calls)
  {
    if more == [] {
      assert calls + more == calls;
    } else {
      assert (calls + more)[..|calls + more| - 1] == calls + more[..|more| - 1];
      AllowedBefore(calls, more[..|more| - 1]);
    }
  }

  /** Once a generation is discarded or activated, nothing waits for it any more, whatever arrives later. */
  lemma {:induction false} NothingWaits<P>(calls: seq<Call<P>>, generation: nat)
    requires Allowed(calls) && (Discard(generation) in calls || Activate(generation) in calls)
    ensures var router := Run(Open(), calls);
      && generation !in router.pending
      && (Discard(generation) in calls ==> generation <= router.discardedThrough)
      && (Activate(generation) in calls ==> generation <= router.active)
  {
    var n := |calls| - 1;
    var before, last := calls[..n], calls[n];
    assert calls == before + [last];
    AllowedLast(calls);
    RunTracks(before);
    if Discard(generation) in before || Activate(generation) in before {
      NothingWaits(before, generation);
    }
  }

  predicate IsAnnounced<P(==)>(calls: seq<Call<P>>, generation: nat) {
    Activate(generation) in calls || Invalidate(generation) in calls
  }

  /** Whatever arrives later, no frame of a replaced or discarded generation is emitted again; of a generation that is
      never announced none is emitted at all. */
  lemma {:induction false} OverIsSilent<P>(calls: seq<Call<P>>, more: seq<Call<P>>, generation: nat)
    requires Allowed(calls + more) && Over(calls, generation)
    ensures Delivered(Run(Open(), calls + more).out, generation) == Delivered(Run(Open(), calls).out, generation)
    ensures !IsAnnounced(calls + more, generation) ==> Delivered(Run(Open(), calls + more).out, generation) == []
  {
    AllowedBefore(calls, more);
    RunExact(calls, generation);
    RunExact(calls + more, generation);
    StaysOver(calls, more, generation);
    if !IsAnnounced(calls + more, generation) {
      NeverDue(calls + more, generation);
    }
  }

  lemma {:induction false} NeverDue<P>(calls: seq<Call<P>>, generation: nat)
    requires !IsAnnounced(calls, generation) && generation != 0
    ensures Due(calls, generation) == [] && LastAnnounced(calls) != generation
  {
    if calls != [] {
      assert calls[|calls| - 1] in calls;
      NeverDue(calls[..|calls| - 1], generation);
    }
  }

  /** While a Host is the announced one, every frame of it that is neither telemetry nor of the two plugin events never
      forwarded has been delivered, once and in the order of arrival, whether it came before the announcement or
      after. */
  lemma {:induction false} NothingLost<P>(calls: seq<Call<P>>, generation: nat)
    requires Allowed(calls) && generation != 0 && LastAnnounced(calls) == generation
    requires Invalidate(generation) !in calls
    ensures Lasting(Due(calls, generation)) == Lasting(Arrived(calls, generation))
  {
    if calls != [] {
      var before, last := calls[..|calls| - 1], calls[|calls| - 1];
      assert last in calls;
      if last == Activate(generation) {
        BufferLosesTelemetryOnly(Arrived(before, generation));
      } else {
        NothingLost(before, generation);
        if last.Receive? {
          Pushed(Due(before, generation), last.frame);
          Pushed(Arrived(before, generation), last.frame);
        }
      }
    }
  }

  // The last queued frame of the same event is looked for from the end.
  method ReplaceLast<P>(queue: seq<Frame<P>>, frame: Frame<P>) returns (r: seq<Frame<P>>)
    ensures r == Replaced(queue, frame)
  {
    var n: nat := |queue|;
    ghost var tail: seq<Frame<P>> := [];
    assert Replaced(queue, frame) + [] == Replaced(queue, frame) && queue[..n] == queue;
    while n > 0
      invariant n <= |queue| && tail == queue[n..]
      invariant Replaced(queue, frame) == Replaced(queue[..n], frame) + tail
    {
      n := n - 1;
      assert queue[..n + 1][..n] == queue[..n];
      if queue[n].event == frame.event {
        assert queue[n := frame] == queue[..n + 1][n := frame] + tail;
        return queue[n := frame];
      }
      tail := [queue[n]] + tail;
      assert Replaced(queue[..n], frame) + [queue[n]] + queue[n + 1..] == Replaced(queue[..n], frame) + tail;
    }
    assert queue[..0] == [] && tail == queue;
    return queue;
  }

  // Each method runs as one step: it holds the delivery lock from beginning to end.
  class DesktopEventRouter<P(==)> {
    var active: nat
    var discardedThrough: nat
    var pending: map<nat, seq<Frame<P>>>
    ghost var out: seq<Output<P>>

    constructor ()
      ensures Value() == Open()
    {
      active, discardedThrough, pending, out := 0, 0, map[], [];
    }

    ghost function Value(): Router<P>
      reads this
    {
      Router(active, discardedThrough, pending, out)
    }

    method EmitFrame(frame: Frame<P>)
      modifies this`out
      ensures out == old(out) + [Emitted(active, frame)]
    {
      out := out + [Emitted(active, frame)];
    }

    method Receive(generation: nat, frame: Frame<P>)
      modifies this
      ensures Value() == Step(old(Value()), Call.Receive(generation, frame))
    {
      if frame.event == "plugin-state-changed" || frame.event == "plugin-parameter-changed" {
        return;
      }
      if generation != active && generation <= discardedThrough {
        return;
      }
      if generation == active {
        EmitFrame(frame);
      } else if generation > active {
        var queue := if generation in pending then pending[generation] else [];
        if |queue| < EVENT_BUFFER_LIMIT || !IsTelemetry(frame.event) {
          queue := queue + [frame];
        } else {
          queue := ReplaceLast(queue, frame);
        }
        pending := pending[generation := queue];
      }
    }

    method Discard(generation: nat)
      modifies this
      ensures Value() == Step(old(Value()), Call.Discard(generation))
    {
      if discardedThrough < generation {
        discardedThrough := generation;
      }
      pending := pending - {generation};
    }

    method Activate(generation: nat)
      modifies this
      ensures Value() == Step(old(Value()), Call.Activate(generation))
    {
      active := generation;
      pending := map g | g in pending && g >= generation :: pending[g];
      out := out + [Connected(generation)];
      var queued := if generation in pending then pending[generation] else [];
      pending := pending - {generation};
      ghost var announced := out;
      for i := 0 to |queued|
        invariant active == generation && out == announced + EmitAll(generation, queued[..i])
        invariant pending == From(old(pending), generation) - {generation} && discardedThrough == old(discardedThrough)
      {
        EmitFrame(queued[i]);
        assert EmitAll(generation, queued[..i + 1]) ==
            EmitAll(generation, queued[..i]) + [Emitted(generation, queued[i])];
      }
      assert queued[..|queued|] == queued;
    }

    method Invalidate(generation: nat)
      modifies this
      ensures Value() == Step(old(Value()), Call.Invalidate(generation))
    {
      active := generation;
      pending := map g | g in pending && g >= generation :: pending[g];
      out := out + [Invalidated(generation)];
    }
  }
}
