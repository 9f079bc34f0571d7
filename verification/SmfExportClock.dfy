/** The first track of an exported file, told from its bytes: every event of it is a tempo or a meter, in order. */
module SmfExportClock {
  import opened Wrappers
  import opened Bytes
  import opened StableSort
  import opened SmfFormat
  import opened SmfEncoder
  import opened SmfExport
  import Clock = SmfClockTrack
  import MusicalClock
  import SmfFiles
  import Spell = SmfFileSpelling

  // Microseconds in three bytes, or numerator, exponent, 24 clocks a click and eight 32nds a quarter.
  predicate IsClock(event: Event) {
    event.Meta? &&
    if event.kind == 0x51 then |event.data| == 3
    else event.kind == 0x58 && |event.data| == 4 && event.data[2] == 24 && event.data[3] == 8
  }

  predicate SaysClock(data: bytes) {
    |data| >= 3 && data[0] == 0xff && IsClock(Meta(data[1], data[3..]))
  }

  function MomentOf(item: Item): Moment {
    Moment(item.tick, if |item.data| >= 3 then Meta(item.data[1], item.data[3..]) else System)
  }

  const SayingMoment: Item -> Moment := (item: Item) => MomentOf(item)

  function LastTickOf(items: seq<Item>, previous: nat): nat {
    if items == [] then previous else items[|items| - 1].tick
  }

  lemma {:induction false} ClockTimeline(items: seq<Item>, previous: nat)
    requires Clock.Clocking(items, previous)
    ensures Timeline(Clock.ClockSteps(items, previous), previous) ==
            Map(items, SayingMoment) + [Moment(LastTickOf(items, previous), Meta(0x2f, []))]
    decreases |items|
  {
    hide Clock.Clocking, Clock.IsMeta, Clock.ClockStep, Timeline, Map, MomentOf;
    if items == [] {
      EndTimeline(previous);
      NoMoments();
    } else {
      Clock.ClockingHead(items, previous);
      ClockTimeline(items[1..], items[0].tick);
      var step := Clock.ClockStep(items[0], previous);
      StepMoment(items[0], previous);
      TimelineNext(step, Clock.ClockSteps(items[1..], items[0].tick), previous);
      MomentsNext(items);
    }
  }

  lemma {:induction false} NoMoments()
    ensures Map([], SayingMoment) == []
  {
  }

  lemma {:induction false} MomentsNext(items: seq<Item>)
    requires items != []
    ensures Map(items, SayingMoment) == [MomentOf(items[0])] + Map(items[1..], SayingMoment)
  {
  }

  lemma {:induction false} TimelineNext(step: Step, rest: seq<Step>, tick: nat)
    ensures Timeline([step] + rest, tick) ==
            [Moment(tick + step.delta, step.event)] + Timeline(rest, tick + step.delta)
  {
    assert ([step] + rest)[1..] == rest;
  }

  lemma {:induction false} StepMoment(item: Item, previous: nat)
    requires Clock.IsMeta(item.data) && previous <= item.tick
    ensures var step := Clock.ClockStep(item, previous);
      previous + step.delta == item.tick && Moment(item.tick, step.event) == MomentOf(item)
  {
  }

  lemma {:induction false} EventsSayClock(bpm: real, numerator: byte, denominator: byte)
    requires bpm > 0.0
    ensures TempoEvent(bpm).Some? ==> SaysClock(TempoEvent(bpm).value) && TempoEvent(bpm).value[1] == 0x51
    ensures MeterEvent(numerator, denominator).Some? ==>
      SaysClock(MeterEvent(numerator, denominator).value) && MeterEvent(numerator, denominator).value[1] == 0x58
  {
  }

  ghost predicate AllSayClock(items: seq<Item>) {
    forall item :: item in items ==> SaysClock(item.data)
  }

  lemma {:induction false} TempoItemsSay(tempos: seq<Tempo>, origin: nat, end: Option<nat>)
    requires Positive(tempos) && TempoItems(tempos, origin, end).Some?
    ensures AllSayClock(TempoItems(tempos, origin, end).value)
  {
    hide TempoEvent, SaysClock;
    if tempos != [] {
      TempoItemsSay(tempos[..|tempos| - 1], origin, end);
      EventsSayClock(tempos[|tempos| - 1].bpm, 0, 0);
    }
  }

  lemma {:induction false} MeterItemsSay(meters: seq<Meter>, origin: nat, end: Option<nat>)
    requires MeterItems(meters, origin, end).Some?
    ensures AllSayClock(MeterItems(meters, origin, end).value)
  {
    hide MeterEvent, SaysClock;
    if meters != [] {
      var last := meters[|meters| - 1];
      MeterItemsSay(meters[..|meters| - 1], origin, end);
      EventsSayClock(1.0, last.numerator, last.denominator);
    }
  }

  lemma {:induction false} ClockItemsSay(timebase: Timebase, origin: nat, end: Option<nat>)
    requires ValidTimebase(timebase) && ClockItems(timebase, origin, end).Some?
    ensures AllSayClock(ClockItems(timebase, origin, end).value)
  {
    hide TempoEvent, MeterEvent, SaysClock, TempoItems, MeterItems, TempoAt, MeterAt;
    TempoItemsSay(timebase.tempos, origin, end);
    MeterItemsSay(timebase.meters, origin, end);
    var tempo, meter := TempoAt(timebase.tempos, origin).value, MeterAt(timebase.meters, origin).value;
    EventsSayClock(tempo.bpm, meter.numerator, meter.denominator);
  }

  // The ticks of the changes after the origin and before the end, counted from the origin.
  function TicksInRange(ticks: seq<nat>, origin: nat, end: Option<nat>): seq<nat> {
    if ticks == [] then []
    else
      var tick := ticks[|ticks| - 1];
      TicksInRange(ticks[..|ticks| - 1], origin, end)
      + if origin < tick && (end.None? || tick < end.value) then [tick - origin] else []
  }

  const TickOf: Clock.ClockChange -> nat := (change: Clock.ClockChange) => change.tick
  const ItemTick: Item -> nat := (item: Item) => item.tick
  const MomentTick: Moment -> nat := (moment: Moment) => moment.tick

  lemma {:induction false} ChangeTicks(changes: seq<Clock.ClockChange>, origin: nat, end: Option<nat>)
    requires Clock.ChangeItems(changes, origin, end).Some?
    ensures Map(Clock.ChangeItems(changes, origin, end).value, ItemTick) ==
            TicksInRange(Map(changes, TickOf), origin, end)
  {
    hide Map;
    if changes == [] {
      NoTicks();
    } else {
      var n := |changes| - 1;
      ChangeTicks(changes[..n], origin, end);
      TicksNext(changes, n);
      var before, all := Clock.ChangeItems(changes[..n], origin, end).value,
          Clock.ChangeItems(changes, origin, end).value;
      if all != before {
        MapConcat(before, [all[|before|]], ItemTick);
        OneTick(all[|before|]);
      }
    }
  }

  lemma {:induction false} NoTicks()
    ensures Map([], ItemTick) == [] && Map([], TickOf) == []
  {
  }

  lemma {:induction false} OneTick(item: Item)
    ensures Map([item], ItemTick) == [item.tick]
  {
  }

  lemma {:induction false} TicksNext(changes: seq<Clock.ClockChange>, n: nat)
    requires n + 1 == |changes|
    ensures Map(changes, TickOf)[..n] == Map(changes[..n], TickOf) && Map(changes, TickOf)[n] == changes[n].tick
  {
  }

  function OfKind(kind: byte): Moment -> bool {
    (moment: Moment) => moment.event.Meta? && moment.event.kind == kind
  }

  lemma {:induction false} KindFiltered(items: seq<Item>, kind: byte)
    requires forall item :: item in items ==> |item.data| >= 3 && item.tick <= U64_MAX
    ensures Map(Filter(Map(items, SayingMoment), OfKind(kind)), MomentTick) ==
            Map(Filter(items, Clock.Of(kind, U64_MAX)), ItemTick)
    decreases |items|
  {
    if items != [] {
      KindFiltered(items[1..], kind);
      assert items[0] in items && forall item :: item in items[1..] ==> item in items;
      assert Map(items, SayingMoment)[1..] == Map(items[1..], SayingMoment);
      assert Map(items, SayingMoment)[0] == MomentOf(items[0]);
    }
  }

  lemma {:induction false} AllOfKind(items: seq<Item>, kind: byte)
    requires forall i :: 0 <= i < |items| ==>
      items[i].tick <= U64_MAX && Clock.OfKind(Some(items[i].data), kind)
    ensures Filter(items, Clock.Of(kind, U64_MAX)) == items
  {
    if items != [] {
      AllOfKind(items[1..], kind);
    }
  }

  // The events of one of the two lines stand at the origin and at the changes in range.
  lemma {:induction false} LineTicks(items: seq<Item>, changes: seq<Clock.ClockChange>, first: Item, kind: byte,
                                     origin: nat, end: Option<nat>)
    requires Clock.Timeline(changes, kind) && Clock.ChangeItems(changes, origin, end).Some?
    requires first.tick == 0 && first.order == 0 && Clock.IsMeta(first.data) && first.data[1] == kind
    requires Filter(items, Clock.Of(kind, U64_MAX)) ==
             Filter([first] + Clock.ChangeItems(changes, origin, end).value, Clock.Of(kind, U64_MAX))
    ensures Map(Filter(Sort(items, ByMoment), Clock.Of(kind, U64_MAX)), ItemTick) ==
            [0] + TicksInRange(Map(changes, TickOf), origin, end)
  {
    hide Filter, Sort, Clock.Timeline, Clock.ChangeItems, Clock.IsMeta, Map;
    var line := Clock.ChangeItems(changes, origin, end).value;
    MusicalClock.SortedLine(items, changes, first, kind, origin, end, U64_MAX);
    Clock.ItemsInRange(changes, origin, end, kind);
    AllOfKind(line, kind);
    ChangeTicks(changes, origin, end);
    MapConcat([first], line, ItemTick);
    assert Map([first], ItemTick) == [0];
  }

  const TempoTick: Tempo -> nat := (tempo: Tempo) => tempo.tick
  const MeterTick: Meter -> nat := (meter: Meter) => meter.tick

  lemma {:induction false} LinesHaveTicks(timebase: Timebase)
    ensures Map(MusicalClock.TempoLine(timebase), TickOf) == Map(timebase.tempos, TempoTick)
    ensures Map(MusicalClock.MeterLine(timebase), TickOf) == Map(timebase.meters, MeterTick)
  {
  }

  lemma {:induction false} SortedClockTicks(timebase: Timebase, origin: nat, end: Option<nat>)
    requires ValidTimebase(timebase) && ClockItems(timebase, origin, end).Some?
    ensures var sorted := Sort(ClockItems(timebase, origin, end).value, ByMoment);
      && Map(Filter(sorted, Clock.Of(0x51, U64_MAX)), ItemTick) ==
         [0] + TicksInRange(Map(timebase.tempos, TempoTick), origin, end)
      && Map(Filter(sorted, Clock.Of(0x58, U64_MAX)), ItemTick) ==
         [0] + TicksInRange(Map(timebase.meters, MeterTick), origin, end)
  {
    hide Filter, Sort, Map, ClockItems, Clock.Timeline, Clock.ChangeItems, Clock.ChangeAt, Clock.IsMeta,
        MusicalClock.TempoLine, MusicalClock.MeterLine;
    var tempos, meters := MusicalClock.TempoLine(timebase), MusicalClock.MeterLine(timebase);
    var items := ClockItems(timebase, origin, end).value;
    MusicalClock.TempoTimeline(timebase);
    MusicalClock.MeterTimeline(timebase);
    MusicalClock.ClockItemsAreChanges(timebase, origin, end);
    MusicalClock.KindsApart(items, tempos, meters, origin, end, U64_MAX);
    MusicalClock.ChangeKind(tempos, 0x51, origin);
    MusicalClock.ChangeKind(meters, 0x58, origin);
    LineTicks(items, tempos, items[0], 0x51, origin, end);
    LineTicks(items, meters, items[1], 0x58, origin, end);
    LinesHaveTicks(timebase);
  }

  lemma {:induction false} SortedSayClock(items: seq<Item>)
    requires AllSayClock(items) && Clock.Clocking(Sort(items, ByMoment), 0)
    ensures var sorted := Sort(items, ByMoment);
      && (forall item :: item in sorted ==> |item.data| >= 3 && item.tick <= U64_MAX)
      && (forall moment :: moment in Map(sorted, SayingMoment) ==> IsClock(moment.event))
      && (forall i, j :: 0 <= i < j < |sorted| ==> sorted[i].tick <= sorted[j].tick)
  {
    hide Sort, IsClock;
    var sorted := Sort(items, ByMoment);
    SameElements(items, ByMoment);
    forall i | 0 <= i < |sorted| ensures |sorted[i].data| >= 3 && IsClock(Map(sorted, SayingMoment)[i].event) {
      assert sorted[i] in sorted;
    }
  }

  predicate Tells(item: Item, kind: byte) {
    |item.data| >= 3 && item.data[1] == kind
  }

  // At one moment a tempo comes before a meter, and nothing else is there.
  const TempoFirst: (Item, Item) -> bool :=
    (a: Item, b: Item) => ByMoment(a) == ByMoment(b) ==> Tells(a, 0x51) && Tells(b, 0x58)

  ghost predicate RisesTo(items: seq<Item>, kind: byte, limit: int) {
    && (forall i :: 0 <= i < |items| ==> 0 < items[i].tick <= limit && items[i].order == 0 && Tells(items[i], kind))
    && forall i, j :: 0 <= i < j < |items| ==> items[i].tick < items[j].tick
  }

  lemma {:induction false} TempoItemsRise(tempos: seq<Tempo>, origin: nat, end: Option<nat>)
    requires Positive(tempos) && TempoItems(tempos, origin, end).Some?
    requires forall i :: 0 <= i < |tempos| - 1 ==> tempos[i].tick < tempos[i + 1].tick
    ensures RisesTo(TempoItems(tempos, origin, end).value, 0x51,
                    if tempos == [] then 0 else tempos[|tempos| - 1].tick - origin)
  {
    hide TempoEvent, SaysClock;
    if tempos != [] {
      var n := |tempos| - 1;
      TempoItemsRise(tempos[..n], origin, end);
      EventsSayClock(tempos[n].bpm, 0, 0);
      DataSays(TempoEvent(tempos[n].bpm));
      assert n > 0 ==> tempos[n - 1].tick < tempos[n - 1 + 1].tick;
    }
  }

  lemma {:induction false} DataSays(data: Option<bytes>)
    ensures data.Some? && SaysClock(data.value) ==> |data.value| >= 3
  {
  }

  lemma {:induction false} MeterItemsRise(meters: seq<Meter>, origin: nat, end: Option<nat>)
    requires MeterItems(meters, origin, end).Some?
    requires forall i :: 0 <= i < |meters| - 1 ==> meters[i].tick < meters[i + 1].tick
    ensures RisesTo(MeterItems(meters, origin, end).value, 0x58,
                    if meters == [] then 0 else meters[|meters| - 1].tick - origin)
  {
    hide MeterEvent, SaysClock;
    if meters != [] {
      var n := |meters| - 1;
      MeterItemsRise(meters[..n], origin, end);
      EventsSayClock(1.0, meters[n].numerator, meters[n].denominator);
      DataSays(MeterEvent(meters[n].numerator, meters[n].denominator));
      assert n > 0 ==> meters[n - 1].tick < meters[n - 1 + 1].tick;
    }
  }

  lemma {:induction false} LinesPaired(first: Item, second: Item, tempos: seq<Item>, meters: seq<Item>, m: int, n: int)
    requires first.tick == 0 == second.tick && first.order == 0 == second.order
    requires Tells(first, 0x51) && Tells(second, 0x58) && RisesTo(tempos, 0x51, m) && RisesTo(meters, 0x58, n)
    ensures Pairwise([first, second] + tempos + meters, TempoFirst)
  {
    hide Tells;
  }

  lemma {:induction false} TemposFirst(timebase: Timebase, origin: nat, end: Option<nat>)
    requires ValidTimebase(timebase) && ClockItems(timebase, origin, end).Some?
    ensures Pairwise(Sort(ClockItems(timebase, origin, end).value, ByMoment), TempoFirst)
    ensures forall i :: 0 <= i < |ClockItems(timebase, origin, end).value| ==>
              ClockItems(timebase, origin, end).value[i].order == 0
  {
    hide TempoEvent, MeterEvent, SaysClock, TempoItems, MeterItems, TempoAt, MeterAt, Sort;
    var items := ClockItems(timebase, origin, end).value;
    var tempo, meter := TempoAt(timebase.tempos, origin).value, MeterAt(timebase.meters, origin).value;
    EventsSayClock(tempo.bpm, meter.numerator, meter.denominator);
    DataSays(TempoEvent(tempo.bpm));
    DataSays(MeterEvent(meter.numerator, meter.denominator));
    TempoItemsRise(timebase.tempos, origin, end);
    MeterItemsRise(timebase.meters, origin, end);
    LinesPaired(items[0], items[1], TempoItems(timebase.tempos, origin, end).value,
                MeterItems(timebase.meters, origin, end).value, timebase.tempos[|timebase.tempos| - 1].tick - origin,
                timebase.meters[|timebase.meters| - 1].tick - origin);
    SortKeepsPairs(items, ByMoment, TempoFirst);
  }

  lemma {:induction false} OrdersZero(items: seq<Item>)
    requires forall i :: 0 <= i < |items| ==> items[i].order == 0
    ensures forall i :: 0 <= i < |items| ==> Sort(items, ByMoment)[i].order == 0
  {
    SameElements(items, ByMoment);
    assert forall item :: item in items ==> item.order == 0;
    assert forall i :: 0 <= i < |items| ==> Sort(items, ByMoment)[i] in Sort(items, ByMoment);
  }

  // Two events at one tick are a tempo and then a meter.
  ghost predicate TempoBeforeMeter(moments: seq<Moment>) {
    forall i, j :: 0 <= i < j < |moments| && moments[i].tick == moments[j].tick ==>
      && moments[i].event.Meta? && moments[i].event.kind == 0x51
      && moments[j].event.Meta? && moments[j].event.kind == 0x58
  }

  lemma {:induction false} MomentsTemposFirst(sorted: seq<Item>)
    requires Pairwise(sorted, TempoFirst) && forall i :: 0 <= i < |sorted| ==> sorted[i].order == 0
    ensures TempoBeforeMeter(Map(sorted, SayingMoment))
  {
    var body := Map(sorted, SayingMoment);
    forall i, j | 0 <= i < j < |body| && body[i].tick == body[j].tick
      ensures body[i].event.Meta? && body[i].event.kind == 0x51 && body[j].event.Meta? && body[j].event.kind == 0x58
    {
      assert TempoFirst(sorted[i], sorted[j]);
    }
  }

  lemma {:induction false} BodyTemposFirst(timebase: Timebase, origin: nat, end: Option<nat>)
    requires ValidTimebase(timebase) && ClockItems(timebase, origin, end).Some?
    ensures TempoBeforeMeter(Map(Sort(ClockItems(timebase, origin, end).value, ByMoment), SayingMoment))
  {
    hide Sort, Map, ClockItems, TempoBeforeMeter;
    var items := ClockItems(timebase, origin, end).value;
    TemposFirst(timebase, origin, end);
    OrdersZero(items);
    MomentsTemposFirst(Sort(items, ByMoment));
  }

  // What stands in the first track before its end.
  ghost predicate IsClockBody(body: seq<Moment>, timebase: Timebase, origin: nat, end: Option<nat>) {
    && (forall moment :: moment in body ==> IsClock(moment.event))
    && (forall i, j :: 0 <= i < j < |body| ==> body[i].tick <= body[j].tick)
    && TempoBeforeMeter(body)
    && Map(Filter(body, OfKind(0x51)), MomentTick) ==
       [0] + TicksInRange(Map(timebase.tempos, TempoTick), origin, end)
    && Map(Filter(body, OfKind(0x58)), MomentTick) ==
       [0] + TicksInRange(Map(timebase.meters, MeterTick), origin, end)
  }

  lemma {:induction false} SortedIsBody(timebase: Timebase, origin: nat, end: Option<nat>)
    requires ValidTimebase(timebase) && ClockItems(timebase, origin, end).Some?
    requires Clock.Clocking(Sort(ClockItems(timebase, origin, end).value, ByMoment), 0)
    ensures IsClockBody(Map(Sort(ClockItems(timebase, origin, end).value, ByMoment), SayingMoment),
                        timebase, origin, end)
  {
    hide Filter, Sort, ClockItems, Clock.Clocking, IsClock, AllSayClock, TempoBeforeMeter;
    var sorted := Sort(ClockItems(timebase, origin, end).value, ByMoment);
    ClockItemsSay(timebase, origin, end);
    SortedSayClock(ClockItems(timebase, origin, end).value);
    KindFiltered(sorted, 0x51);
    KindFiltered(sorted, 0x58);
    SortedClockTicks(timebase, origin, end);
    BodyTemposFirst(timebase, origin, end);
  }

  /** The first track of an export, event by event: tempos and meters in the order of their ticks and nothing else, at
      one tick the tempo first, one of each at the origin and one for every change inside the range, each meter with 24
      clocks a click and eight 32nds a quarter, and one end-of-track event at the tick of the last. */
  lemma {:induction false} ExportedClock(timebase: Timebase, clips: seq<Placement>, origin: nat, end: Option<nat>)
      returns (clock: bytes, body: seq<Moment>)
    requires Encode(timebase, clips, origin, end).Some?
    ensures var datas := SmfFiles.FileDatas(Encode(timebase, clips, origin, end).value);
      datas.Some? && |datas.value| == 2 && datas.value[0] == clock
    ensures Decode(clock, 0).Some?
    ensures Timeline(Decode(clock, 0).value, 0) ==
            body + [Moment(if body == [] then 0 else body[|body| - 1].tick, Meta(0x2f, []))]
    ensures IsClockBody(body, timebase, origin, end)
  {
    hide Sort, Decode, Deltas, ClockItems, Clock.Clocking, Clock.ClockSteps, SmfFiles.FileDatas, Spell.FileBytes,
        Timeline, IsClockBody;
    var performance;
    clock, performance := ExportIsFormatOne(timebase, clips, origin, end);
    EncodePlays(timebase, clips, origin, end);
    var sorted := Sort(ClockItems(timebase, origin, end).value, ByMoment);
    MusicalClock.ClockIsMeta(timebase, origin, end);
    Clock.DecodeClock(sorted, 0, 0);
    ClockTimeline(sorted, 0);
    body := Map(sorted, SayingMoment);
    SortedIsBody(timebase, origin, end);
  }
}
