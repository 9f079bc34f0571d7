/** The clock track of an export: meta events only, and what a reader finds in force at a tick. */
module SmfClockTrack {
  import opened Wrappers
  import opened Bytes
  import opened StableSort
  import opened SmfFormat
  import opened SmfEncoder
  import opened SmfDecoding
  import VariableLength

  // A short meta event that is no lyric.
  predicate IsMeta(data: bytes) {
    |data| >= 3 && data[0] == 0xff && data[1] != LYRIC && data[2] as nat == |data| - 3 && |data| - 3 < 128
  }

  ghost predicate Clocking(items: seq<Item>, previous: nat) {
    && (forall i :: 0 <= i < |items| ==> previous <= items[i].tick <= U64_MAX && IsMeta(items[i].data))
    && forall i, j :: 0 <= i < j < |items| ==> items[i].tick <= items[j].tick
  }

  function ClockStep(item: Item, previous: nat): Step
    requires IsMeta(item.data) && previous <= item.tick
  {
    Step(item.tick - previous, Meta(item.data[1], item.data[3..]))
  }

  ghost function ClockSteps(items: seq<Item>, previous: nat): seq<Step>
    requires Clocking(items, previous)
  {
    if items == [] then [END_OF_TRACK]
    else [ClockStep(items[0], previous)] + ClockSteps(items[1..], items[0].tick)
  }

  lemma {:induction false} DecodeClockItem(item: Item, previous: nat, rest: bytes, running: nat)
    requires IsMeta(item.data) && previous <= item.tick && item.tick - previous < VariableLength.VLQ_LIMIT
    ensures Yields(VariableLength.Encoded(item.tick - previous) + item.data + rest, running,
                   [ClockStep(item, previous)], rest, running)
  {
    hide Decode, DecodeEvent;
    var kind, data := item.data[1], item.data[3..];
    assert VariableLength.Encoded(|data|) == [item.data[2]];
    DecodeMeta(kind, data, rest, running);
    assert [0xff, kind] + VariableLength.Encoded(|data|) + data == item.data;
    DecodeOne(item.tick - previous, item.data + rest, running, Meta(kind, data), rest, running);
    assert VariableLength.Encoded(item.tick - previous) + item.data + rest ==
           VariableLength.Encoded(item.tick - previous) + (item.data + rest);
  }

  lemma {:induction false} DecodeClock(items: seq<Item>, previous: nat, running: nat)
    requires Clocking(items, previous) && Deltas(items, previous).Some?
    ensures Decode(Deltas(items, previous).value, running) == Some(ClockSteps(items, previous))
    decreases |items|
  {
    hide Decode;
    if items == [] {
      DecodeEnd(running);
    } else {
      var rest := Deltas(items[1..], items[0].tick).value;
      DecodeClockItem(items[0], previous, rest, running);
      DecodeClock(items[1..], items[0].tick, running);
      YieldsAll(Deltas(items, previous).value, running, [ClockStep(items[0], previous)], rest, running,
                ClockSteps(items[1..], items[0].tick));
    }
  }

  // The payload of the last event of a kind at or before a tick.
  function InForce(steps: seq<Step>, tick: nat, kind: byte, at: nat, current: Option<bytes>): Option<bytes>
    decreases |steps|
  {
    if steps == [] || tick + steps[0].delta > at then current
    else
      var event := steps[0].event;
      InForce(steps[1..], tick + steps[0].delta, kind, at,
              if event.Meta? && event.kind == kind then Some(event.data) else current)
  }

  function Of(kind: byte, at: nat): Item -> bool {
    (item: Item) => |item.data| >= 3 && item.data[1] == kind && item.tick <= at
  }

  function LastPayload(items: seq<Item>, otherwise: Option<bytes>): Option<bytes> {
    if items == [] || |items[|items| - 1].data| < 3 then otherwise else Some(items[|items| - 1].data[3..])
  }

  lemma {:induction false} ClockingHead(items: seq<Item>, previous: nat)
    requires Clocking(items, previous) && items != []
    ensures |items[0].data| >= 3 && IsMeta(items[0].data) && previous <= items[0].tick
    ensures Clocking(items[1..], items[0].tick)
    ensures forall item :: item in items ==> items[0].tick <= item.tick
  {
  }

  lemma {:induction false} InForceNext(steps: seq<Step>, tick: nat, kind: byte, at: nat, current: Option<bytes>,
                                       item: Item)
    requires steps != [] && IsMeta(item.data) && tick <= item.tick && steps[0] == ClockStep(item, tick)
    ensures InForce(steps, tick, kind, at, current) ==
            if item.tick > at then current
            else InForce(steps[1..], item.tick, kind, at, if item.data[1] == kind then Some(item.data[3..])
                           else current)
  {
  }

  /** A reader finds in force the last item of the kind at or before the tick. */
  lemma {:induction false} ReadItems(items: seq<Item>, previous: nat, kind: byte, at: nat, current: Option<bytes>)
    requires Clocking(items, previous) && kind != 0x2f
    ensures InForce(ClockSteps(items, previous), previous, kind, at, current) ==
            LastPayload(Filter(items, Of(kind, at)), current)
    decreases |items|
  {
    hide Filter, InForce, Clocking, IsMeta;
    var of := Of(kind, at);
    FilterMembers(items, of);
    var found := Filter(items, of);
    assert found != [] ==> found[0] in items;
    if items == [] {
      NothingRead(previous, kind, at, current);
    } else {
      var first, head, rest := items[0].tick, items[0].data, items[1..];
      ClockingHead(items, previous);
      var next := if head[1] == kind then Some(head[3..]) else current;
      InForceNext(ClockSteps(items, previous), previous, kind, at, current, items[0]);
      assert ClockSteps(items, previous)[1..] == ClockSteps(rest, first);
      if first <= at {
        ReadItems(rest, first, kind, at, next);
        assert items == [items[0]] + rest;
        FilterCons(items[0], rest, of);
        FilteredData(rest, kind, at);
      }
    }
  }

  lemma {:induction false} NothingRead(tick: nat, kind: byte, at: nat, current: Option<bytes>)
    requires kind != 0x2f
    ensures InForce([END_OF_TRACK], tick, kind, at, current) == current
  {
    assert [END_OF_TRACK][1..] == [];
  }

  lemma {:induction false} FilteredData(items: seq<Item>, kind: byte, at: nat)
    ensures forall i :: 0 <= i < |Filter(items, Of(kind, at))| ==> |Filter(items, Of(kind, at))[i].data| >= 3
  {
    var found := Filter(items, Of(kind, at));
    FilterMembers(items, Of(kind, at));
    forall i | 0 <= i < |found| ensures |found[i].data| >= 3 {
      assert found[i] in found;
    }
  }

  // A change of the clock at a tick, with its event when SMF can represent it.
  datatype ClockChange = ClockChange(tick: nat, event: Option<bytes>)

  const TempoChange: Tempo -> ClockChange := (t: Tempo) =>
      ClockChange(t.tick, if t.bpm > 0.0 then TempoEvent(t.bpm) else None)
  const MeterChange: Meter -> ClockChange := (m: Meter) => ClockChange(m.tick, MeterEvent(m.numerator, m.denominator))

  function ChangeAt(changes: seq<ClockChange>, tick: nat): Option<ClockChange> {
    if changes == [] then None
    else if changes[|changes| - 1].tick <= tick then Some(changes[|changes| - 1])
    else ChangeAt(changes[..|changes| - 1], tick)
  }

  function ChangeItems(changes: seq<ClockChange>, origin: nat, end: Option<nat>): Option<seq<Item>> {
    if changes == [] then Some([])
    else
      var n := |changes| - 1;
      var before :- ChangeItems(changes[..n], origin, end);
      if !Within(changes[n].tick, origin, end) then Some(before)
      else
        var data :- changes[n].event;
        Some(before + [Item(changes[n].tick - origin, 0, data)])
  }

  lemma {:induction false} TempoChanges(tempos: seq<Tempo>)
    requires tempos != []
    ensures var n := |tempos| - 1;
      Map(tempos, TempoChange)[..n] == Map(tempos[..n], TempoChange)
          && Map(tempos, TempoChange)[n] == TempoChange(tempos[n])
  {
  }

  lemma {:induction false} MeterChanges(meters: seq<Meter>)
    requires meters != []
    ensures var n := |meters| - 1;
      Map(meters, MeterChange)[..n] == Map(meters[..n], MeterChange)
          && Map(meters, MeterChange)[n] == MeterChange(meters[n])
  {
  }

  lemma {:induction false} TemposAreChanges(tempos: seq<Tempo>, origin: nat, end: Option<nat>, tick: nat)
    requires Positive(tempos)
    ensures TempoItems(tempos, origin, end) == ChangeItems(Map(tempos, TempoChange), origin, end)
    ensures ChangeAt(Map(tempos, TempoChange), tick) ==
            if TempoAt(tempos, tick).None? then None else Some(TempoChange(TempoAt(tempos, tick).value))
  {
    hide TempoEvent, Map;
    if tempos != [] {
      TempoChanges(tempos);
      TemposAreChanges(tempos[..|tempos| - 1], origin, end, tick);
    }
  }

  lemma {:induction false} MetersAreChanges(meters: seq<Meter>, origin: nat, end: Option<nat>, tick: nat)
    ensures MeterItems(meters, origin, end) == ChangeItems(Map(meters, MeterChange), origin, end)
    ensures ChangeAt(Map(meters, MeterChange), tick) ==
            if MeterAt(meters, tick).None? then None else Some(MeterChange(MeterAt(meters, tick).value))
  {
    hide MeterEvent, Map;
    if meters != [] {
      MeterChanges(meters);
      MetersAreChanges(meters[..|meters| - 1], origin, end, tick);
    }
  }

  // Changes in the order of their ticks, whose events are all of one kind.
  ghost predicate Timeline(changes: seq<ClockChange>, kind: byte) {
    && (forall i :: 0 <= i < |changes| ==> changes[i].tick <= U64_MAX && OfKind(changes[i].event, kind))
    && forall i, j :: 0 <= i < j < |changes| ==> changes[i].tick < changes[j].tick
  }

  predicate OfKind(event: Option<bytes>, kind: byte) {
    event.Some? ==> IsMeta(event.value) && event.value[1] == kind
  }

  lemma {:induction false} ItemsInRange(changes: seq<ClockChange>, origin: nat, end: Option<nat>, kind: byte)
    requires Timeline(changes, kind) && ChangeItems(changes, origin, end).Some?
    ensures var items := ChangeItems(changes, origin, end).value;
      && (forall i :: 0 <= i < |items| ==>
            0 < items[i].tick <= U64_MAX && items[i].order == 0 && OfKind(Some(items[i].data), kind))
      && (forall i, j :: 0 <= i < j < |items| ==> items[i].tick < items[j].tick)
      && (items != [] ==> changes != [] && items[|items| - 1].tick + origin <= changes[|changes| - 1].tick)
  {
    if changes != [] {
      ItemsInRange(changes[..|changes| - 1], origin, end, kind);
    }
  }

  lemma {:induction false} NoneInRange(changes: seq<ClockChange>, origin: nat, end: Option<nat>)
    requires forall i :: 0 <= i < |changes| ==> changes[i].tick <= origin
    ensures ChangeItems(changes, origin, end) == Some([])
  {
    if changes != [] {
      NoneInRange(changes[..|changes| - 1], origin, end);
    }
  }

  lemma {:induction false} FilterEmpty(p: Item -> bool)
    ensures Filter([], p) == []
  {
  }

  lemma {:induction false} FilterOne(item: Item, p: Item -> bool)
    ensures Filter([item], p) == if p(item) then [item] else []
  {
    FilterCons(item, [], p);
    assert [item] + [] == [item];
  }

  lemma {:induction false} MetaLength(data: bytes)
    requires IsMeta(data)
    ensures |data| >= 3
  {
  }

  /** Cutting a timeline keeps what is in force: the last change written at or before a tick of the range is the
      change in force there, and when none is written it is the one in force at the origin. */
  lemma {:induction false} CutKeepsChanges(changes: seq<ClockChange>, origin: nat, end: Option<nat>, kind: byte, t: nat)
    requires Timeline(changes, kind) && ChangeItems(changes, origin, end).Some?
    requires origin <= t && (end.Some? ==> t < end.value)
    ensures var found := Filter(ChangeItems(changes, origin, end).value, Of(kind, t - origin));
      if found == [] then ChangeAt(changes, t) == ChangeAt(changes, origin)
      else ChangeAt(changes, t).Some? && ChangeAt(changes, t).value.event == Some(found[|found| - 1].data)
  {
    hide Filter, IsMeta;
    if changes == [] {
      FilterEmpty(Of(kind, t - origin));
    } else {
      var n := |changes| - 1;
      var before := ChangeItems(changes[..n], origin, end).value;
      CutKeepsChanges(changes[..n], origin, end, kind, t);
      if changes[n].tick <= origin {
        NoneInRange(changes[..n], origin, end);
        FilterEmpty(Of(kind, t - origin));
      } else if Within(changes[n].tick, origin, end) {
        var item := Item(changes[n].tick - origin, 0, changes[n].event.value);
        FilterConcat(before, [item], Of(kind, t - origin));
        FilterOne(item, Of(kind, t - origin));
        MetaLength(item.data);
      }
    }
  }
}
