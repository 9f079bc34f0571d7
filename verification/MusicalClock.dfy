/** The tempo and meter written in an exported file are those of the project over the exported range. */
module MusicalClock {
  import opened Wrappers
  import opened Bytes
  import opened StableSort
  import opened SmfFormat
  import opened SmfEncoder
  import opened SmfClockTrack
  import SmfChunks

  const TEMPO: byte := 0x51
  const METER: byte := 0x58

  // What the first track of a file has in force at a tick.
  ghost function ReadClock(input: bytes, kind: byte, at: nat): Option<bytes> {
    var header :- ParseHeader(input);
    var chunk :- Chunk(input[8 + header.length..]);
    var steps :- Decode(chunk.0, 0);
    InForce(steps, 0, kind, at, None)
  }

  // Microseconds per quarter note.
  function TempoOf(payload: bytes): Option<nat> {
    if |payload| != 3 then None
    else Some(payload[0] as nat * 0x1_0000 + payload[1] as nat * 0x100 + payload[2] as nat)
  }

  function Pow2(n: nat): nat {
    if n == 0 then 1 else 2 * Pow2(n - 1)
  }

  // Numerator and denominator.
  function MeterOf(payload: bytes): Option<(nat, nat)> {
    if |payload| != 4 then None else Some((payload[0] as nat, Pow2(payload[1] as nat)))
  }

  // MIDI clocks in a metronome click, and notated 32nd notes in a quarter.
  function Clicks(payload: bytes): Option<(nat, nat)> {
    if |payload| != 4 then None else Some((payload[2] as nat, payload[3] as nat))
  }

  /** The tempo written is the nearest whole number of microseconds in a quarter note, halves rounded up. */
  lemma {:induction false} MicrosAreNearest(bpm: real)
    requires bpm > 0.0
    ensures Micros(bpm) as real - 0.5 <= 60000000.0 / bpm < Micros(bpm) as real + 0.5
  {
  }

  lemma {:induction false} TempoReadsBack(bpm: real)
    requires bpm > 0.0 && TempoEvent(bpm).Some?
    ensures IsMeta(TempoEvent(bpm).value) && TempoEvent(bpm).value[1] == TEMPO
    ensures TempoOf(TempoEvent(bpm).value[3..]) == Some(Micros(bpm))
  {
    var micros := Micros(bpm);
    assert micros == micros / 0x1_0000 * 0x1_0000 + micros / 0x100 % 0x100 * 0x100 + micros % 0x100;
  }

  lemma {:induction false} MeterReadsBack(numerator: byte, denominator: byte)
    requires MeterEvent(numerator, denominator).Some?
    ensures IsMeta(MeterEvent(numerator, denominator).value) && MeterEvent(numerator, denominator).value[1] == METER
    ensures MeterOf(MeterEvent(numerator, denominator).value[3..]) == Some((numerator as nat, denominator as nat))
    ensures Clicks(MeterEvent(numerator, denominator).value[3..]) == Some((24, 8))
  {
    PowersOfTwo();
  }

  lemma {:induction false} PowersOfTwo()
    ensures Pow2(0) == 1 && Pow2(1) == 2 && Pow2(2) == 4 && Pow2(3) == 8
    ensures Pow2(4) == 16 && Pow2(5) == 32 && Pow2(6) == 64 && Pow2(7) == 128
  {
    assert Pow2(3) == 2 * Pow2(2) && Pow2(4) == 2 * Pow2(3) && Pow2(5) == 2 * Pow2(4);
    assert Pow2(6) == 2 * Pow2(5) && Pow2(7) == 2 * Pow2(6);
  }

  ghost function TempoLine(timebase: Timebase): seq<ClockChange> {
    Map(timebase.tempos, TempoChange)
  }

  ghost function MeterLine(timebase: Timebase): seq<ClockChange> {
    Map(timebase.meters, MeterChange)
  }

  lemma {:induction false} Rising(ticks: seq<nat>, i: nat, j: nat)
    requires forall k :: 0 <= k < |ticks| - 1 ==> ticks[k] < ticks[k + 1]
    requires i < j < |ticks|
    ensures ticks[i] < ticks[j]
    decreases j
  {
    if i < j - 1 {
      Rising(ticks, i, j - 1);
    }
  }

  lemma {:induction false} TempoTimeline(timebase: Timebase)
    requires ValidTimebase(timebase)
    ensures Timeline(TempoLine(timebase), TEMPO)
  {
    var line := TempoLine(timebase);
    var ticks := seq(|line|, i requires 0 <= i < |line| => line[i].tick);
    forall i | 0 <= i < |line| ensures line[i].tick <= U64_MAX && OfKind(line[i].event, TEMPO) {
      if line[i].event.Some? {
        TempoReadsBack(timebase.tempos[i].bpm);
      }
    }
    forall i, j | 0 <= i < j < |line| ensures line[i].tick < line[j].tick {
      Rising(ticks, i, j);
    }
  }

  lemma {:induction false} MeterTimeline(timebase: Timebase)
    requires ValidTimebase(timebase)
    ensures Timeline(MeterLine(timebase), METER)
  {
    var line := MeterLine(timebase);
    var ticks := seq(|line|, i requires 0 <= i < |line| => line[i].tick);
    forall i | 0 <= i < |line| ensures OfKind(line[i].event, METER) {
      if line[i].event.Some? {
        MeterReadsBack(timebase.meters[i].numerator, timebase.meters[i].denominator);
      }
    }
    forall i, j | 0 <= i < j < |line| ensures line[i].tick < line[j].tick {
      Rising(ticks, i, j);
    }
  }

  ghost predicate ClockOf(items: seq<Item>, tempos: seq<ClockChange>, meters: seq<ClockChange>, origin: nat,
                          end: Option<nat>) {
    && ChangeAt(tempos, origin).Some? && ChangeAt(tempos, origin).value.event.Some?
    && ChangeAt(meters, origin).Some? && ChangeAt(meters, origin).value.event.Some?
    && ChangeItems(tempos, origin, end).Some? && ChangeItems(meters, origin, end).Some?
    && items == [Item(0, 0, ChangeAt(tempos, origin).value.event.value),
                 Item(0, 0, ChangeAt(meters, origin).value.event.value)]
                + ChangeItems(tempos, origin, end).value + ChangeItems(meters, origin, end).value
  }

  lemma {:induction false} ClockItemsAreChanges(timebase: Timebase, origin: nat, end: Option<nat>)
    requires ValidTimebase(timebase)
    ensures ClockItems(timebase, origin, end).Some? ==>
      ClockOf(ClockItems(timebase, origin, end).value, TempoLine(timebase), MeterLine(timebase), origin, end)
  {
    TemposAreChanges(timebase.tempos, origin, end, origin);
    MetersAreChanges(timebase.meters, origin, end, origin);
  }

  lemma {:induction false} ChangeIn(changes: seq<ClockChange>, tick: nat)
    requires ChangeAt(changes, tick).Some?
    ensures ChangeAt(changes, tick).value in changes
  {
    if changes[|changes| - 1].tick > tick {
      ChangeIn(changes[..|changes| - 1], tick);
    }
  }

  lemma {:induction false} ChangeKind(changes: seq<ClockChange>, kind: byte, tick: nat)
    requires Timeline(changes, kind) && ChangeAt(changes, tick).Some?
    ensures OfKind(ChangeAt(changes, tick).value.event, kind)
  {
    ChangeIn(changes, tick);
  }

  // Every item of the clock is a meta event at a tick in range.
  lemma {:induction false} ClockItemsAreMeta(items: seq<Item>, tempos: seq<ClockChange>, meters: seq<ClockChange>,
                                             origin: nat, end: Option<nat>)
    requires ClockOf(items, tempos, meters, origin, end) && Timeline(tempos, TEMPO) && Timeline(meters, METER)
    ensures forall i :: 0 <= i < |items| ==> items[i].tick <= U64_MAX && items[i].order == 0 && IsMeta(items[i].data)
  {
    ItemsInRange(tempos, origin, end, TEMPO);
    ItemsInRange(meters, origin, end, METER);
    ChangeKind(tempos, TEMPO, origin);
    ChangeKind(meters, METER, origin);
  }

  lemma {:induction false} SortedClock(items: seq<Item>)
    requires forall i :: 0 <= i < |items| ==> items[i].tick <= U64_MAX && items[i].order == 0 && IsMeta(items[i].data)
    ensures Clocking(Sort(items, ByMoment), 0)
  {
    hide Sort, IsMeta;
    var sorted := Sort(items, ByMoment);
    SortIsSorted(items, ByMoment);
    SameElements(items, ByMoment);
    forall i | 0 <= i < |sorted| ensures sorted[i].tick <= U64_MAX && IsMeta(sorted[i].data) {
      assert sorted[i] in sorted;
    }
    forall i, j | 0 <= i < j < |sorted| ensures sorted[i].tick <= sorted[j].tick {
      assert ByMoment(sorted[i]) <= ByMoment(sorted[j]);
    }
  }

  lemma {:induction false} FilterNone(items: seq<Item>, kind: byte, at: nat)
    requires forall i :: 0 <= i < |items| ==> |items[i].data| >= 3 && items[i].data[1] != kind
    ensures Filter(items, Of(kind, at)) == []
  {
    if items != [] {
      FilterNone(items[1..], kind, at);
    }
  }

  // One of the two lines, with its item at the origin in front.
  lemma {:induction false} LineOrdered(first: Item, line: seq<Item>, kind: byte, at: nat)
    requires first.tick == 0 && first.order == 0 && IsMeta(first.data) && first.data[1] == kind
    requires forall i :: 0 <= i < |line| ==> line[i].order == 0
    requires forall i, j :: 0 <= i < j < |line| ==> line[i].tick < line[j].tick
    ensures Filter([first] + line, Of(kind, at)) == [first] + Filter(line, Of(kind, at))
    ensures Sort([first] + line, ByMoment) == [first] + line
  {
    hide Sort, Filter;
    var all := [first] + line;
    FilterCons(first, line, Of(kind, at));
    forall i, j | 0 <= i < j < |all| ensures ByMoment(all[i]) <= ByMoment(all[j]) {
      assert all[j] == line[j - 1] && (i > 0 ==> all[i] == line[i - 1]);
    }
    SortOfSorted(all, ByMoment);
  }

  // The whole clock read at a tick of the range, for one of the two kinds.
  lemma {:induction false} LineInForce(items: seq<Item>, changes: seq<ClockChange>, first: Item, kind: byte,
                                       origin: nat, end: Option<nat>, t: nat)
    requires Timeline(changes, kind) && kind != 0x2f && Clocking(Sort(items, ByMoment), 0)
    requires origin <= t && (end.Some? ==> t < end.value)
    requires ChangeItems(changes, origin, end).Some? && ChangeAt(changes, origin).Some?
    requires ChangeAt(changes, origin).value.event == Some(first.data) && first.tick == 0 && first.order == 0
    requires forall at ::
               Filter(items, Of(kind, at)) == Filter([first] + ChangeItems(changes, origin, end).value, Of(kind, at))
    ensures ChangeAt(changes, t).Some? && ChangeAt(changes, t).value.event.Some?
    ensures IsMeta(ChangeAt(changes, t).value.event.value)
    ensures InForce(ClockSteps(Sort(items, ByMoment), 0), 0, kind, t - origin, None) ==
            Some(ChangeAt(changes, t).value.event.value[3..])
  {
    hide Sort, Filter, ChangeAt, ChangeItems, Timeline, InForce, LastPayload;
    var line, of := ChangeItems(changes, origin, end).value, Of(kind, t - origin);
    ChangeKind(changes, kind, origin);
    SortedLine(items, changes, first, kind, origin, end, t - origin);
    CutKeepsChanges(changes, origin, end, kind, t);
    ReadItems(Sort(items, ByMoment), 0, kind, t - origin, None);
    FilteredData(line, kind, t - origin);
    LastOfLine(first, Filter(line, of));
    ChangeKind(changes, kind, t);
  }

  lemma {:induction false} SortedLine(items: seq<Item>, changes: seq<ClockChange>, first: Item, kind: byte, origin: nat,
                                      end: Option<nat>, at: nat)
    requires Timeline(changes, kind) && ChangeItems(changes, origin, end).Some?
    requires first.tick == 0 && first.order == 0 && IsMeta(first.data) && first.data[1] == kind
    requires Filter(items, Of(kind, at)) == Filter([first] + ChangeItems(changes, origin, end).value, Of(kind, at))
    ensures Filter(Sort(items, ByMoment), Of(kind, at)) ==
            [first] + Filter(ChangeItems(changes, origin, end).value, Of(kind, at))
  {
    hide Sort, Filter, IsMeta, Timeline;
    var line := ChangeItems(changes, origin, end).value;
    ItemsInRange(changes, origin, end, kind);
    LineOrdered(first, line, kind, at);
    FilterSort(items, ByMoment, Of(kind, at));
    FilterSort([first] + line, ByMoment, Of(kind, at));
  }

  lemma {:induction false} LastOfLine(first: Item, found: seq<Item>)
    requires |first.data| >= 3 && forall i :: 0 <= i < |found| ==> |found[i].data| >= 3
    ensures LastPayload([first] + found, None) == Some((if found == [] then first else found[|found| - 1]).data[3..])
  {
  }

  lemma {:induction false} KindsApart(items: seq<Item>, tempos: seq<ClockChange>, meters: seq<ClockChange>, origin: nat,
                                      end: Option<nat>, at: nat)
    requires ClockOf(items, tempos, meters, origin, end) && Timeline(tempos, TEMPO) && Timeline(meters, METER)
    ensures Filter(items, Of(TEMPO, at)) == Filter([items[0]] + ChangeItems(tempos, origin, end).value, Of(TEMPO, at))
    ensures Filter(items, Of(METER, at)) == Filter([items[1]] + ChangeItems(meters, origin, end).value, Of(METER, at))
  {
    hide Filter, IsMeta;
    var ts, ms := ChangeItems(tempos, origin, end).value, ChangeItems(meters, origin, end).value;
    var t, m := items[0], items[1];
    OtherKinds(tempos, origin, end, TEMPO, METER, t, at);
    OtherKinds(meters, origin, end, METER, TEMPO, m, at);
    assert items == [t] + [m] + ts + ms;
    FourParts([t], [m], ts, ms, Of(TEMPO, at));
    FourParts([t], [m], ts, ms, Of(METER, at));
  }

  lemma {:induction false} OtherKinds(changes: seq<ClockChange>, origin: nat, end: Option<nat>, kind: byte, other: byte,
                                      first: Item, at: nat)
    requires Timeline(changes, kind) && kind != other
    requires ChangeItems(changes, origin, end).Some? && ChangeAt(changes, origin).Some?
    requires ChangeAt(changes, origin).value.event == Some(first.data)
    ensures Filter([first], Of(other, at)) == [] && Filter(ChangeItems(changes, origin, end).value, Of(other, at)) == []
  {
    ChangeKind(changes, kind, origin);
    ItemsInRange(changes, origin, end, kind);
    FilterNone([first], other, at);
    FilterNone(ChangeItems(changes, origin, end).value, other, at);
  }

  lemma {:induction false} FourParts(a: seq<Item>, b: seq<Item>, c: seq<Item>, d: seq<Item>, p: Item -> bool)
    ensures Filter(b, p) == [] && Filter(d, p) == [] ==> Filter(a + b + c + d, p) == Filter(a + c, p)
    ensures Filter(a, p) == [] && Filter(c, p) == [] ==> Filter(a + b + c + d, p) == Filter(b + d, p)
  {
    FilterConcat(a + b + c, d, p);
    FilterConcat(a + b, c, p);
    FilterConcat(a, b, p);
    FilterConcat(a, c, p);
    FilterConcat(b, d, p);
  }

  lemma {:induction false} ClockIsMeta(timebase: Timebase, origin: nat, end: Option<nat>)
    requires ValidTimebase(timebase)
    ensures ClockItems(timebase, origin, end).Some? ==>
      Clocking(Sort(ClockItems(timebase, origin, end).value, ByMoment), 0)
  {
    hide Sort, Timeline, IsMeta, Clocking, ClockItems, ClockOf;
    if ClockItems(timebase, origin, end).Some? {
      var items := ClockItems(timebase, origin, end).value;
      TempoTimeline(timebase);
      MeterTimeline(timebase);
      ClockItemsAreChanges(timebase, origin, end);
      ClockItemsAreMeta(items, TempoLine(timebase), MeterLine(timebase), origin, end);
      SortedClock(items);
    }
  }

  lemma {:induction false} ClockInForce(timebase: Timebase, origin: nat, end: Option<nat>, items: seq<Item>, t: nat)
    requires ValidTimebase(timebase) && ClockItems(timebase, origin, end) == Some(items)
    requires origin <= t && (end.Some? ==> t < end.value)
    ensures Clocking(Sort(items, ByMoment), 0)
    ensures TempoAt(timebase.tempos, t).Some? && MeterAt(timebase.meters, t).Some?
    ensures var steps := ClockSteps(Sort(items, ByMoment), 0);
      var tempo, meter := TempoAt(timebase.tempos, t).value, MeterAt(timebase.meters, t).value;
      && TempoEvent(tempo.bpm).Some? && MeterEvent(meter.numerator, meter.denominator).Some?
      && InForce(steps, 0, TEMPO, t - origin, None) == Some(TempoEvent(tempo.bpm).value[3..])
      && InForce(steps, 0, METER, t - origin, None) == Some(MeterEvent(meter.numerator, meter.denominator).value[3..])
  {
    hide Sort, Filter, Timeline, IsMeta, InForce, ChangeItems, ChangeAt, TempoEvent, MeterEvent, TempoAt, MeterAt,
        ClockItems;
    var tempos, meters := TempoLine(timebase), MeterLine(timebase);
    TempoTimeline(timebase);
    MeterTimeline(timebase);
    ClockItemsAreChanges(timebase, origin, end);
    ClockIsMeta(timebase, origin, end);
    ClockItemsAreMeta(items, tempos, meters, origin, end);
    forall at {
      KindsApart(items, tempos, meters, origin, end, at);
    }
    LineInForce(items, tempos, items[0], TEMPO, origin, end, t);
    LineInForce(items, meters, items[1], METER, origin, end, t);
    TemposAreChanges(timebase.tempos, origin, end, t);
    MetersAreChanges(timebase.meters, origin, end, t);
  }

  // The file has in force at a tick what the project has that far from the origin.
  ghost predicate SameClock(timebase: Timebase, origin: nat, file: bytes, at: nat) {
    var tick := origin + at;
    && ValidTimebase(timebase)
    && TempoAt(timebase.tempos, tick).Some? && MeterAt(timebase.meters, tick).Some?
    && ReadClock(file, TEMPO, at).Some? && ReadClock(file, METER, at).Some?
    && TempoOf(ReadClock(file, TEMPO, at).value) == Some(Micros(TempoAt(timebase.tempos, tick).value.bpm))
    && var meter := MeterAt(timebase.meters, tick).value;
       && MeterOf(ReadClock(file, METER, at).value) == Some((meter.numerator as nat, meter.denominator as nat))
       && Clicks(ReadClock(file, METER, at).value) == Some((24, 8))
  }

  // The first chunk of an exported file decodes to the sorted clock.
  lemma {:induction false} ClockRead(timebase: Timebase, clips: seq<Placement>, origin: nat, end: Option<nat>,
                                     kind: byte, at: nat)
    ensures Encode(timebase, clips, origin, end).Some? ==>
      var sorted := Sort(ClockItems(timebase, origin, end).value, ByMoment);
      && Clocking(sorted, 0)
      && ReadClock(Encode(timebase, clips, origin, end).value, kind, at) ==
           InForce(ClockSteps(sorted, 0), 0, kind, at, None)
  {
    hide Deltas, Decode, Sort, InForce, ParseHeader, Chunk, ClockItems, Clocking, ClockSteps;
    if Encode(timebase, clips, origin, end).Some? {
      var sorted := Sort(ClockItems(timebase, origin, end).value, ByMoment);
      var clock := Deltas(sorted, 0).value;
      var performance := Deltas(Sort(Map(Cues(clips), Saying), ByMoment), 0).value;
      var input := SmfChunks.FileBack(timebase.ppq, clock, performance);
      ClockIsMeta(timebase, origin, end);
      DecodeClock(sorted, 0, 0);
    }
  }

  /** For every tick of the exported range, the tempo and the meter a reader finds in force in the file, at the tick
      counted from the origin, are those in force in the project at that tick; a quarter note has 24 MIDI clocks and
      eight 32nd notes. */
  lemma {:induction false} ExportKeepsClock(timebase: Timebase, clips: seq<Placement>, origin: nat, end: Option<nat>,
                                            at: nat)
    requires end.Some? ==> origin + at < end.value
    ensures Encode(timebase, clips, origin, end).Some? ==>
      SameClock(timebase, origin, Encode(timebase, clips, origin, end).value, at)
  {
    hide Sort, InForce, ReadClock, Encode, ClockItems, ClockSteps, Clocking, TempoEvent, MeterEvent, Micros, TempoAt,
        MeterAt, TempoOf, MeterOf, Clicks;
    if Encode(timebase, clips, origin, end).Some? {
      var t := origin + at;
      assert t - origin == at;
      EncodeNeedsClock(timebase, clips, origin, end);
      ClockRead(timebase, clips, origin, end, TEMPO, at);
      ClockRead(timebase, clips, origin, end, METER, at);
      ClockInForce(timebase, origin, end, ClockItems(timebase, origin, end).value, t);
      TempoReadsBack(TempoAt(timebase.tempos, t).value.bpm);
      MeterReadsBack(MeterAt(timebase.meters, t).value.numerator, MeterAt(timebase.meters, t).value.denominator);
    }
  }

  lemma {:induction false} EncodeNeedsClock(timebase: Timebase, clips: seq<Placement>, origin: nat, end: Option<nat>)
    ensures Encode(timebase, clips, origin, end).Some? ==>
      ValidTimebase(timebase) && ClockItems(timebase, origin, end).Some?
  {
  }
}
