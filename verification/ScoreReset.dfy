/** Importing a score: controls are put back to their defaults wherever a part of an instrument starts or ends. */
module ScoreReset {
  import opened Wrappers
  import opened StableSort

  datatype Window = Window(instrument: string, sectionStart: nat, sectionEnd: nat, start: nat, end: nat)

  datatype Key = Sustain | Pitch | Modulation | Aftertouch | Parameter(id: string)

  // What a control is set to stays abstract; a ramp moves to its value
  // for as long as it lasts, everything else at once and lasts no time.
  datatype Event<V> = Note(tick: nat, length: nat) | Control(tick: nat, key: Key, value: V, duration: nat)

  type Section = (nat, nat)

  function SectionOf(window: Window): Section {
    (window.sectionStart, window.sectionEnd)
  }

  predicate Concerns(window: Window, instrument: string, section: Section) {
    window.instrument == instrument && SectionOf(window) == section
  }

  // What the windows of one section have in common.
  function Meet(windows: seq<Window>, instrument: string, section: Section): Option<(nat, nat)> {
    if windows == [] then None
    else
      var last := windows[|windows| - 1];
      var before := Meet(windows[..|windows| - 1], instrument, section);
      if !Concerns(last, instrument, section) then before
      else match before
        case None => Some((last.start, last.end))
        case Some(range) => Some((if range.0 < last.start then last.start
                                    else range.0, if last.end < range.1 then last.end else range.1))
  }

  /** A tick is in the common range exactly when it is in every window of the section. */
  lemma {:induction false} MeetIsIntersection(windows: seq<Window>, instrument: string, section: Section, tick: nat)
    ensures Meet(windows, instrument, section).Some? <==> exists w :: w in windows && Concerns(w, instrument, section)
    ensures Meet(windows, instrument, section).Some? ==>
      var range := Meet(windows, instrument, section).value;
      (range.0 <= tick < range.1) == forall w :: w in windows && Concerns(w, instrument, section) ==>
        w.start <= tick < w.end
  {
    if windows != [] {
      var n := |windows| - 1;
      MeetIsIntersection(windows[..n], instrument, section, tick);
      assert windows == windows[..n] + [windows[n]];
    }
  }

  // The ticks a range contributes; a section whose windows have nothing in common contributes its own ends.
  function Ends(section: Section, range: (nat, nat)): set<nat> {
    if range.0 >= range.1 then {section.0, section.1} else {range.0, range.1}
  }

  ghost predicate Boundary(windows: seq<Window>, instrument: string, tick: nat) {
    exists section: Section :: Meet(windows, instrument, section).Some?
                               && tick in Ends(section, Meet(windows, instrument, section).value)
  }

  ghost predicate InAll(windows: seq<Window>, instrument: string, section: Section, tick: int) {
    forall w :: w in windows && Concerns(w, instrument, section) ==> w.start <= tick < w.end
  }

  // Where the ticks that are in all windows of the section begin and where they have ended; when there are none, the
  // ends of the section.
  ghost predicate IsEdge(windows: seq<Window>, instrument: string, section: Section, tick: nat) {
    if exists t: nat :: InAll(windows, instrument, section, t)
    then InAll(windows, instrument, section, tick) != InAll(windows, instrument, section, tick - 1)
    else tick == section.0 || tick == section.1
  }

  lemma {:induction false} EndsAreEdges(windows: seq<Window>, instrument: string, section: Section, tick: nat)
    requires Meet(windows, instrument, section).Some?
    ensures tick in Ends(section, Meet(windows, instrument, section).value) <==>
            IsEdge(windows, instrument, section, tick)
  {
    hide Meet;
    var range := Meet(windows, instrument, section).value;
    forall t: nat ensures range.0 <= t < range.1 <==> InAll(windows, instrument, section, t) {
      MeetIsIntersection(windows, instrument, section, t);
    }
    MeetIsIntersection(windows, instrument, section, tick);
    assert !InAll(windows, instrument, section, -1);
    assert range.0 < range.1 ==> InAll(windows, instrument, section, range.0);
  }

  /** Controls are reset exactly at the edges of the sections in which the instrument has a window. */
  lemma {:induction false} BoundariesAreEdges(windows: seq<Window>, instrument: string, tick: nat)
    ensures Boundary(windows, instrument, tick) <==>
      exists w :: w in windows && w.instrument == instrument && IsEdge(windows, instrument, SectionOf(w), tick)
  {
    hide Ends, IsEdge, Meet;
    forall section: Section
      ensures Meet(windows, instrument, section).Some? <==>
              exists w :: w in windows && w.instrument == instrument && SectionOf(w) == section
      ensures Meet(windows, instrument, section).Some? ==>
        (tick in Ends(section, Meet(windows, instrument, section).value) <==>
         IsEdge(windows, instrument, section, tick))
    {
      MeetIsIntersection(windows, instrument, section, tick);
      if Meet(windows, instrument, section).Some? {
        EndsAreEdges(windows, instrument, section, tick);
      }
    }
  }

  method Boundaries(windows: seq<Window>, instrument: string) returns (ticks: set<nat>)
    ensures forall tick :: tick in ticks <==> Boundary(windows, instrument, tick)
  {
    var ranges: map<Section, (nat, nat)> := map[];
    for i := 0 to |windows|
      invariant forall section: Section :: section in ranges <==> Meet(windows[..i], instrument, section).Some?
      invariant forall section: Section :: section in ranges ==>
        Meet(windows[..i], instrument, section) == Some(ranges[section])
    {
      var window := windows[i];
      assert windows[..i + 1][..i] == windows[..i];
      if window.instrument == instrument {
        var section := SectionOf(window);
        var range := (window.start, window.end);
        if section in ranges {
          var (start, end) := ranges[section];
          range := (if start < window.start then window.start else start, if window.end < end then window.end else end);
        }
        ranges := ranges[section := range];
      }
    }
    assert windows[..|windows|] == windows;
    ticks := {};
    var left := ranges.Keys;
    while left != {}
      invariant left <= ranges.Keys
      invariant forall tick :: tick in ticks <==>
        exists section :: section in ranges && section !in left && tick in Ends(section, ranges[section])
      decreases |left|
    {
      var section :| section in left;
      ticks := ticks + Ends(section, ranges[section]);
      left := left - {section};
    }
  }

  ghost predicate Uses<V>(pattern: seq<Event<V>>, key: Key) {
    exists event :: event in pattern && event.Control? && event.key == key
  }

  // The resets: at each boundary, one for each control the pattern uses, at its default.
  ghost predicate AreResets<V(!new)>(resets: seq<Event<V>>, ticks: set<nat>, pattern: seq<Event<V>>,
                              defaults: Key -> Option<V>) {
    && (forall event :: event in resets ==>
          && event.Control? && event.tick in ticks && Uses(pattern, event.key)
          && defaults(event.key) == Some(event.value) && event.duration == 0)
    && (forall tick, key :: tick in ticks && Uses(pattern, key) ==>
          exists event :: event in resets && event.Control? && event.tick == tick && event.key == key)
    && Pairwise(resets, (a: Event<V>, b: Event<V>) => a.Control? && b.Control? && (a.tick != b.tick || a.key != b.key))
  }

  method Controls<V>(pattern: seq<Event<V>>, defaults: Key -> Option<V>) returns (controls: Option<map<Key, V>>)
    ensures controls.None? <==> exists key :: Uses(pattern, key) && defaults(key).None?
    ensures controls.Some? ==> forall key :: key in controls.value <==> Uses(pattern, key)
    ensures controls.Some? ==> forall key :: key in controls.value ==> defaults(key) == Some(controls.value[key])
  {
    var found: map<Key, V> := map[];
    for i := 0 to |pattern|
      invariant forall key :: key in found <==> Uses(pattern[..i], key)
      invariant forall key :: key in found ==> defaults(key) == Some(found[key])
    {
      var event := pattern[i];
      assert pattern[..i + 1] == pattern[..i] + [event];
      if event.Control? {
        var default := defaults(event.key);
        if default.None? {
          assert event in pattern && Uses(pattern, event.key);
          return None;
        }
        found := found[event.key := default.value];
      }
    }
    assert pattern[..|pattern|] == pattern;
    return Some(found);
  }

  lemma {:induction false} Least(s: set<nat>) returns (least: nat)
    requires s != {}
    ensures least in s && forall y :: y in s ==> least <= y
    decreases |s|
  {
    var x :| x in s;
    least := x;
    if s - {x} != {} {
      var rest := Least(s - {x});
      least := if x <= rest then x else rest;
      assert forall y :: y in s ==> y == x || y in s - {x};
    } else {
      assert forall y :: y in s ==> y == x || y in s - {x};
    }
  }

  ghost predicate Inserted<V(!new)>(events: seq<Event<V>>, ticks: set<nat>, controls: map<Key, V>) {
    && (forall event :: event in events ==>
          event.Control? && event.tick in ticks && event.key in controls && event.value == controls[event.key]
          && event.duration == 0)
    && (forall tick, key :: tick in ticks && key in controls ==> Control(tick, key, controls[key], 0) in events)
    && forall i, j :: 0 <= i < j < |events| ==> events[i] != events[j]
  }

  // The resets of one tick.
  method ResetsAt<V(!new)>(tick: nat, controls: map<Key, V>) returns (events: seq<Event<V>>)
    ensures Inserted(events, {tick}, controls)
  {
    events := [];
    var left := controls.Keys;
    while left != {}
      invariant left <= controls.Keys
      invariant forall event :: event in events ==>
        event.Control? && event.tick == tick && event.key in controls.Keys - left && event.value == controls[event.key]
        && event.duration == 0
      invariant forall key :: key in controls.Keys - left ==> Control(tick, key, controls[key], 0) in events
      invariant forall i, j :: 0 <= i < j < |events| ==> events[i] != events[j]
      decreases |left|
    {
      var key :| key in left;
      events := events + [Control(tick, key, controls[key], 0)];
      left := left - {key};
    }
  }

  lemma {:induction false} InsertedBoth<V(!new)>(a: seq<Event<V>>, b: seq<Event<V>>, ticks: set<nat>, tick: nat,
                                                 controls: map<Key, V>)
    requires Inserted(a, ticks, controls) && Inserted(b, {tick}, controls) && tick !in ticks
    ensures Inserted(a + b, ticks + {tick}, controls)
  {
    var all := a + b;
    forall i, j | 0 <= i < j < |all| ensures all[i] != all[j] {
      if i < |a| <= j {
        assert a[i] in a && b[j - |a|] in b;
      }
    }
  }

  lemma {:induction false} NoneInserted<V(!new)>(controls: map<Key, V>)
    ensures Inserted([], {}, controls)
  {
  }

  ghost predicate Ascending<V>(events: seq<Event<V>>) {
    forall i, j :: 0 <= i < j < |events| ==> events[i].tick <= events[j].tick
  }

  ghost predicate AllBefore<V>(events: seq<Event<V>>, ticks: set<nat>) {
    forall i, tick :: 0 <= i < |events| && tick in ticks ==> events[i].tick < tick
  }

  lemma {:induction false} Rises<V(!new)>(events: seq<Event<V>>, resets: seq<Event<V>>, left: set<nat>, tick: nat,
                                          controls: map<Key, V>)
    requires Ascending(events) && AllBefore(events, left) && Inserted(resets, {tick}, controls)
    requires tick in left && forall other :: other in left ==> tick <= other
    ensures Ascending(events + resets) && AllBefore(events + resets, left - {tick})
  {
    assert forall i :: 0 <= i < |resets| ==> resets[i] in resets && resets[i].tick == tick;
  }

  // Tick by tick, in rising order.
  method InsertResets<V(!new)>(ticks: set<nat>, controls: map<Key, V>) returns (events: seq<Event<V>>)
    ensures Inserted(events, ticks, controls) && Ascending(events)
  {
    hide Inserted;
    events := [];
    NoneInserted(controls);
    assert ticks - ticks == {};
    var left := ticks;
    while left != {}
      invariant left <= ticks && Inserted(events, ticks - left, controls) && Ascending(events)
      invariant AllBefore(events, left)
      decreases |left|
    {
      ghost var least := Least(left);
      var tick :| tick in left && forall other :: other in left ==> tick <= other;
      var resets := ResetsAt(tick, controls);
      InsertedBoth(events, resets, ticks - left, tick, controls);
      Rises(events, resets, left, tick, controls);
      events := events + resets;
      assert ticks - left + {tick} == ticks - (left - {tick});
      left := left - {tick};
    }
    assert ticks - {} == ticks;
  }

  lemma {:induction false} InsertedAreResets<V(!new)>(events: seq<Event<V>>, ticks: set<nat>, controls: map<Key, V>,
                                                      pattern: seq<Event<V>>, defaults: Key -> Option<V>)
    requires Inserted(events, ticks, controls)
    requires forall key :: key in controls <==> Uses(pattern, key)
    requires forall key :: key in controls ==> defaults(key) == Some(controls[key])
    ensures AreResets(events, ticks, pattern, defaults)
  {
    forall i, j | 0 <= i < j < |events|
      ensures events[i].Control? && events[j].Control?
      ensures (events[i].tick != events[j].tick || events[i].key != events[j].key)
    {
      assert events[i] in events && events[j] in events;
    }
    forall tick, key | tick in ticks && Uses(pattern, key)
      ensures exists event :: event in events && event.Control? && event.tick == tick && event.key == key
    {
      assert Control(tick, key, controls[key], 0) in events;
    }
  }

  /** The events of the imported lane: resets first, then the performance as it was, so that among events of one tick
      the resets come first. It fails only when a control used has no default. */
  method ResetEvents<V(!new)>(windows: seq<Window>, instrument: string, pattern: seq<Event<V>>,
                       defaults: Key -> Option<V>)
      returns (r: Option<seq<Event<V>>>, ghost ticks: set<nat>, ghost resets: seq<Event<V>>)
    ensures r.None? <==> exists key :: Uses(pattern, key) && defaults(key).None?
    ensures forall tick :: tick in ticks <==> Boundary(windows, instrument, tick)
    ensures r.Some? ==> AreResets(resets, ticks, pattern, defaults) && Ascending(resets) && r.value == resets + pattern
  {
    var boundaries := Boundaries(windows, instrument);
    ticks, resets := boundaries, [];
    var controls := Controls(pattern, defaults);
    if controls.None? {
      return None, ticks, resets;
    }
    var events := InsertResets(boundaries, controls.value);
    resets := events;
    InsertedAreResets(resets, ticks, controls.value, pattern, defaults);
    return Some(events + pattern), ticks, resets;
  }

  function ByTick<V>(): Event<V> -> int {
    (event: Event<V>) => event.tick
  }

  function IsChange<V>(key: Key, tick: nat): Event<V> -> bool {
    (event: Event<V>) => event.Control? && event.key == key && event.tick <= tick
  }

  // The change of a control in force at a tick, events being taken in the order of their ticks and numbers.
  function LastChange<V(!new)>(events: seq<Event<V>>, key: Key, tick: nat): Option<Event<V>> {
    var changes := Filter(Sort(events, ByTick()), IsChange(key, tick));
    if changes == [] then None else Some(changes[|changes| - 1])
  }

  // The same, found without sorting.
  function Latest<V>(events: seq<Event<V>>): Event<V>
    requires events != []
  {
    if |events| == 1 then events[0]
    else
      var rest := Latest(events[1..]);
      if events[0].tick > rest.tick then events[0] else rest
  }

  lemma {:induction false} LastInserted<V(!new)>(event: Event<V>, sorted: seq<Event<V>>)
    requires SortedBy(sorted, ByTick())
    ensures var after := Insert(event, sorted, ByTick());
      after[|after| - 1] == if sorted == [] || event.tick > sorted[|sorted| - 1].tick then event
                            else sorted[|sorted| - 1]
  {
    var key := ByTick<V>();
    assert |sorted| > 1 ==> key(sorted[0]) <= key(sorted[|sorted| - 1]);
    if sorted != [] && event.tick > sorted[0].tick {
      LastInserted(event, sorted[1..]);
    }
  }

  lemma {:induction false} LatestIsLast<V(!new)>(events: seq<Event<V>>)
    requires events != []
    ensures Sort(events, ByTick())[|events| - 1] == Latest(events)
  {
    SortIsSorted(events[1..], ByTick());
    LastInserted(events[0], Sort(events[1..], ByTick()));
    if |events| > 1 {
      LatestIsLast(events[1..]);
    }
  }

  lemma {:induction false} LatestIsGreatest<V(!new)>(events: seq<Event<V>>)
    requires events != []
    ensures Latest(events) in events && forall event :: event in events ==> event.tick <= Latest(events).tick
  {
    if |events| > 1 {
      LatestIsGreatest(events[1..]);
      assert events == [events[0]] + events[1..];
    }
  }

  lemma {:induction false} LatestOfBoth<V(!new)>(a: seq<Event<V>>, b: seq<Event<V>>)
    requires a + b != []
    ensures Latest(a + b) == if b == [] || (a != [] && Latest(a).tick > Latest(b).tick) then Latest(a) else Latest(b)
  {
    if a == [] {
      assert a + b == b;
    } else if b == [] {
      assert a + b == a;
    } else {
      assert (a + b)[1..] == a[1..] + b;
      LatestOfBoth(a[1..], b);
    }
  }

  lemma {:induction false} LastChangeIsLatest<V(!new)>(events: seq<Event<V>>, key: Key, tick: nat)
    ensures var changes := Filter(events, IsChange(key, tick));
      LastChange(events, key, tick) == if changes == [] then None else Some(Latest(changes))
  {
    var changes := Filter(events, IsChange(key, tick));
    FilterSort(events, ByTick(), IsChange(key, tick));
    if changes != [] {
      LatestIsLast(changes);
    }
  }

  /** What the resets achieve: at every tick the change of a control begun last is the performance's last one, unless a
      boundary has come since; then it is the reset to the default. No change begun before a boundary is the last one
      after it. */
  lemma {:induction false} NothingCarriesOver<V(!new)>(resets: seq<Event<V>>, ticks: set<nat>, pattern: seq<Event<V>>,
                                                       defaults: Key -> Option<V>, key: Key, tick: nat)
    requires AreResets(resets, ticks, pattern, defaults) && Uses(pattern, key)
    ensures var played, now := LastChange(pattern, key, tick), LastChange(resets + pattern, key, tick);
      if exists b :: b in ticks && b <= tick && (played.None? || played.value.tick < b)
      then now.Some? && now.value.Control? && Some(now.value.value) == defaults(key)
      else now == played
  {
    hide Sort, Filter;
    var change := IsChange(key, tick);
    var a, b := Filter(resets, change), Filter(pattern, change);
    FilterConcat(resets, pattern, change);
    FilterMembers(resets, change);
    FilterMembers(pattern, change);
    LastChangeIsLatest(pattern, key, tick);
    LastChangeIsLatest(resets + pattern, key, tick);
    if a + b != [] {
      LatestOfBoth(a, b);
    }
    if a != [] {
      LatestIsGreatest(a);
    }
    forall t | t in ticks && t <= tick ensures a != [] && t <= Latest(a).tick {
      var event :| event in resets && event.Control? && event.tick == t && event.key == key;
      assert event in a;
    }
  }

  // A ramp of a control still under way at a boundary after its start.
  ghost predicate Spans<V>(event: Event<V>, key: Key, boundary: nat) {
    event.Control? && event.key == key && event.tick < boundary < event.tick + event.duration
  }

  ghost predicate SomeSpans<V>(events: seq<Event<V>>, key: Key, boundary: nat) {
    exists event :: event in events && Spans(event, key, boundary)
  }

  /** Resets do not end ramps: something begun before a boundary is still under way at it if and only if the performance
      itself holds a ramp that spans it. */
  lemma {:induction false} RampsCarryOver<V(!new)>(resets: seq<Event<V>>, ticks: set<nat>, pattern: seq<Event<V>>,
                                                   defaults: Key -> Option<V>, key: Key, boundary: nat)
    requires AreResets(resets, ticks, pattern, defaults)
    ensures SomeSpans(resets + pattern, key, boundary) <==> SomeSpans(pattern, key, boundary)
  {
    if SomeSpans(resets + pattern, key, boundary) {
      var event :| event in resets + pattern && Spans(event, key, boundary);
      assert event !in resets;
    }
    assert forall event :: event in pattern ==> event in resets + pattern;
  }
}
