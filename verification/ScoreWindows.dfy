/** Compiling a score: what is played of an instrument is limited to its windows, which cuts ramps into pieces, and is
    then shifted in time; and what of it is still under way at the boundaries where controls are reset. */
module ScoreWindows {
  import opened Wrappers
  import opened ScoreReset
  import opened StableSort

  // What the windows of an instrument in one section have in common.
  datatype Range = Range(section: Section, window: (nat, nat))

  datatype Change = Change(from: real, to: real)

  datatype Ramp = Ramp(start: nat, end: nat, from: real, to: real)

  // The ranges of all sections in which the instrument has a window, in any order.
  ghost predicate AreRanges(ranges: seq<Range>, windows: seq<Window>, instrument: string) {
    && (forall r :: r in ranges ==> Meet(windows, instrument, r.section) == Some(r.window))
    && (forall section: Section :: Meet(windows, instrument, section).Some? ==>
          Range(section, Meet(windows, instrument, section).value) in ranges)
  }

  predicate In(bounds: (nat, nat), tick: nat) {
    bounds.0 <= tick < bounds.1
  }

  // The first range whose section holds the tick decides; outside all sections everything is allowed.
  predicate Allowed(ranges: seq<Range>, tick: nat) {
    ranges != [] ==>
      if In(ranges[0].section, tick) then In(ranges[0].window, tick) else Allowed(ranges[1..], tick)
  }

  function ValueAt(ramp: Ramp, tick: nat): real
    requires ramp.start < ramp.end
  {
    if tick == ramp.start then ramp.from
    else if tick == ramp.end then ramp.to
    else
      var ratio := (tick as real - ramp.start as real) / (ramp.end as real - ramp.start as real);
      ramp.from + (ramp.to - ramp.from) * ratio
  }

  function Edges(ranges: seq<Range>): seq<nat> {
    if ranges == [] then []
    else
      var (section, window) := (ranges[0].section, ranges[0].window);
      [section.0, section.1, window.0, window.1] + Edges(ranges[1..])
  }

  // Of equal neighbours one is kept.
  function Dedup(s: seq<nat>): seq<nat> {
    if |s| < 2 then s else if s[0] == s[1] then Dedup(s[1..]) else [s[0]] + Dedup(s[1..])
  }

  // The ticks at which a ramp is cut, its own ends included.
  function Cuts(start: nat, end: nat, ranges: seq<Range>): seq<nat> {
    Dedup(Sort([start, end] + Filter(Edges(ranges), (t: nat) => start < t < end), (t: nat) => t))
  }

  function Pieces(ramp: Ramp, cuts: seq<nat>, ranges: seq<Range>): seq<Ramp>
    requires ramp.start < ramp.end
  {
    if |cuts| < 2 then []
    else
      var rest := Pieces(ramp, cuts[1..], ranges);
      if Allowed(ranges, cuts[0]) then
        [Ramp(cuts[0], cuts[1], ValueAt(ramp, cuts[0]), ValueAt(ramp, cuts[1]))] + rest
      else rest
  }

  function Segments(ramp: Ramp, ranges: seq<Range>): seq<Ramp>
    requires ramp.start < ramp.end
  {
    Pieces(ramp, Cuts(ramp.start, ramp.end, ranges), ranges)
  }

  ghost predicate Rising(s: seq<nat>) {
    forall i, j :: 0 <= i < j < |s| ==> s[i] < s[j]
  }

  lemma {:induction false} DedupRises(s: seq<nat>)
    requires forall i, j :: 0 <= i < j < |s| ==> s[i] <= s[j]
    ensures Rising(Dedup(s)) && forall t :: t in Dedup(s) <==> t in s
  {
    if |s| >= 2 {
      DedupRises(s[1..]);
      assert s == [s[0]] + s[1..];
      var rest := Dedup(s[1..]);
      forall i | 0 <= i < |rest| ensures rest[i] >= s[1] {
        assert rest[i] in s[1..];
      }
    }
  }

  lemma {:induction false} SortedRises(s: seq<nat>, key: nat -> int)
    requires SortedBy(s, key) && forall t :: key(t) == t
    ensures forall i, j :: 0 <= i < j < |s| ==> s[i] <= s[j]
  {
    forall i, j | 0 <= i < j < |s| ensures s[i] <= s[j] {
      assert key(s[i]) <= key(s[j]);
    }
  }

  lemma {:induction false} RisingFromTo(s: seq<nat>, start: nat, end: nat)
    requires Rising(s) && start in s && end in s && start < end && forall t :: t in s ==> start <= t <= end
    ensures |s| >= 2 && s[0] == start && s[|s| - 1] == end
  {
    assert s[0] in s && s[|s| - 1] in s;
  }

  lemma {:induction false} CutsAre(start: nat, end: nat, ranges: seq<Range>)
    requires start < end
    ensures var cuts := Cuts(start, end, ranges);
      && Rising(cuts) && |cuts| >= 2 && cuts[0] == start && cuts[|cuts| - 1] == end
      && forall t :: t in cuts <==> t == start || t == end || (t in Edges(ranges) && start < t < end)
  {
    hide Sort, Filter, Dedup, Edges, SortedBy, Rising;
    var key, inside := (t: nat) => t, (t: nat) => start < t < end;
    var all := [start, end] + Filter(Edges(ranges), inside);
    FilterMembers(Edges(ranges), inside);
    SortIsSorted(all, key);
    SameElements(all, key);
    SortedRises(Sort(all, key), key);
    DedupRises(Sort(all, key));
    RisingFromTo(Cuts(start, end, ranges), start, end);
  }

  // No edge lies strictly between two neighbouring cuts.
  ghost predicate Uncut(cuts: seq<nat>, ranges: seq<Range>) {
    forall i, t :: 0 <= i < |cuts| - 1 && t in Edges(ranges) ==> t <= cuts[i] || cuts[i + 1] <= t
  }

  lemma {:induction false} CutsLeaveNone(start: nat, end: nat, ranges: seq<Range>)
    requires start < end
    ensures Uncut(Cuts(start, end, ranges), ranges)
  {
    CutsAre(start, end, ranges);
    var cuts := Cuts(start, end, ranges);
    forall i, t | 0 <= i < |cuts| - 1 && t in Edges(ranges) ensures t <= cuts[i] || cuts[i + 1] <= t {
      if start < t < end {
        assert t in cuts;
      }
    }
  }

  lemma {:induction false} AllowedSteady(ranges: seq<Range>, a: nat, t: nat)
    requires a <= t && forall e :: e in Edges(ranges) ==> e <= a || t < e
    ensures Allowed(ranges, a) == Allowed(ranges, t)
  {
    if ranges != [] {
      var (section, window) := (ranges[0].section, ranges[0].window);
      var edges := Edges(ranges);
      assert edges[0] in edges && edges[1] in edges && edges[2] in edges && edges[3] in edges;
      assert edges[4..] == Edges(ranges[1..]) && forall e :: e in edges[4..] ==> e in edges;
      AllowedSteady(ranges[1..], a, t);
    }
  }

  ghost predicate Covers(pieces: seq<Ramp>, t: nat) {
    exists p :: p in pieces && p.start <= t < p.end
  }

  // Each piece lies between two neighbouring cuts.
  lemma {:induction false} PiecesLie(ramp: Ramp, cuts: seq<nat>, ranges: seq<Range>, piece: Ramp) returns (i: nat)
    requires ramp.start < ramp.end && piece in Pieces(ramp, cuts, ranges)
    ensures i + 1 < |cuts| && piece == Ramp(cuts[i], cuts[i + 1], ValueAt(ramp, cuts[i]), ValueAt(ramp, cuts[i + 1]))
  {
    if |cuts| >= 2 && piece in Pieces(ramp, cuts[1..], ranges) {
      i := PiecesLie(ramp, cuts[1..], ranges, piece);
      i := i + 1;
    } else {
      i := 0;
    }
  }

  lemma {:induction false} UncutRest(cuts: seq<nat>, ranges: seq<Range>)
    requires cuts != [] && Uncut(cuts, ranges)
    ensures Uncut(cuts[1..], ranges)
  {
    forall i, t | 0 <= i < |cuts| - 2 && t in Edges(ranges) ensures t <= cuts[1..][i] || cuts[1..][i + 1] <= t {
      assert t <= cuts[i + 1] || cuts[i + 1 + 1] <= t;
    }
  }

  lemma {:induction false} PiecesCover(ramp: Ramp, cuts: seq<nat>, ranges: seq<Range>, t: nat)
    requires ramp.start < ramp.end && Rising(cuts) && Uncut(cuts, ranges)
    requires |cuts| >= 2 && cuts[0] <= t < cuts[|cuts| - 1]
    ensures Covers(Pieces(ramp, cuts, ranges), t) <==> Allowed(ranges, t)
  {
    var rest, pieces := Pieces(ramp, cuts[1..], ranges), Pieces(ramp, cuts, ranges);
    UncutRest(cuts, ranges);
    if t < cuts[1] {
      AllowedSteady(ranges, cuts[0], t);
      forall p | p in rest ensures t < p.start {
        var i := PiecesLie(ramp, cuts[1..], ranges, p);
      }
      if Allowed(ranges, t) {
        assert pieces[0] in pieces && pieces[0].start <= t < pieces[0].end;
      }
    } else {
      PiecesCover(ramp, cuts[1..], ranges, t);
      assert forall p :: p in rest ==> p in pieces;
      assert forall p :: p in pieces && p !in rest ==> p.end <= t;
    }
  }

  // The straight line through both ends, also at the ends.
  lemma {:induction false} OnTheLine(ramp: Ramp, slope: real, tick: nat)
    requires ramp.start < ramp.end && ramp.start <= tick <= ramp.end
    requires slope * (ramp.end - ramp.start) as real == ramp.to - ramp.from
    ensures ValueAt(ramp, tick) == ramp.from + slope * (tick - ramp.start) as real
  {
    var length, passed := (ramp.end - ramp.start) as real, (tick - ramp.start) as real;
    assert tick as real - ramp.start as real == passed && ramp.end as real - ramp.start as real == length;
    Proportional(slope, length, passed, ramp.to - ramp.from);
  }

  lemma {:induction false} Proportional(slope: real, length: real, passed: real, change: real)
    requires length > 0.0 && slope * length == change
    ensures change * (passed / length) == slope * passed
  {
    var ratio := passed / length;
    assert ratio * length == passed;
    assert (slope * length) * ratio == slope * (ratio * length);
  }

  lemma {:induction false} Difference(slope: real, a: real, b: real)
    ensures slope * b - slope * a == slope * (b - a)
  {
  }

  lemma {:induction false} Slope(ramp: Ramp) returns (slope: real)
    requires ramp.start < ramp.end
    ensures slope * (ramp.end - ramp.start) as real == ramp.to - ramp.from
  {
    slope := (ramp.to - ramp.from) / (ramp.end - ramp.start) as real;
  }

  lemma {:induction false} PieceKeepsValue(ramp: Ramp, piece: Ramp, tick: nat)
    requires ramp.start <= piece.start <= tick <= piece.end <= ramp.end && piece.start < piece.end
    requires piece.from == ValueAt(ramp, piece.start) && piece.to == ValueAt(ramp, piece.end)
    ensures ValueAt(piece, tick) == ValueAt(ramp, tick)
  {
    hide ValueAt;
    var slope := Slope(ramp);
    OnTheLine(ramp, slope, piece.start);
    OnTheLine(ramp, slope, piece.end);
    OnTheLine(ramp, slope, tick);
    var a, b, t := (piece.start - ramp.start) as real, (piece.end - ramp.start) as real, (tick - ramp.start) as real;
    Difference(slope, a, b);
    Difference(slope, a, t);
    assert b - a == (piece.end - piece.start) as real && t - a == (tick - piece.start) as real;
    OnTheLine(piece, slope, tick);
  }

  lemma {:induction false} SegmentLies(ramp: Ramp, ranges: seq<Range>, piece: Ramp)
    requires ramp.start < ramp.end && piece in Segments(ramp, ranges)
    ensures ramp.start <= piece.start < piece.end <= ramp.end
    ensures piece.start == ramp.start || piece.start in Edges(ranges)
    ensures piece.end == ramp.end || piece.end in Edges(ranges)
    ensures piece.from == ValueAt(ramp, piece.start) && piece.to == ValueAt(ramp, piece.end)
    ensures forall e :: e in Edges(ranges) ==> e <= piece.start || piece.end <= e
  {
    hide Edges, Cuts;
    var cuts := Cuts(ramp.start, ramp.end, ranges);
    var i := PiecesLie(ramp, cuts, ranges, piece);
    CutsAre(ramp.start, ramp.end, ranges);
    CutsLeaveNone(ramp.start, ramp.end, ranges);
    assert cuts[i] in cuts && cuts[i + 1] in cuts;
  }

  /** Cutting a ramp keeps its meaning: its segments cover exactly the ticks the windows allow, have there the value the
      ramp has, and follow one another without overlap. */
  lemma {:induction false} SegmentsKeepRamp(ramp: Ramp, ranges: seq<Range>, tick: nat)
    requires ramp.start <= tick < ramp.end
    ensures Covers(Segments(ramp, ranges), tick) <==> Allowed(ranges, tick)
    ensures forall piece :: piece in Segments(ramp, ranges) && piece.start <= tick < piece.end ==>
              ValueAt(piece, tick) == ValueAt(ramp, tick)
    ensures Pairwise(Segments(ramp, ranges), (a: Ramp, b: Ramp) => a.end <= b.start)
  {
    hide Cuts, ValueAt;
    var cuts := Cuts(ramp.start, ramp.end, ranges);
    CutsAre(ramp.start, ramp.end, ranges);
    CutsLeaveNone(ramp.start, ramp.end, ranges);
    PiecesCover(ramp, cuts, ranges, tick);
    forall piece | piece in Segments(ramp, ranges) && piece.start <= tick < piece.end
      ensures piece.start < piece.end && ValueAt(piece, tick) == ValueAt(ramp, tick)
    {
      SegmentLies(ramp, ranges, piece);
      PieceKeepsValue(ramp, piece, tick);
    }
    PiecesFollow(ramp, cuts, ranges);
  }

  lemma {:induction false} PiecesFollow(ramp: Ramp, cuts: seq<nat>, ranges: seq<Range>)
    requires ramp.start < ramp.end && Rising(cuts)
    ensures Pairwise(Pieces(ramp, cuts, ranges), (a: Ramp, b: Ramp) => a.end <= b.start)
  {
    if |cuts| >= 2 {
      var rest := Pieces(ramp, cuts[1..], ranges);
      PiecesFollow(ramp, cuts[1..], ranges);
      forall k | 0 <= k < |rest| ensures cuts[1] <= rest[k].start {
        var i := PiecesLie(ramp, cuts[1..], ranges, rest[k]);
      }
    }
  }

  // A note that starts in a section must start in its window, and ends with it.
  function Trimmed(note: Event<Change>, ranges: seq<Range>): Option<Event<Change>>
    requires note.Note?
    decreases |ranges|
  {
    if ranges == [] then Some(note)
    else
      var (section, window) := (ranges[0].section, ranges[0].window);
      if !In(section, note.tick) then Trimmed(note, ranges[1..])
      else if !In(window, note.tick) then None
      else if note.tick + note.length > window.1 then
        Trimmed(note.(length := window.1 - note.tick), ranges[1..])
      else Trimmed(note, ranges[1..])
  }

  predicate KeepsControl(tick: nat, ranges: seq<Range>) {
    forall i :: 0 <= i < |ranges| && In(ranges[i].section, tick) ==> In(ranges[i].window, tick)
  }

  function RampOf(event: Event<Change>): Ramp
    requires event.Control?
  {
    Ramp(event.tick, event.tick + event.duration, event.value.from, event.value.to)
  }

  function EventOf(key: Key, piece: Ramp): Event<Change> {
    var duration := if piece.start < piece.end then piece.end - piece.start else 0;
    Control(piece.start, key, Change(piece.from, piece.to), duration)
  }

  // What the windows leave of one event. Ramps last some time and other controls none.
  function Windowed(event: Event<Change>, ranges: seq<Range>): seq<Event<Change>> {
    match event
    case Note(_, _) => (match Trimmed(event, ranges) case None => [] case Some(note) => [note])
    case Control(tick, key, _, duration) =>
      if duration > 0 then Map(Segments(RampOf(event), ranges), (piece: Ramp) => EventOf(key, piece))
      else if KeepsControl(tick, ranges) then [event]
      else []
  }

  function ApplyWindows(events: seq<Event<Change>>, ranges: seq<Range>): seq<Event<Change>> {
    if events == [] then [] else Windowed(events[0], ranges) + ApplyWindows(events[1..], ranges)
  }

  // The place of the first section that holds a tick.
  ghost predicate IsFirstAt(ranges: seq<Range>, tick: nat, i: nat) {
    i < |ranges| && In(ranges[i].section, tick) && forall k :: 0 <= k < i ==> !In(ranges[k].section, tick)
  }

  lemma {:induction false} AllowedByFirst(ranges: seq<Range>, tick: nat)
    ensures Allowed(ranges, tick) <==> forall i: nat :: IsFirstAt(ranges, tick, i) ==> In(ranges[i].window, tick)
  {
    if ranges != [] && !In(ranges[0].section, tick) {
      AllowedByFirst(ranges[1..], tick);
      forall i: nat ensures IsFirstAt(ranges, tick, i) <==> i > 0 && IsFirstAt(ranges[1..], tick, i - 1) {
      }
      assert forall i: nat :: IsFirstAt(ranges[1..], tick, i) ==> IsFirstAt(ranges, tick, i + 1);
    } else if ranges != [] {
      assert IsFirstAt(ranges, tick, 0);
    }
  }

  // At a tick a ramp is where the straight line from its start to its end is.
  ghost predicate IsOnLine(value: real, ramp: Event<Change>, tick: nat)
    requires ramp.Control? && ramp.tick <= tick
  {
    (value - ramp.value.from) * ramp.duration as real == (ramp.value.to - ramp.value.from) * (tick - ramp.tick) as real
  }

  predicate UnderWay(event: Event<Change>, tick: nat) {
    event.Control? && event.tick <= tick < event.tick + event.duration
  }

  /** What the windows leave of a ramp: ramps of the same control, under way exactly where the first section that holds
      the tick has it in its window or no section holds it, and there each has the value the whole ramp has. */
  lemma {:induction false} RampKept(event: Event<Change>, ranges: seq<Range>, tick: nat)
    requires UnderWay(event, tick)
    ensures var left := Windowed(event, ranges);
      && (forall i :: 0 <= i < |left| ==> left[i].Control? && left[i].key == event.key && left[i].duration > 0)
      && ((exists i :: 0 <= i < |left| && UnderWay(left[i], tick)) <==>
          forall i: nat :: IsFirstAt(ranges, tick, i) ==> In(ranges[i].window, tick))
      && forall i, value :: 0 <= i < |left| && UnderWay(left[i], tick) ==>
           (IsOnLine(value, left[i], tick) <==> IsOnLine(value, event, tick))
  {
    hide Segments, ValueAt, IsOnLine, IsFirstAt;
    var ramp := RampOf(event);
    var left, pieces := Windowed(event, ranges), Segments(ramp, ranges);
    AllowedByFirst(ranges, tick);
    SegmentsKeepRamp(ramp, ranges, tick);
    forall i | 0 <= i < |left|
      ensures left[i] == EventOf(event.key, pieces[i]) && left[i].duration > 0
      ensures UnderWay(left[i], tick) <==> pieces[i].start <= tick < pieces[i].end
      ensures UnderWay(left[i], tick) ==>
        forall value :: IsOnLine(value, left[i], tick) <==> IsOnLine(value, event, tick)
    {
      SegmentLies(ramp, ranges, pieces[i]);
      if UnderWay(left[i], tick) {
        assert pieces[i] in pieces;
        forall value ensures IsOnLine(value, left[i], tick) <==> IsOnLine(value, event, tick) {
          LineIs(left[i], tick, value);
          LineIs(event, tick, value);
        }
      }
    }
    if p :| p in pieces && p.start <= tick < p.end {
      var i :| 0 <= i < |pieces| && pieces[i] == p;
      assert UnderWay(left[i], tick);
    }
  }

  lemma {:induction false} LineIs(ramp: Event<Change>, tick: nat, value: real)
    requires UnderWay(ramp, tick)
    ensures IsOnLine(value, ramp, tick) <==> value == ValueAt(RampOf(ramp), tick)
  {
    hide ValueAt;
    var slope := Slope(RampOf(ramp));
    var length, passed := ramp.duration as real, (tick - ramp.tick) as real;
    OnTheLine(RampOf(ramp), slope, tick);
    SameFactor(value - ramp.value.from, slope * passed, length);
    assert slope * length * passed == slope * passed * length;
  }

  lemma {:induction false} SameFactor(a: real, b: real, c: real)
    requires c > 0.0
    ensures a * c == b * c <==> a == b
  {
    if a * c == b * c {
      assert (a - b) * c == 0.0;
    }
  }

  // In the window of every section it is in.
  ghost predicate InWindows(ranges: seq<Range>, tick: nat) {
    forall r :: r in ranges && In(r.section, tick) ==> In(r.window, tick)
  }

  /** A note is kept if and only if it starts in the window of every section it starts in; it keeps its length unless
      such a window ends sooner, and then ends with the first that does. */
  lemma {:induction false} TrimmedInside(note: Event<Change>, ranges: seq<Range>, length: nat)
    requires note.Note?
    ensures Trimmed(note, ranges).Some? <==> InWindows(ranges, note.tick)
    ensures Trimmed(note, ranges).Some? ==>
      var kept := Trimmed(note, ranges).value;
      && kept.Note? && kept.tick == note.tick
      && (length <= kept.length <==>
          length <= note.length
          && forall r :: r in ranges && In(r.section, note.tick) ==> note.tick + length <= r.window.1)
    decreases |ranges|
  {
    if ranges != [] {
      assert forall r :: r in ranges <==> r == ranges[0] || r in ranges[1..];
      var (section, window) := (ranges[0].section, ranges[0].window);
      if In(section, note.tick) && In(window, note.tick) && note.tick + note.length > window.1 {
        TrimmedInside(note.(length := window.1 - note.tick), ranges[1..], length);
      } else if !In(section, note.tick) || In(window, note.tick) {
        TrimmedInside(note, ranges[1..], length);
      }
    }
  }

  const IsInstant: Event<Change> -> bool := (event: Event<Change>) => event.Control? && event.duration == 0

  ghost function InstantsIn(events: seq<Event<Change>>, ranges: seq<Range>): seq<Event<Change>> {
    if events == [] then []
    else (if IsInstant(events[0]) && InWindows(ranges, events[0].tick) then [events[0]] else [])
         + InstantsIn(events[1..], ranges)
  }

  lemma {:induction false} InstantsOf(event: Event<Change>, ranges: seq<Range>)
    ensures Filter(Windowed(event, ranges), IsInstant) ==
            if IsInstant(event) && InWindows(ranges, event.tick) then [event] else []
  {
    hide Segments, Trimmed;
    if event.Note? {
      TrimmedInside(event, ranges, 0);
    } else if event.duration > 0 {
      var left, pieces := Windowed(event, ranges), Segments(RampOf(event), ranges);
      forall i | 0 <= i < |left| ensures !IsInstant(left[i]) {
        SegmentLies(RampOf(event), ranges, pieces[i]);
      }
      FilterNone(left, IsInstant);
    } else {
      assert KeepsControl(event.tick, ranges) <==> InWindows(ranges, event.tick);
    }
  }

  lemma {:induction false} FilterNone(events: seq<Event<Change>>, p: Event<Change> -> bool)
    requires forall i :: 0 <= i < |events| ==> !p(events[i])
    ensures Filter(events, p) == []
  {
    if events != [] {
      FilterNone(events[1..], p);
    }
  }

  /** Of the controls that last no time exactly those are kept, as they were and in their order, that are in the window
      of every section they are in. */
  lemma {:induction false} InstantsKept(events: seq<Event<Change>>, ranges: seq<Range>)
    ensures Filter(ApplyWindows(events, ranges), IsInstant) == InstantsIn(events, ranges)
  {
    hide Windowed, Filter;
    if events == [] {
      FilterNone([], IsInstant);
    } else {
      InstantsOf(events[0], ranges);
      InstantsKept(events[1..], ranges);
      FilterConcat(Windowed(events[0], ranges), ApplyWindows(events[1..], ranges), IsInstant);
    }
  }

  // Timing offsets move everything alike; nothing may leave the score, and notes end with it.
  function Offset(events: seq<Event<Change>>, offset: int, end: nat): Option<seq<Event<Change>>> {
    if events == [] then Some([])
    else
      var tick := events[0].tick + offset;
      if tick < 0 || tick >= end then None
      else
        match Offset(events[1..], offset, end)
        case None => None
        case Some(rest) =>
          var moved := events[0].(tick := tick);
          Some([if moved.Note? && tick + moved.length > end then moved.(length := end - tick) else moved] + rest)
  }

  /** An offset is refused exactly when it would move something out of the score; otherwise everything is moved by it
      and stays as it was, except that a note that would last beyond the score ends with it. */
  lemma {:induction false} OffsetMovesAll(events: seq<Event<Change>>, offset: int, end: nat)
    ensures Offset(events, offset, end).Some? <==> forall event :: event in events ==> 0 <= event.tick + offset < end
    ensures Offset(events, offset, end).Some? ==>
      var moved := Offset(events, offset, end).value;
      |moved| == |events|
      && forall i :: 0 <= i < |events| ==>
           match events[i]
           case Control(tick, key, value, duration) => moved[i] == Control(tick + offset, key, value, duration)
           case Note(tick, length) =>
             moved[i] == Note(tick + offset, if tick + offset + length <= end then length else end - (tick + offset))
  {
    if events != [] {
      OffsetMovesAll(events[1..], offset, end);
      assert forall event :: event in events <==> event == events[0] || event in events[1..];
    }
  }

  // A ramp under way so far before a boundary that the offset moves it over the boundary.
  ghost predicate SpansOnceMoved(events: seq<Event<Change>>, key: Key, boundary: nat, offset: int) {
    exists event :: event in events && event.Control? && event.key == key
                    && event.tick < boundary - offset < event.tick + event.duration
  }

  lemma {:induction false} OffsetSpans(events: seq<Event<Change>>, offset: int, end: nat, key: Key, boundary: nat)
    requires Offset(events, offset, end).Some?
    ensures SomeSpans(Offset(events, offset, end).value, key, boundary) <==>
            SpansOnceMoved(events, key, boundary, offset)
  {
    if events != [] {
      var moved := Offset(events, offset, end).value;
      OffsetSpans(events[1..], offset, end, key, boundary);
      assert forall event :: event in events <==> event == events[0] || event in events[1..];
      assert forall event :: event in moved <==> event == moved[0] || event in moved[1..];
      if SpansOnceMoved(events, key, boundary, offset) && !SpansOnceMoved(events[1..], key, boundary, offset) {
        assert moved[0] in moved && Spans(moved[0], key, boundary);
      }
      if SomeSpans(moved, key, boundary) && !SomeSpans(moved[1..], key, boundary) {
        assert Spans(moved[0], key, boundary) && events[0] in events;
      }
    }
  }

  lemma {:induction false} WindowedSpans(event: Event<Change>, ranges: seq<Range>, key: Key, boundary: nat)
    requires boundary in Edges(ranges)
    ensures !SomeSpans(Windowed(event, ranges), key, boundary)
  {
    hide Edges, Segments;
    if event.Note? {
      TrimmedInside(event, ranges, 0);
    } else if SomeSpans(Windowed(event, ranges), key, boundary) {
      var left :| left in Windowed(event, ranges) && Spans(left, key, boundary);
      var i :| 0 <= i < |Windowed(event, ranges)| && left == Windowed(event, ranges)[i];
      var piece := Segments(RampOf(event), ranges)[i];
      assert left == EventOf(event.key, piece);
      SegmentLies(RampOf(event), ranges, piece);
      assert false;
    }
  }

  lemma {:induction false} WindowsEndRamps(events: seq<Event<Change>>, ranges: seq<Range>, key: Key, boundary: nat)
    requires boundary in Edges(ranges)
    ensures !SomeSpans(ApplyWindows(events, ranges), key, boundary)
  {
    hide Edges, Windowed;
    if events != [] {
      WindowedSpans(events[0], ranges, key, boundary);
      WindowsEndRamps(events[1..], ranges, key, boundary);
      assert forall event :: event in ApplyWindows(events, ranges) <==>
        event in Windowed(events[0], ranges) || event in ApplyWindows(events[1..], ranges);
    }
  }

  lemma {:induction false} EdgeOf(ranges: seq<Range>, range: Range)
    requires range in ranges
    ensures {range.section.0, range.section.1, range.window.0, range.window.1} <= set t | t in Edges(ranges)
  {
    var edges := Edges(ranges);
    if ranges[0] == range {
      assert edges[0] in edges && edges[1] in edges && edges[2] in edges && edges[3] in edges;
    } else {
      EdgeOf(ranges[1..], range);
      assert edges[4..] == Edges(ranges[1..]) && forall e :: e in edges[4..] ==> e in edges;
    }
  }

  /** Where controls are reset, exactly the ramps a timing offset has moved there are still under way: for any windows,
      the events left by them, offset in time and with the resets before them, hold a ramp that spans a boundary if and
      only if the events left by the windows hold one that spans the place the boundary comes from. Without an offset
      none does. */
  lemma {:induction false} RampsAtBoundaries(windows: seq<Window>, instrument: string, ranges: seq<Range>,
                                             events: seq<Event<Change>>, offset: int, end: nat,
                                             resets: seq<Event<Change>>, ticks: set<nat>,
                                             defaults: Key -> Option<Change>, key: Key, boundary: nat)
    requires AreRanges(ranges, windows, instrument) && Boundary(windows, instrument, boundary)
    requires Offset(ApplyWindows(events, ranges), offset, end).Some?
    requires AreResets(resets, ticks, Offset(ApplyWindows(events, ranges), offset, end).value, defaults)
    ensures var lane := resets + Offset(ApplyWindows(events, ranges), offset, end).value;
      && (SomeSpans(lane, key, boundary) <==> SpansOnceMoved(ApplyWindows(events, ranges), key, boundary, offset))
      && (offset == 0 ==> !SomeSpans(lane, key, boundary))
  {
    hide AreResets, ApplyWindows, Offset, Edges;
    var left := ApplyWindows(events, ranges);
    RampsCarryOver(resets, ticks, Offset(left, offset, end).value, defaults, key, boundary);
    OffsetSpans(left, offset, end, key, boundary);
    var section: Section :| Meet(windows, instrument, section).Some?
                            && boundary in Ends(section, Meet(windows, instrument, section).value);
    EdgeOf(ranges, Range(section, Meet(windows, instrument, section).value));
    WindowsEndRamps(events, ranges, key, boundary);
  }

  // A section of eight ticks whose first half is the window, and a ramp over all of it.
  const WINDOWS: seq<Window> := [Window("lead", 0, 8, 0, 4)]
  const RANGES: seq<Range> := [Range((0, 8), (0, 4))]
  const SWEEP: Event<Change> := Control(0, Parameter("cutoff"), Change(0.0, 1.0), 8)

  lemma {:induction false} SweepIsCut(piece: Ramp)
    requires piece in Segments(RampOf(SWEEP), RANGES)
    ensures piece.start < 5 && (piece.start <= 3 < piece.end ==> piece.start == 0 && piece.end == 4)
  {
    SegmentLies(RampOf(SWEEP), RANGES, piece);
    var edges := Edges(RANGES);
    assert edges == [0, 8, 0, 4] && edges[1] in edges && edges[3] in edges;
  }

  lemma {:induction false} OneRamp(event: Event<Change>, ranges: seq<Range>)
    requires event.Control? && event.duration > 0
    ensures var left, pieces := ApplyWindows([event], ranges), Segments(RampOf(event), ranges);
      && |left| == |pieces|
      && forall i :: 0 <= i < |left| ==>
           && left[i].Control? && left[i].key == event.key && left[i].tick == pieces[i].start
           && (pieces[i].start < pieces[i].end ==> left[i].duration == pieces[i].end - pieces[i].start)
  {
    hide Segments;
    var one := [event];
    assert one[1..] == [];
    assert ApplyWindows(one, ranges) == Windowed(event, ranges) + ApplyWindows([], ranges);
    assert ApplyWindows([], ranges) == [];
    var left, pieces := Windowed(event, ranges), Segments(RampOf(event), ranges);
    assert forall i :: 0 <= i < |left| ==> left[i] == EventOf(event.key, pieces[i]);
  }

  /** A score whose ramp goes on over a boundary, whatever the resets: an offset of one tick moves the ramp, cut at the
      end of its window, over the reset that is placed there. */
  lemma {:induction false} RampOverBoundary(resets: seq<Event<Change>>, ticks: set<nat>,
                                            defaults: Key -> Option<Change>)
    requires forall lane :: Offset(ApplyWindows([SWEEP], RANGES), 1, 8) == Some(lane) ==>
               AreResets(resets, ticks, lane, defaults)
    ensures AreRanges(RANGES, WINDOWS, "lead") && Boundary(WINDOWS, "lead", 4)
    ensures var moved := Offset(ApplyWindows([SWEEP], RANGES), 1, 8);
      moved.Some? && SomeSpans(resets + moved.value, Parameter("cutoff"), 4)
  {
    hide AreResets, Segments, Offset, ApplyWindows, Boundary, AreRanges;
    LeadRange();
    var left, pieces := ApplyWindows([SWEEP], RANGES), Segments(RampOf(SWEEP), RANGES);
    OneRamp(SWEEP, RANGES);
    forall event | event in left ensures event.tick < 5 {
      var i :| 0 <= i < |left| && left[i] == event;
      SweepIsCut(pieces[i]);
    }
    OffsetMovesAll(left, 1, 8);
    SegmentsKeepRamp(RampOf(SWEEP), RANGES, 3);
    var piece :| piece in pieces && piece.start <= 3 < piece.end;
    SweepIsCut(piece);
    var i :| 0 <= i < |pieces| && pieces[i] == piece;
    assert left[i] in left;
    RampsAtBoundaries(WINDOWS, "lead", RANGES, [SWEEP], 1, 8, resets, ticks, defaults, Parameter("cutoff"), 4);
  }

  lemma {:induction false} LeadRange()
    ensures AreRanges(RANGES, WINDOWS, "lead") && Boundary(WINDOWS, "lead", 4)
  {
    assert WINDOWS[..0] == [];
    assert forall section: Section :: Meet([], "lead", section) == None;
    assert forall section: Section ::
      Meet(WINDOWS, "lead", section) == if section == (0, 8) then Some((0, 4)) else None;
  }
}
