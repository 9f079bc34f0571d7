/** The parser itself: cursors over the bytes, queues of sounding notes and growing lists, proved against
    `SmfFormat.Parse`. */
module SmfParser {
  import opened Wrappers
  import opened Bytes
  import opened TickConversion
  import opened StableSort
  import opened SmfFormat
  import LyricMatching
  import VariableLength
  import SmfTracks

  type Queues = map<(nat, nat), seq<nat>>

  function QueueAt(queues: Queues, channel: nat, key: nat): seq<nat> {
    if (channel, key) in queues then queues[(channel, key)] else []
  }

  // Positions of the sounding notes of one channel and key, oldest first, counted from `base`.
  function Sounding(notes: seq<Placed>, channel: nat, key: nat, base: nat): seq<nat> {
    if notes == [] then []
    else
      var n := |notes| - 1;
      var before := Sounding(notes[..n], channel, key, base);
      if Sounds(notes[n], channel, key) then before + [base + n] else before
  }

  lemma {:induction false} SoundingMembers(notes: seq<Placed>, channel: nat, key: nat, base: nat)
    ensures forall i :: i in Sounding(notes, channel, key, base) ==>
      base <= i < base + |notes| && Sounds(notes[i - base], channel, key)
  {
    if notes != [] {
      SoundingMembers(notes[..|notes| - 1], channel, key, base);
    }
  }

  lemma {:induction false} SoundingAscends(notes: seq<Placed>, channel: nat, key: nat, base: nat, j: nat, k: nat)
    requires j < k < |Sounding(notes, channel, key, base)|
    ensures Sounding(notes, channel, key, base)[j] < Sounding(notes, channel, key, base)[k]
  {
    var front := notes[..|notes| - 1];
    SoundingMembers(front, channel, key, base);
    if k < |Sounding(front, channel, key, base)| {
      SoundingAscends(front, channel, key, base, j, k);
    } else {
      assert Sounding(front, channel, key, base)[j] in Sounding(front, channel, key, base);
    }
  }

  lemma {:induction false} SoundingHas(notes: seq<Placed>, channel: nat, key: nat, base: nat, i: nat)
    requires i < |notes| && Sounds(notes[i], channel, key)
    ensures base + i in Sounding(notes, channel, key, base)
  {
    if i < |notes| - 1 {
      SoundingHas(notes[..|notes| - 1], channel, key, base, i);
    }
  }

  lemma {:induction false} SoundingIsOldest(notes: seq<Placed>, channel: nat, key: nat, base: nat)
    ensures Oldest(notes, channel, key).None? <==> Sounding(notes, channel, key, base) == []
    ensures Oldest(notes, channel, key).Some? ==>
      Sounding(notes, channel, key, base)[0] == base + Oldest(notes, channel, key).value
  {
    SoundingMembers(notes, channel, key, base);
    OldestIsFirst(notes, channel, key);
    var s := Sounding(notes, channel, key, base);
    assert s != [] ==> s[0] in s;
    var oldest := Oldest(notes, channel, key);
    if oldest.Some? {
      SoundingHas(notes, channel, key, base, oldest.value);
      var j :| 0 <= j < |s| && s[j] == base + oldest.value;
      if 0 < j {
        SoundingAscends(notes, channel, key, base, 0, j);
      }
    }
  }

  lemma {:induction false} SoundingAppend(notes: seq<Placed>, note: Placed, channel: nat, key: nat, base: nat)
    ensures Sounding(notes + [note], channel, key, base) ==
            Sounding(notes, channel, key, base) + if Sounds(note, channel, key) then [base + |notes|] else []
  {
    assert (notes + [note])[..|notes|] == notes;
  }

  lemma {:induction false} SoundingWithout(notes: seq<Placed>, channel: nat, key: nat, base: nat, i: nat, note: Placed)
    requires i < |notes| && !note.open
    ensures !Sounds(notes[i], channel, key) ==>
      Sounding(notes[i := note], channel, key, base) == Sounding(notes, channel, key, base)
    ensures Oldest(notes, channel, key) == Some(i) ==>
      Sounding(notes, channel, key, base) != [] &&
      Sounding(notes[i := note], channel, key, base) == Sounding(notes, channel, key, base)[1..]
    decreases |notes|
  {
    var n := |notes| - 1;
    SoundingIsOldest(notes, channel, key, base);
    if i == n {
      assert notes[i := note][..n] == notes[..n];
      SoundingMembers(notes[..n], channel, key, base);
      var front := Sounding(notes[..n], channel, key, base);
      assert front != [] ==> front[0] in front;
    } else {
      assert notes[i := note][..n] == notes[..n][i := note];
      SoundingIsOldest(notes[..n], channel, key, base);
      SoundingWithout(notes[..n], channel, key, base, i, note);
    }
  }

  // The queues hold exactly the sounding notes, oldest first.
  ghost predicate Queued(queues: Queues, notes: seq<Placed>, base: nat) {
    forall channel: nat, key: nat :: QueueAt(queues, channel, key) == Sounding(notes, channel, key, base)
  }

  lemma {:induction false} PressQueued(queues: Queues, notes: seq<Placed>, base: nat, note: Placed)
    requires Queued(queues, notes, base) && note.open
    ensures var (c, k) := (note.note.channel, note.note.key);
      Queued(queues[(c, k) := QueueAt(queues, c, k) + [base + |notes|]], notes + [note], base)
  {
    forall channel: nat, key: nat {
      SoundingAppend(notes, note, channel, key, base);
    }
  }

  lemma {:induction false} ReleaseQueued(queues: Queues, notes: seq<Placed>, base: nat, channel: nat, key: nat, i: nat,
                                         note: Placed)
    requires Queued(queues, notes, base) && Oldest(notes, channel, key) == Some(i) && !note.open
    ensures var queue := QueueAt(queues, channel, key);
      queue != [] && queue[0] == base + i &&
      Queued(queues[(channel, key) := queue[1..]], notes[i := note], base)
  {
    SoundingIsOldest(notes, channel, key, base);
    OldestIsFirst(notes, channel, key);
    var queue, after := QueueAt(queues, channel, key), notes[i := note];
    var updated := queues[(channel, key) := queue[1..]];
    forall c: nat, k: nat ensures QueueAt(updated, c, k) == Sounding(after, c, k, base) {
      SoundingWithout(notes, c, k, base, i, note);
      assert QueueAt(queues, c, k) == Sounding(notes, c, k, base);
    }
  }

  lemma {:induction false} PressNotes(score: Score, index: nat, placed: seq<Placed>, note: Placed)
    ensures score.notes + NotesOf(placed + [note]) == score.notes + NotesOf(placed) + [note.note]
    ensures score.places + PlacesOf(index, placed + [note]) ==
            score.places + PlacesOf(index, placed) + [LyricMatching.Place(index, note.tick, note.order)]
  {
  }

  lemma {:induction false} ReleaseNotes(score: Score, index: nat, placed: seq<Placed>, i: nat, end: nat)
    requires i < |placed| && placed[i].note.start <= end
    ensures var (before, n) := (score.notes + NotesOf(placed), |score.notes| + i);
      && before[n] == placed[i].note
      && score.notes + NotesOf(placed[i := Close(placed[i], end)]) ==
           before[n := before[n].(duration := end - before[n].start)]
    ensures PlacesOf(index, placed[i := Close(placed[i], end)]) == PlacesOf(index, placed)
  {
  }

  lemma {:induction false} HasHead(s: seq<nat>)
    ensures s != [] ==> s[0] in s
  {
  }

  ghost predicate Visited(unvisited: set<(nat, nat)>, placed: Placed) {
    placed.open && (placed.note.channel, placed.note.key) !in unvisited
  }

  ghost function EndedUnless(unvisited: set<(nat, nat)>, placed: Placed, at: nat): Note {
    if Visited(unvisited, placed) then Ended(placed, at).note else placed.note
  }

  lemma {:induction false} SilentAfterEnd(notes: seq<Placed>, base: nat)
    requires forall i :: 0 <= i < |notes| ==> !notes[i].open
    ensures Queued(map[], notes, base)
  {
    forall c: nat, k: nat ensures Sounding(notes, c, k, base) == [] {
      SoundingMembers(notes, c, k, base);
      HasHead(Sounding(notes, c, k, base));
    }
  }

  // The notes of the track while its queues are being ended: `base` earlier notes, then the track's own.
  ghost predicate Ending(notes: seq<Note>, earlier: seq<Note>, before: seq<Placed>, unvisited: set<(nat, nat)>,
                         at: nat) {
    && |notes| == |earlier| + |before| && notes[..|earlier|] == earlier
    && (forall i: nat :: i < |before| ==> notes[|earlier| + i] == EndedUnless(unvisited, before[i], at))
    && (forall i: nat :: i < |before| && Visited(unvisited, before[i]) ==> before[i].note.start + 1 <= U64_MAX)
  }

  // The queue of one channel and key: exactly its sounding notes, in rising order.
  ghost predicate IsQueue(queue: seq<nat>, before: seq<Placed>, base: nat, pair: (nat, nat)) {
    && (forall i :: i in queue <==> base <= i < base + |before| && Sounds(before[i - base], pair.0, pair.1))
    && (forall i, j :: 0 <= i < j < |queue| ==> queue[i] < queue[j])
  }

  ghost predicate QueueEnded(listed: seq<Note>, notes: seq<Note>, queue: seq<nat>, before: seq<Placed>, base: nat,
                             at: nat) {
    && |listed| == |notes| == base + |before|
    && forall i :: 0 <= i < |notes| ==>
      notes[i] == if i in queue && base <= i then Ended(before[i - base], at).note else listed[i]
  }

  ghost predicate Endable(queue: seq<nat>, before: seq<Placed>, base: nat) {
    forall i :: i in queue && base <= i < base + |before| ==> before[i - base].note.start + 1 <= U64_MAX
  }

  ghost predicate StillListed(listed: seq<Note>, queue: seq<nat>, before: seq<Placed>, base: nat) {
    |listed| == base + |before| &&
    forall i :: i in queue && base <= i < base + |before| ==> listed[i] == before[i - base].note
  }

  lemma {:induction false} VisitedOne(notes: seq<Note>, next: seq<Note>, earlier: seq<Note>, before: seq<Placed>,
                                      unvisited: set<(nat, nat)>, at: nat, pair: (nat, nat), queue: seq<nat>)
    requires Ending(notes, earlier, before, unvisited, at) && pair in unvisited
    requires IsQueue(queue, before, |earlier|, pair) && Endable(queue, before, |earlier|)
    requires QueueEnded(notes, next, queue, before, |earlier|, at)
    ensures Ending(next, earlier, before, unvisited - {pair}, at)
  {
    forall i: nat | i < |before|
      ensures next[|earlier| + i] == EndedUnless(unvisited - {pair}, before[i], at)
      ensures Visited(unvisited - {pair}, before[i]) ==> before[i].note.start + 1 <= U64_MAX
    {
      assert Sounds(before[i], pair.0, pair.1) <==> |earlier| + i in queue;
    }
  }

  lemma {:induction false} NoneVisited(notes: seq<Note>, earlier: seq<Note>, before: seq<Placed>, queues: Queues,
                                       at: nat)
    requires notes == earlier + NotesOf(before) && Queued(queues, before, |earlier|)
    ensures Ending(notes, earlier, before, queues.Keys, at)
  {
    forall i: nat | i < |before| && before[i].open
      ensures (before[i].note.channel, before[i].note.key) in queues
    {
      SoundingHas(before, before[i].note.channel, before[i].note.key, |earlier|, i);
    }
  }

  lemma {:induction false} NotEndable(queue: seq<nat>, before: seq<Placed>, base: nat, pair: (nat, nat), at: nat)
    requires IsQueue(queue, before, base, pair) && !Endable(queue, before, base)
    ensures EndNotes(before, at).None?
  {
    var i :| i in queue && base <= i < base + |before| && before[i - base].note.start + 1 > U64_MAX;
    assert Sounds(before[i - base], pair.0, pair.1);
  }

  lemma {:induction false} NotVisitedYet(notes: seq<Note>, earlier: seq<Note>, before: seq<Placed>,
                                         unvisited: set<(nat, nat)>, at: nat, pair: (nat, nat), queue: seq<nat>)
    requires Ending(notes, earlier, before, unvisited, at) && pair in unvisited
    requires IsQueue(queue, before, |earlier|, pair)
    ensures StillListed(notes, queue, before, |earlier|)
  {
    forall i | i in queue && |earlier| <= i < |earlier| + |before| ensures notes[i] == before[i - |earlier|].note {
      var j: nat := i - |earlier|;
      assert notes[|earlier| + j] == EndedUnless(unvisited, before[j], at);
    }
  }

  lemma {:induction false} AllVisited(notes: seq<Note>, earlier: seq<Note>, before: seq<Placed>, queues: Queues,
                                      at: nat)
    requires Queued(queues, before, |earlier|) && Ending(notes, earlier, before, {}, at)
    ensures EndNotes(before, at).Some? && notes == earlier + NotesOf(EndNotes(before, at).value)
  {
    forall i: nat | i < |before| && before[i].open ensures before[i].note.start + 1 <= U64_MAX {
      assert Visited({}, before[i]);
    }
    var ended := EndNotes(before, at).value;
    forall i: nat | i < |before| ensures notes[|earlier| + i] == ended[i].note {
      assert Visited({}, before[i]) == before[i].open;
    }
    assert notes == earlier + notes[|earlier|..];
  }

  lemma {:induction false} VisitQueue(queues: Queues, notes: seq<Placed>, base: nat, channel: nat, key: nat)
    requires Queued(queues, notes, base) && (channel, key) in queues
    ensures IsQueue(queues[(channel, key)], notes, base, (channel, key))
  {
    assert queues[(channel, key)] == QueueAt(queues, channel, key) == Sounding(notes, channel, key, base);
    SoundingMembers(notes, channel, key, base);
    forall i | base <= i < base + |notes| && Sounds(notes[i - base], channel, key) ensures i in queues[(channel, key)] {
      SoundingHas(notes, channel, key, base, i - base);
    }
    forall i, j | 0 <= i < j < |queues[(channel, key)]| ensures queues[(channel, key)][i] < queues[(channel, key)][j] {
      SoundingAscends(notes, channel, key, base, i, j);
    }
  }

  // Ends the notes still sounding, in whatever order the queues are visited.
  method EndQueues(listed: seq<Note>, queues: Queues, at: nat, ghost earlier: seq<Note>, ghost before: seq<Placed>)
      returns (ok: bool, notes: seq<Note>)
    requires listed == earlier + NotesOf(before) && Queued(queues, before, |earlier|)
    ensures ok == EndNotes(before, at).Some?
    ensures ok ==> notes == earlier + NotesOf(EndNotes(before, at).value)
  {
    notes := listed;
    var unvisited := queues.Keys;
    NoneVisited(listed, earlier, before, queues, at);
    while unvisited != {}
      invariant unvisited <= queues.Keys
      invariant Ending(notes, earlier, before, unvisited, at)
    {
      var pair :| pair in unvisited;
      VisitQueue(queues, before, |earlier|, pair.0, pair.1);
      ghost var previous := notes;
      NotVisitedYet(notes, earlier, before, unvisited, at, pair, queues[pair]);
      ok, notes := EndQueue(notes, queues[pair], at, earlier, before, pair);
      if !ok {
        NotEndable(queues[pair], before, |earlier|, pair, at);
        return;
      }
      VisitedOne(previous, notes, earlier, before, unvisited, at, pair, queues[pair]);
      unvisited := unvisited - {pair};
    }
    AllVisited(notes, earlier, before, queues, at);
    return true, notes;
  }

  method EndQueue(listed: seq<Note>, queue: seq<nat>, at: nat, ghost earlier: seq<Note>, ghost before: seq<Placed>,
                  ghost pair: (nat, nat)) returns (ok: bool, notes: seq<Note>)
    requires IsQueue(queue, before, |earlier|, pair) && StillListed(listed, queue, before, |earlier|)
    ensures ok <==> Endable(queue, before, |earlier|)
    ensures ok ==> QueueEnded(listed, notes, queue, before, |earlier|, at)
  {
    notes := listed;
    forall j | 0 <= j < |queue| ensures |earlier| <= queue[j] < |listed|
        && listed[queue[j]] == before[queue[j] - |earlier|].note {
      assert queue[j] in queue;
    }
    for n := 0 to |queue|
      invariant |notes| == |listed|
      invariant forall j :: 0 <= j < n ==> listed[queue[j]].start + 1 <= U64_MAX
      invariant forall j :: 0 <= j < n ==> notes[queue[j]] == Ended(before[queue[j] - |earlier|], at).note
      invariant forall i :: 0 <= i < |notes| && (forall j :: 0 <= j < n ==> queue[j] != i) ==> notes[i] == listed[i]
    {
      var index := queue[n];
      assert index in queue;
      var start := notes[index].start;
      if start + 1 > U64_MAX {
        return false, notes;
      }
      notes := notes[index := notes[index].(duration := Max(at, start + 1) - start)];
    }
    return true, notes;
  }

  // The lists hold the earlier tracks and the current one, and the queues its sounding notes.
  ghost predicate Holds(listed: Score, queues: Queues, tick: nat, order: nat, track: nat, earlier: Score,
                        current: Track) {
    && |earlier.places| == |earlier.notes|
    && listed == AddTrack(earlier, track, current)
    && Queued(queues, current.notes, |earlier.notes|)
    && tick == current.tick && order == current.order
  }

  lemma {:induction false} ReleaseHolds(listed: Score, queues: Queues, tick: nat, order: nat, track: nat,
                                        earlier: Score, current: Track, channel: nat, key: nat, at: nat)
    requires Holds(listed, queues, tick, order, track, earlier, current)
    ensures var queue, next := QueueAt(queues, channel, key), Release(current, channel, key, at);
      if queue == [] then next == Some(current)
      else
        queue[0] < |listed.notes| &&
        var start, end := listed.notes[queue[0]].start, Max(at, listed.notes[queue[0]].start + 1);
        if start + 1 > U64_MAX then next.None?
        else next.Some? && Holds(ReleasedIn(listed, queue[0], end), queues[(channel, key) := queue[1..]], tick, order,
                                 track, earlier, next.value)
  {
    hide Oldest, Queued;
    SoundingIsOldest(current.notes, channel, key, |earlier.notes|);
    QueueIsSounding(queues, current.notes, |earlier.notes|, channel, key);
    if Oldest(current.notes, channel, key).Some? {
      var i := Oldest(current.notes, channel, key).value;
      var start := current.notes[i].note.start;
      var end := Max(at, start + 1);
      ReleaseNotes(earlier, track, current.notes, i, end);
      ReleaseQueued(queues, current.notes, |earlier.notes|, channel, key, i, Close(current.notes[i], end));
    }
  }

  lemma {:induction false} PressHolds(listed: Score, queues: Queues, tick: nat, order: nat, track: nat, earlier: Score,
                                      current: Track, channel: nat, key: nat, velocity: nat, at: nat)
    requires Holds(listed, queues, tick, order, track, earlier, current)
    ensures var queue := QueueAt(queues, channel, key) + [|listed.notes|];
      Holds(listed.(notes := listed.notes + [Note(key, at, 1, Max(velocity, 1), channel, None)],
                    places := listed.places + [LyricMatching.Place(track, tick, order)]),
            queues[(channel, key) := queue], tick, order, track, earlier, Press(current, channel, key, velocity, at))
  {
    hide Queued;
    var note := Placed(tick, order, Note(key, at, 1, Max(velocity, 1), channel, None), true);
    PressNotes(earlier, track, current.notes, note);
    PressQueued(queues, current.notes, |earlier.notes|, note);
  }

  lemma {:induction false} MoveHolds(listed: Score, queues: Queues, tick: nat, order: nat, track: nat, earlier: Score,
                                     current: Track, delta: nat, at: nat)
    requires Holds(listed, queues, tick, order, track, earlier, current)
    ensures Holds(listed.(last := Max(listed.last, at)), queues, tick + delta, order + 1, track, earlier,
                  current.(tick := tick + delta, order := order + 1, last := Max(current.last, at)))
  {
    hide Queued;
  }

  lemma {:induction false} SingHolds(listed: Score, queues: Queues, tick: nat, order: nat, track: nat, earlier: Score,
                                     current: Track, text: bytes)
    requires Holds(listed, queues, tick, order, track, earlier, current)
    ensures Holds(listed.(lyrics := listed.lyrics + [LyricMatching.Lyric(track, tick, order, text)]), queues, tick,
                  order, track, earlier,
                  current.(sung := current.sung + [Sung(tick, order, text)]))
  {
    hide Queued;
    assert LyricsOf(track, current.sung + [Sung(tick, order, text)]) ==
           LyricsOf(track, current.sung) + [LyricMatching.Lyric(track, tick, order, text)];
  }

  lemma {:induction false} ControlHolds(listed: Score, queues: Queues, tick: nat, order: nat, track: nat,
                                        earlier: Score, current: Track, control: Control)
    requires Holds(listed, queues, tick, order, track, earlier, current)
    ensures Holds(listed.(controls := listed.controls + [control]), queues, tick, order, track, earlier,
                  current.(controls := current.controls + [control]))
  {
    hide Queued;
  }

  lemma {:induction false} QueueIsSounding(queues: Queues, notes: seq<Placed>, base: nat, channel: nat, key: nat)
    requires Queued(queues, notes, base)
    ensures QueueAt(queues, channel, key) == Sounding(notes, channel, key, base)
  {
  }

  function ReleasedIn(listed: Score, index: nat, end: nat): Score
    requires index < |listed.notes| && listed.notes[index].start <= end
  {
    var note := listed.notes[index];
    listed.(notes := listed.notes[index := note.(duration := end - note.start)], last := Max(listed.last, end))
  }

  // The lists being filled while a file is read.
  class Reader {
    var notes: seq<Note>
    var places: seq<LyricMatching.Place>
    var lyrics: seq<LyricMatching.Lyric>
    var controls: seq<Control>
    var lastTick: nat
    var track: nat
    var noteStarts: Queues
    var tick: nat
    var eventOrder: nat
    ghost var earlier: Score
    ghost var current: Track

    ghost predicate Valid()
      reads this
    {
      Holds(Listed(), noteStarts, tick, eventOrder, track, earlier, current)
    }

    ghost function Listed(): Score
      reads this
    {
      Score(notes, places, lyrics, controls, lastTick)
    }

    constructor ()
      ensures Valid() && earlier == SILENCE && current == START && track == 0
    {
      notes, places, lyrics, controls, lastTick := [], [], [], [], 0;
      track, noteStarts, tick, eventOrder := 0, map[], 0, 0;
      earlier, current := SILENCE, START;
    }

    method BeginTrack(index: nat)
      requires Valid()
      modifies this
      ensures Valid() && track == index && current == START
      ensures earlier == old(Score(notes, places, lyrics, controls, lastTick))
    {
      earlier := Score(notes, places, lyrics, controls, lastTick);
      current := START;
      track, noteStarts, tick, eventOrder := index, map[], 0, 0;
    }

    method NoteOn(channel: nat, key: nat, velocity: nat, at: nat)
      requires Valid()
      modifies this
      ensures Valid() && earlier == old(earlier) && track == old(track)
      ensures current == Press(old(current), channel, key, velocity, at)
    {
      hide Holds;
      PressHolds(Listed(), noteStarts, tick, eventOrder, track, earlier, current, channel, key, velocity, at);
      var index := |notes|;
      notes := notes + [Note(key, at, 1, Max(velocity, 1), channel, None)];
      places := places + [LyricMatching.Place(track, tick, eventOrder)];
      noteStarts := noteStarts[(channel, key) := QueueAt(noteStarts, channel, key) + [index]];
      current := Press(current, channel, key, velocity, at);
    }

    method NoteOff(channel: nat, key: nat, at: nat) returns (ok: bool)
      requires Valid()
      modifies this
      ensures ok == Release(old(current), channel, key, at).Some?
      ensures ok ==> Valid() && current == Release(old(current), channel, key, at).value
      ensures earlier == old(earlier) && track == old(track)
    {
      hide Holds, Release;
      ReleaseHolds(Listed(), noteStarts, tick, eventOrder, track, earlier, current, channel, key, at);
      var queue := QueueAt(noteStarts, channel, key);
      if queue == [] {
        return true;
      }
      var index := queue[0];
      var start := notes[index].start;
      if start + 1 > U64_MAX {
        return false;
      }
      var end := Max(at, start + 1);
      current := Release(current, channel, key, at).value;
      noteStarts := noteStarts[(channel, key) := queue[1..]];
      notes := notes[index := notes[index].(duration := end - start)];
      lastTick := Max(lastTick, end);
      return true;
    }

    lemma {:induction false} ValidMoves()
      requires Valid()
      ensures tick == current.tick && eventOrder == current.order
    {
    }

    method Receive(scale: Scale, delta: nat, event: Event) returns (ok: bool)
      requires Valid()
      modifies this
      ensures ok == Advance(old(current), scale, delta, event).Some?
      ensures ok ==> Valid() && current == Advance(old(current), scale, delta, event).value
      ensures earlier == old(earlier) && track == old(track)
    {
      hide Holds, Release, Press, IsUtf8;
      ValidMoves();
      eventOrder := eventOrder + 1;
      if tick + delta > U64_MAX {
        return false;
      }
      tick := tick + delta;
      var converted := Convert(tick, scale.source, scale.target);
      if converted.None? {
        return false;
      }
      var at := converted.value;
      MoveHolds(old(Listed()), noteStarts, old(tick), old(eventOrder), track, earlier, current, delta, at);
      lastTick := Max(lastTick, at);
      current := current.(tick := tick, order := eventOrder, last := Max(current.last, at));
      match event
      case System => return true;
      case Meta(kind, data) =>
        if kind == LYRIC && IsUtf8(data) {
          SingHolds(Listed(), noteStarts, tick, eventOrder, track, earlier, current, data);
          lyrics := lyrics + [LyricMatching.Lyric(track, tick, eventOrder, data)];
          current := current.(sung := current.sung + [Sung(tick, eventOrder, data)]);
        }
        return true;
      case Channel(command, channel, data1, data2) =>
        if command == 0x8 || (command == 0x9 && data2 == 0) {
          ok := NoteOff(channel, data1, at);
        } else if command == 0x9 {
          NoteOn(channel, data1, data2, at);
          ok := true;
        } else {
          var kind := KindOf(command);
          if kind.Some? {
            ControlHolds(Listed(), noteStarts, tick, eventOrder, track, earlier, current,
                         Control(kind.value, at, channel, data1, data2));
            controls := controls + [Control(kind.value, at, channel, data1, data2)];
            current := current.(controls := current.controls + [Control(kind.value, at, channel, data1, data2)]);
          }
          ok := true;
        }
    }

    method EndTrack(scale: Scale) returns (ok: bool)
      requires Valid()
      modifies this
      ensures ok == Finish(old(current), scale).Some?
      ensures ok ==> Valid() && current == Finish(old(current), scale).value
      ensures earlier == old(earlier) && track == old(track)
    {
      var converted := Convert(tick, scale.source, scale.target);
      if converted.None? {
        return false;
      }
      ok, notes := EndQueues(notes, noteStarts, converted.value, earlier.notes, current.notes);
      if ok {
        current := current.(notes := EndNotes(current.notes, converted.value).value);
        noteStarts := map[];
        assert PlacesOf(track, current.notes) == PlacesOf(track, old(current.notes));
        SilentAfterEnd(current.notes, |earlier.notes|);
      }
    }
  }

  method ReadPayload(input: bytes, start: nat) returns (r: Option<(bytes, nat)>)
    requires start <= |input|
    ensures r.Some? <==> Payload(input[start..]).Some?
    ensures r.Some? ==> start <= r.value.1 <= |input|
    ensures r.Some? ==>
      Payload(input[start..]) == Some((r.value.0, input[r.value.1..]))
  {
    var length := VariableLength.ReadVlq(input, start);
    if length.None? {
      return None;
    }
    var (n, dataStart) := length.value;
    if dataStart + n > |input| {
      return None;
    }
    assert input[dataStart..][..n] == input[dataStart..dataStart + n];
    assert input[dataStart..][n..] == input[dataStart + n..];
    return Some((input[dataStart..dataStart + n], dataStart + n));
  }

  method ReadEvent(input: bytes, start: nat, runningStatus: nat) returns (r: Option<(Event, nat, nat)>)
    requires start <= |input|
    ensures r.Some? <==> DecodeEvent(input[start..], runningStatus).Some?
    ensures r.Some? ==> start <= r.value.1 <= |input|
    ensures r.Some? ==>
      DecodeEvent(input[start..], runningStatus) == Some(Decoded(r.value.0, input[r.value.1..], r.value.2))
  {
    if start >= |input| {
      return None;
    }
    var cursor, running := start, runningStatus;
    var status: nat := input[cursor];
    if status >= 0x80 {
      cursor := cursor + 1;
      if status < 0xf0 {
        running := status;
      }
    } else if runningStatus >= 0x80 {
      status := runningStatus;
    } else {
      return None;
    }
    ghost var body := if input[start] >= 0x80 then input[start..][1..] else input[start..];
    assert input[cursor..] == body;
    if status == META_STATUS {
      if cursor >= |input| {
        return None;
      }
      assert input[cursor..][1..] == input[cursor + 1..];
      var payload := ReadPayload(input, cursor + 1);
      if payload.None? {
        return None;
      }
      return Some((Meta(input[cursor], payload.value.0), payload.value.1, running));
    }
    if status == 0xf0 || status == 0xf7 {
      var payload := ReadPayload(input, cursor);
      if payload.None? {
        return None;
      }
      return Some((System, payload.value.1, running));
    }
    r := ReadChannel(input, cursor, status, running);
  }

  method ReadChannel(input: bytes, start: nat, status: nat, running: nat) returns (r: Option<(Event, nat, nat)>)
    requires start <= |input|
    ensures r.Some? <==> DecodeChannel(status, input[start..], running).Some?
    ensures r.Some? ==> start <= r.value.1 <= |input|
    ensures r.Some? ==>
      DecodeChannel(status, input[start..], running) == Some(Decoded(r.value.0, input[r.value.1..], r.value.2))
  {
    var command, channel := status / 16, status % 16 + 1;
    if start >= |input| {
      return None;
    }
    var data1 := input[start];
    assert input[start..][1..] == input[start + 1..];
    if command == 0xc || command == 0xd {
      return Some((Channel(command, channel, data1, 0), start + 1, running));
    }
    if start + 1 >= |input| {
      return None;
    }
    assert input[start..][2..] == input[start + 2..];
    return Some((Channel(command, channel, data1, input[start + 1]), start + 2, running));
  }

  method ReadTrack(reader: Reader, index: nat, input: bytes, start: nat, scale: Scale) returns (ok: bool)
    requires reader.Valid() && start <= |input|
    modifies reader
    ensures ok == ParseTrack(input[start..], scale).Some?
    ensures ok ==> reader.Valid() && reader.track == index
    ensures ok ==> reader.current == ParseTrack(input[start..], scale).value
    ensures ok ==> reader.earlier == old(AddTrack(reader.earlier, reader.track, reader.current))
  {
    reader.BeginTrack(index);
    ghost var earlier := reader.earlier;
    var cursor, runningStatus: nat := start, 0;
    while cursor < |input|
      invariant reader.Valid() && reader.track == index && reader.earlier == earlier
      invariant start <= cursor <= |input|
      invariant Run(reader.current, scale, input[cursor..], runningStatus) == Run(START, scale, input[start..], 0)
    {
      var delta := VariableLength.ReadVlq(input, cursor);
      if delta.None? {
        return false;
      }
      var event := ReadEvent(input, delta.value.1, runningStatus);
      if event.None? {
        return false;
      }
      ok := reader.Receive(scale, delta.value.0, event.value.0);
      if !ok {
        return;
      }
      cursor, runningStatus := event.value.1, event.value.2;
    }
    ok := reader.EndTrack(scale);
  }

  ghost function Prepend(done: seq<Track>, rest: Option<seq<Track>>): Option<seq<Track>> {
    if rest.None? then None else Some(done + rest.value)
  }

  // What is left to parse, after the tracks already done, still makes up the whole.
  ghost predicate Remaining(all: Option<seq<Track>>, done: seq<Track>, rest: bytes, count: nat, scale: Scale) {
    all == Prepend(done, ParseTracks(rest, count, scale))
  }

  lemma {:induction false} NothingDone(rest: bytes, count: nat, scale: Scale)
    ensures Remaining(ParseTracks(rest, count, scale), [], rest, count, scale)
  {
    var all := ParseTracks(rest, count, scale);
    assert all.Some? ==> [] + all.value == all.value;
  }

  lemma {:induction false} OneDone(all: Option<seq<Track>>, done: seq<Track>, rest: bytes, count: nat, scale: Scale)
    requires Remaining(all, done, rest, count, scale) && count > 0
    requires Chunk(rest).Some? && ParseTrack(Chunk(rest).value.0, scale).Some?
    ensures Remaining(all, done + [ParseTrack(Chunk(rest).value.0, scale).value], Chunk(rest).value.1, count - 1, scale)
  {
    var track, tracks := ParseTrack(Chunk(rest).value.0, scale).value,
        ParseTracks(Chunk(rest).value.1, count - 1, scale);
    if tracks.Some? {
      assert done + ([track] + tracks.value) == done + [track] + tracks.value;
    }
  }

  lemma {:induction false} AllDone(all: Option<seq<Track>>, done: seq<Track>, rest: bytes, scale: Scale)
    requires Remaining(all, done, rest, 0, scale)
    ensures all == Some(done)
  {
    assert done + [] == done;
  }

  lemma {:induction false} Undone(all: Option<seq<Track>>, done: seq<Track>, rest: bytes, count: nat, scale: Scale)
    requires Remaining(all, done, rest, count, scale) && count > 0
    requires Chunk(rest).None? || ParseTrack(Chunk(rest).value.0, scale).None?
    ensures all.None?
  {
  }

  lemma {:induction false} NoChunkAt(input: bytes, cursor: nat)
    requires cursor <= |input|
    requires cursor + 8 <= |input| && input[cursor..cursor + 4] == TRACK_TAG ==>
      cursor + 8 + FromBe32(input[cursor + 4..cursor + 8]) > |input|
    ensures Chunk(input[cursor..]).None?
  {
    var rest := input[cursor..];
    if |rest| >= 8 {
      assert rest[..4] == input[cursor..cursor + 4] && rest[4..8] == input[cursor + 4..cursor + 8];
    }
  }

  lemma {:induction false} ChunkAt(input: bytes, cursor: nat, trackEnd: nat)
    requires cursor + 8 <= trackEnd <= |input| && input[cursor..cursor + 4] == TRACK_TAG
    requires trackEnd == cursor + 8 + FromBe32(input[cursor + 4..cursor + 8])
    ensures Chunk(input[cursor..]) == Some((input[..trackEnd][cursor + 8..], input[trackEnd..]))
  {
    var rest := input[cursor..];
    assert rest[..4] == input[cursor..cursor + 4] && rest[4..8] == input[cursor + 4..cursor + 8];
    var length := FromBe32(rest[4..8]);
    assert rest[8..8 + length] == input[..trackEnd][cursor + 8..];
    assert rest[8 + length..] == input[trackEnd..];
  }

  // One chunk: its header, then the track it holds.
  method ReadChunk(reader: Reader, index: nat, input: bytes, cursor: nat, scale: Scale) returns (r: Option<nat>)
    requires reader.Valid() && cursor <= |input|
    modifies reader
    ensures r.Some? <==> Chunk(input[cursor..]).Some? && ParseTrack(Chunk(input[cursor..]).value.0, scale).Some?
    ensures r.Some? ==> r.value <= |input| && Chunk(input[cursor..]).value.1 == input[r.value..]
    ensures r.Some? ==> reader.Valid() && reader.track == index
    ensures r.Some? ==> reader.current == ParseTrack(Chunk(input[cursor..]).value.0, scale).value
    ensures r.Some? ==> reader.earlier == old(AddTrack(reader.earlier, reader.track, reader.current))
  {
    if cursor + 8 > |input| || input[cursor..cursor + 4] != TRACK_TAG {
      NoChunkAt(input, cursor);
      return None;
    }
    var trackLength := FromBe32(input[cursor + 4..cursor + 8]);
    var trackEnd := cursor + 8 + trackLength;
    if trackEnd > |input| {
      NoChunkAt(input, cursor);
      return None;
    }
    ChunkAt(input, cursor, trackEnd);
    var ok := ReadTrack(reader, index, input[..trackEnd], cursor + 8, scale);
    return if ok then Some(trackEnd) else None;
  }

  method ReadTracks(reader: Reader, input: bytes, start: nat, trackCount: nat, scale: Scale)
      returns (ok: bool, ghost done: seq<Track>)
    requires reader.Valid() && AddTrack(reader.earlier, reader.track, reader.current) == SILENCE
    requires start <= |input|
    modifies reader
    ensures ok == ParseTracks(input[start..], trackCount, scale).Some?
    ensures ok ==> done == ParseTracks(input[start..], trackCount, scale).value
    ensures ok ==> Score(reader.notes, reader.places, reader.lyrics, reader.controls, reader.lastTick) == Gather(done)
    ensures ok ==> LyricMatching.Distinct(reader.places)
  {
    hide Gather, ParseTracks, ParseTrack, Chunk, Remaining, AddTrack, SmfTracks.Ordered;
    var cursor: nat := start;
    ghost var rest := input[start..];
    ghost var all := ParseTracks(rest, trackCount, scale);
    ghost var left: nat := trackCount;
    done := [];
    NothingDone(rest, left, scale);
    NothingGathered();
    for trackIndex := 0 to trackCount
      invariant reader.Valid() && |done| == trackIndex
      invariant 0 <= cursor <= |input| && rest == input[cursor..] && left == trackCount - trackIndex
      invariant forall t :: t in done ==> SmfTracks.Ordered(t)
      invariant AddTrack(reader.earlier, reader.track, reader.current) == Gather(done)
      invariant Remaining(all, done, rest, left, scale)
    {
      var end := ReadChunk(reader, trackIndex, input, cursor, scale);
      if end.None? {
        Undone(all, done, rest, left, scale);
        return false, done;
      }
      OneDone(all, done, rest, left, scale);
      SmfTracks.ParsedIsOrdered(Chunk(rest).value.0, scale);
      GatherNext(done, reader.current);
      cursor := end.value;
      done, rest, left := done + [reader.current], input[cursor..], left - 1;
    }
    AllDone(all, done, rest, scale);
    SmfTracks.PlacesDistinct(done);
    return true, done;
  }

  method ReadHeader(input: bytes) returns (r: Option<Header>)
    ensures r == ParseHeader(input)
  {
    if |input| < 14 || input[..4] != HEADER_TAG {
      return None;
    }
    var headerLength := FromBe32(input[4..8]);
    if headerLength < 6 || 8 + headerLength > |input| {
      return None;
    }
    var trackCount := FromBe16(input[10..12]);
    var sourcePpq := FromBe16(input[12..14]);
    if sourcePpq == 0 || sourcePpq >= 0x8000 || trackCount == 0 {
      return None;
    }
    return Some(Header(headerLength, trackCount, sourcePpq));
  }

  lemma {:induction false} NotParsed(input: bytes, target: Option<nat>)
    requires ParseHeader(input).Some? && target.GetOr(ParseHeader(input).value.ppq) > 0 ==>
      var header := ParseHeader(input).value;
      ParseTracks(input[8 + header.length..], header.tracks, Scale(header.ppq, target.GetOr(header.ppq))).None?
    ensures Parse(input, target) == None
  {
  }

  lemma {:induction false} ParsedAs(input: bytes, target: Option<nat>, header: Header, tracks: seq<Track>, score: Score,
                                    words: LyricMatching.Words)
    requires ParseHeader(input) == Some(header) && target.GetOr(header.ppq) > 0
    requires ParseTracks(input[8 + header.length..], header.tracks, Scale(header.ppq, target.GetOr(header.ppq))) ==
             Some(tracks)
    requires score == Gather(tracks) && |score.notes| == |score.places|
    requires words == LyricMatching.Matched(score.places, LyricMatching.Unassigned(|score.places|), score.lyrics)
    ensures Parse(input, target) ==
            Some(Parsed(Duration(score), Sort(WithLyrics(score.notes, words), ByStart), Sort(score.controls, ByTick)))
  {
    hide ParseHeader, ParseTracks, Gather, Sort, Duration, LyricMatching.Matched;
  }

  method ParseSmf(input: bytes, target: Option<nat>) returns (r: Option<Parsed>)
    ensures r == Parse(input, target)
  {
    hide Parse, ParseHeader, ParseTracks, Gather, Sort, Duration, LyricMatching.Matched;
    var header := ReadHeader(input);
    if header.None? {
      NotParsed(input, target);
      return None;
    }
    var Header(length, trackCount, sourcePpq) := header.value;
    var targetPpq := target.GetOr(sourcePpq);
    if targetPpq == 0 {
      NotParsed(input, target);
      return None;
    }
    var reader := new Reader();
    BeginSilent();
    ghost var tracks;
    var ok;
    ok, tracks := ReadTracks(reader, input, 8 + length, trackCount, Scale(sourcePpq, targetPpq));
    if !ok {
      NotParsed(input, target);
      return None;
    }
    GatherSizes(tracks);
    var words := LyricMatching.MatchLyrics(reader.places, reader.lyrics);
    var duration := Duration(Score(reader.notes, reader.places, reader.lyrics, reader.controls, reader.lastTick));
    ParsedAs(input, target, header.value, tracks, Gather(tracks), words);
    return Some(Parsed(duration, Sort(WithLyrics(reader.notes, words), ByStart), Sort(reader.controls, ByTick)));
  }

  lemma {:induction false} NothingGathered()
    ensures Gather([]) == SILENCE
  {
  }

  lemma {:induction false} BeginSilent()
    ensures AddTrack(SILENCE, 0, START) == SILENCE
  {
  }

  lemma {:induction false} GatherNext(tracks: seq<Track>, track: Track)
    ensures Gather(tracks + [track]) == AddTrack(Gather(tracks), |tracks|, track)
  {
    assert (tracks + [track])[..|tracks|] == tracks;
  }
}
