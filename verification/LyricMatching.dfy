/** Matching lyrics to notes: a direct search rule, and the constant-time count-and-XOR index that refines it. */
module LyricMatching {
  import opened Wrappers
  import opened Bytes

  // Where a note-on event stands: its track, its source tick and its event number in the track.
  datatype Place = Place(track: nat, tick: nat, order: nat)

  datatype Lyric = Lyric(track: nat, tick: nat, order: nat, text: bytes)

  // The lyric given to each note so far.
  type Words = seq<Option<bytes>>

  // Notes that compete for a lyric.
  datatype Group = AtTrack(track: nat, tick: nat) | AtTick(at: nat)

  ghost predicate Distinct(places: seq<Place>) {
    forall i, j :: 0 <= i < j < |places| ==> places[i] != places[j]
  }

  predicate Belongs(place: Place, group: Group) {
    match group
    case AtTrack(track, tick) => place.track == track && place.tick == tick
    case AtTick(tick) => place.tick == tick
  }

  predicate Candidate(places: seq<Place>, words: Words, group: Group, i: nat)
    requires |words| == |places|
  {
    i < |places| && words[i].None? && Belongs(places[i], group)
  }

  ghost predicate OnlyCandidate(places: seq<Place>, words: Words, group: Group, i: nat)
    requires |words| == |places|
  {
    Candidate(places, words, group, i) && forall j :: Candidate(places, words, group, j) ==> j == i
  }

  predicate Follows(places: seq<Place>, words: Words, lyric: Lyric, i: nat)
    requires |words| == |places|
  {
    i < |places| && words[i].None? && places[i] == Place(lyric.track, lyric.tick, lyric.order + 1)
  }

  // Direct rule: the next event when it is a note without a lyric; otherwise the only candidate of the same
  // track and tick; otherwise, if that track has no candidate, the only candidate of the tick.
  ghost predicate Takes(places: seq<Place>, words: Words, lyric: Lyric, i: nat)
    requires |words| == |places|
  {
    var local := AtTrack(lyric.track, lyric.tick);
    if exists j :: Follows(places, words, lyric, j) then Follows(places, words, lyric, i)
    else if exists j :: Candidate(places, words, local, j) then OnlyCandidate(places, words, local, i)
    else OnlyCandidate(places, words, AtTick(lyric.tick), i)
  }

  lemma {:induction false} TakesAtMostOne(places: seq<Place>, words: Words, lyric: Lyric, i: nat, j: nat)
    requires |words| == |places| && Distinct(places)
    requires Takes(places, words, lyric, i) && Takes(places, words, lyric, j)
    ensures i == j && words[i].None? && places[i].tick == lyric.tick
  {
  }

  ghost function Give(places: seq<Place>, words: Words, lyric: Lyric): (r: Words)
    requires |words| == |places|
    ensures |r| == |words|
  {
    if i: nat :| Takes(places, words, lyric, i) then words[i := Some(lyric.text)] else words
  }

  lemma {:induction false} GiveTaken(places: seq<Place>, words: Words, lyric: Lyric, i: nat)
    requires |words| == |places| && Distinct(places) && i < |places| && Takes(places, words, lyric, i)
    ensures Give(places, words, lyric) == words[i := Some(lyric.text)]
    ensures words[i].None? && places[i].tick == lyric.tick
  {
    forall j: nat | Takes(places, words, lyric, j) ensures j == i {
      TakesAtMostOne(places, words, lyric, i, j);
    }
  }

  /** The lyrics after offering each lyric in turn by the direct rule. */
  ghost function Matched(places: seq<Place>, words: Words, lyrics: seq<Lyric>): (r: Words)
    requires |words| == |places|
    ensures |r| == |words|
    decreases lyrics
  {
    if lyrics == [] then words else Matched(places, Give(places, words, lyrics[0]), lyrics[1..])
  }

  function Unassigned(n: nat): (r: Words)
    ensures |r| == n && forall i :: 0 <= i < n ==> r[i] == None
  {
    seq(n, _ => None)
  }

  /** A lyric once given to a note is never replaced. */
  lemma {:induction false} NeverOverwritten(places: seq<Place>, words: Words, lyrics: seq<Lyric>, i: nat)
    requires |words| == |places| && Distinct(places) && i < |words| && words[i].Some?
    ensures Matched(places, words, lyrics)[i] == words[i]
    decreases lyrics
  {
    if lyrics != [] {
      var next := Give(places, words, lyrics[0]);
      if j: nat :| Takes(places, words, lyrics[0], j) {
        TakesAtMostOne(places, words, lyrics[0], j, j);
      }
      assert next[i] == words[i];
      NeverOverwritten(places, next, lyrics[1..], i);
    }
  }

  /** When each lyric is followed at once by a note of its own, every such note gets its lyric and no other does. */
  lemma {:induction false} EachToTheNext(places: seq<Place>, words: Words, lyrics: seq<Lyric>, targets: seq<nat>)
    requires |words| == |places| && Distinct(places) && |targets| == |lyrics|
    requires forall n :: 0 <= n < |lyrics| ==> Follows(places, words, lyrics[n], targets[n])
    requires forall n, m :: 0 <= n < m < |targets| ==> targets[n] != targets[m]
    ensures forall n :: 0 <= n < |lyrics| ==>
      targets[n] < |places| && Matched(places, words, lyrics)[targets[n]] == Some(lyrics[n].text)
    ensures forall i :: 0 <= i < |places| && i !in targets ==> Matched(places, words, lyrics)[i] == words[i]
    decreases lyrics
  {
    if lyrics != [] {
      var first := targets[0];
      assert Follows(places, words, lyrics[0], first);
      GiveTaken(places, words, lyrics[0], first);
      var next := Give(places, words, lyrics[0]);
      forall n | 0 <= n < |lyrics[1..]| ensures Follows(places, next, lyrics[1..][n], targets[1..][n]) {
        assert Follows(places, words, lyrics[n + 1], targets[n + 1]);
      }
      EachToTheNext(places, next, lyrics[1..], targets[1..]);
      assert targets == [first] + targets[1..];
      NeverOverwritten(places, next, lyrics[1..], first);
      forall n | 0 <= n < |lyrics| ensures Matched(places, words, lyrics)[targets[n]] == Some(lyrics[n].text) {
        if n != 0 {
          assert lyrics[1..][n - 1] == lyrics[n] && targets[1..][n - 1] == targets[n];
        }
      }
    }
  }

  // The notes without a lyric that come at a tick, in one track or in any.
  ghost function FreeIn(places: seq<Place>, words: Words, track: nat, tick: nat): set<nat>
    requires |words| == |places|
  {
    set i: nat | i < |places| && words[i] == None && places[i].track == track && places[i].tick == tick
  }

  ghost function FreeAt(places: seq<Place>, words: Words, tick: nat): set<nat>
    requires |words| == |places|
  {
    set i: nat | i < |places| && words[i] == None && places[i].tick == tick
  }

  // The note that is the next event of the track at the tick of the lyric; if it is none or has a lyric, the note
  // without a lyric at its tick in its track, when there is exactly one; if that track has none, the one at its tick
  // in the file, when there is exactly one.
  ghost predicate Gets(places: seq<Place>, words: Words, lyric: Lyric, i: nat)
    requires |words| == |places| && i < |places|
  {
    var next := Place(lyric.track, lyric.tick, lyric.order + 1);
    var here, anywhere := FreeIn(places, words, lyric.track, lyric.tick), FreeAt(places, words, lyric.tick);
    if exists j :: 0 <= j < |places| && places[j] == next && words[j] == None then places[i] == next
    else if |here| == 0 then |anywhere| == 1 && i in anywhere
    else |here| == 1 && i in here
  }

  /** What becomes of one lyric more: the note that gets it has it, and nothing else changes. */
  lemma {:induction false} OneLyricMore(places: seq<Place>, words: Words, lyrics: seq<Lyric>, lyric: Lyric, i: nat)
    requires |words| == |places| && Distinct(places) && i < |places|
    ensures var before := Matched(places, words, lyrics);
      Matched(places, words, lyrics + [lyric])[i] ==
      if Gets(places, before, lyric, i) then Some(lyric.text) else before[i]
    ensures Matched(places, words, []) == words
    decreases lyrics
  {
    hide Gets;
    var all := lyrics + [lyric];
    if lyrics == [] {
      assert all[0] == lyric && all[1..] == [];
      GivesWhatItGets(places, words, lyric, i);
    } else {
      assert all[0] == lyrics[0] && all[1..] == lyrics[1..] + [lyric];
      OneLyricMore(places, Give(places, words, lyrics[0]), lyrics[1..], lyric, i);
    }
  }

  lemma {:induction false} GivesWhatItGets(places: seq<Place>, words: Words, lyric: Lyric, i: nat)
    requires |words| == |places| && Distinct(places) && i < |places|
    ensures Give(places, words, lyric)[i] == if Gets(places, words, lyric, i) then Some(lyric.text) else words[i]
  {
    hide Gets, Takes;
    TakesWhatItGets(places, words, lyric, i);
    if Takes(places, words, lyric, i) {
      GiveTaken(places, words, lyric, i);
    } else if j: nat :| Takes(places, words, lyric, j) {
      TakesOne(places, words, lyric, j);
      GiveTaken(places, words, lyric, j);
    }
  }

  lemma {:induction false} TakesOne(places: seq<Place>, words: Words, lyric: Lyric, i: nat)
    requires |words| == |places| && Takes(places, words, lyric, i)
    ensures i < |places|
  {
  }

  lemma {:induction false} TakesWhatItGets(places: seq<Place>, words: Words, lyric: Lyric, i: nat)
    requires |words| == |places| && Distinct(places) && i < |places|
    ensures Takes(places, words, lyric, i) <==> Gets(places, words, lyric, i)
  {
    OnlyOne(places, words, AtTrack(lyric.track, lyric.tick), FreeIn(places, words, lyric.track, lyric.tick), i);
    OnlyOne(places, words, AtTick(lyric.tick), FreeAt(places, words, lyric.tick), i);
    var next := Place(lyric.track, lyric.tick, lyric.order + 1);
    if j :| 0 <= j < |places| && places[j] == next && words[j] == None {
      assert Follows(places, words, lyric, j);
    }
  }

  lemma {:induction false} OnlyOne(places: seq<Place>, words: Words, group: Group, free: set<nat>, i: nat)
    requires |words| == |places| && forall j :: j in free <==> Candidate(places, words, group, j)
    ensures OnlyCandidate(places, words, group, i) <==> |free| == 1 && i in free
    ensures (exists j :: Candidate(places, words, group, j)) <==> |free| != 0
  {
    if |free| != 0 {
      var j :| j in free;
      assert free == {j} + (free - {j});
      if |free| > 1 {
        var k :| k in free - {j};
      } else {
        assert free - {j} == {};
      }
    }
    if OnlyCandidate(places, words, group, i) {
      assert free == {i};
    }
  }

  // Bitwise exclusive or.
  function Xor(a: nat, b: nat): nat {
    if a == 0 then b else if b == 0 then a
    else 2 * Xor(a / 2, b / 2) + if a % 2 == b % 2 then 0 else 1
  }

  lemma {:induction false} XorBits(a: nat, b: nat)
    ensures Xor(a, b) / 2 == Xor(a / 2, b / 2)
    ensures Xor(a, b) % 2 == if a % 2 == b % 2 then 0 else 1
  {
  }

  lemma {:induction false} XorUndo(a: nat, b: nat)
    ensures Xor(Xor(a, b), b) == a
    decreases a + b
  {
    if a != 0 || b != 0 {
      XorUndo(a / 2, b / 2);
      XorBits(a, b);
      XorBits(Xor(a, b), b);
    }
  }

  lemma {:induction false} XorSwap(a: nat, b: nat, c: nat)
    ensures Xor(Xor(a, b), c) == Xor(Xor(a, c), b)
    decreases a + b + c
  {
    if a != 0 || b != 0 || c != 0 {
      XorSwap(a / 2, b / 2, c / 2);
      XorBits(a, b);
      XorBits(Xor(a, b), c);
      XorBits(a, c);
      XorBits(Xor(a, c), b);
    }
  }

  datatype Tally = Tally(count: nat, xor: nat)

  function Joined(tally: Tally, i: nat): Tally {
    Tally(tally.count + 1, Xor(tally.xor, i))
  }

  // What the index should hold for a group: how many candidates it has among the first n notes, and their XOR.
  function TallyOf(places: seq<Place>, words: Words, group: Group, n: nat): Tally
    requires |words| == |places| && n <= |places|
  {
    if n == 0 then Tally(0, 0)
    else
      var before := TallyOf(places, words, group, n - 1);
      if Candidate(places, words, group, n - 1) then Joined(before, n - 1) else before
  }

  lemma {:induction false} TallyMeaning(places: seq<Place>, words: Words, group: Group, n: nat)
    requires |words| == |places| && n <= |places|
    ensures var tally := TallyOf(places, words, group, n);
      && (tally.count == 0 ==> tally.xor == 0 && forall i: nat :: i < n ==> !Candidate(places, words, group, i))
      && (tally.count == 1 ==> tally.xor < n && Candidate(places, words, group, tally.xor)
                               && forall i: nat :: i < n && Candidate(places, words, group, i) ==> i == tally.xor)
      && (tally.count >= 2 ==> exists i: nat, j: nat :: i < j < n && Candidate(places, words, group, i)
                                                       && Candidate(places, words, group, j))
  {
    if n != 0 {
      TallyMeaning(places, words, group, n - 1);
    }
  }

  /** Giving a note its lyric takes it out of every group it belongs to, and out of no other. */
  lemma {:induction false} TallyAfterGiving(places: seq<Place>, words: Words, group: Group, n: nat, k: nat, text: bytes)
    requires |words| == |places| && n <= |places| && k < |places| && words[k].None?
    ensures var before := TallyOf(places, words, group, n);
      var after := TallyOf(places, words[k := Some(text)], group, n);
      if k < n && Belongs(places[k], group)
      then before.count >= 1 && after == Tally(before.count - 1, Xor(before.xor, k))
      else after == before
  {
    if n != 0 {
      TallyAfterGiving(places, words, group, n - 1, k, text);
      var before := TallyOf(places, words, group, n - 1);
      if k == n - 1 {
        XorUndo(before.xor, k);
      } else {
        XorSwap(before.xor, n - 1, k);
      }
    }
  }

  type TrackIndex = map<(nat, nat), Tally>
  type TickIndex = map<nat, Tally>

  function AtKey<K>(index: map<K, Tally>, key: K): Tally {
    if key in index then index[key] else Tally(0, 0)
  }

  // The two indices agree with the candidates among the first n notes.
  ghost predicate Indexed(places: seq<Place>, words: Words, n: nat, byTrackTick: TrackIndex, byTick: TickIndex)
    requires |words| == |places| && n <= |places|
  {
    && (forall track: nat, tick: nat :: AtKey(byTrackTick, (track, tick)) ==
          TallyOf(places, words, AtTrack(track, tick), n))
    && (forall tick: nat :: AtKey(byTick, tick) == TallyOf(places, words, AtTick(tick), n))
    && (forall i: nat :: i < n ==> (places[i].track, places[i].tick) in byTrackTick && places[i].tick in byTick)
  }

  ghost predicate Ordered(places: seq<Place>, n: nat, byOrder: map<Place, nat>)
    requires n <= |places|
  {
    && (forall i: nat :: i < n ==> places[i] in byOrder && byOrder[places[i]] == i)
    && (forall p: Place :: p in byOrder ==> byOrder[p] < n && places[byOrder[p]] == p)
  }

  lemma {:induction false} IndexedNext(places: seq<Place>, words: Words, n: nat, byTrackTick: TrackIndex,
                                       byTick: TickIndex)
    requires |words| == |places| && n < |places| && words[n].None?
    requires Indexed(places, words, n, byTrackTick, byTick)
    ensures var key := (places[n].track, places[n].tick);
      Indexed(places, words, n + 1, byTrackTick[key := Joined(AtKey(byTrackTick, key), n)],
              byTick[key.1 := Joined(AtKey(byTick, key.1), n)])
  {
  }

  lemma {:induction false} OrderedNext(places: seq<Place>, n: nat, byOrder: map<Place, nat>)
    requires n < |places| && Distinct(places) && Ordered(places, n, byOrder)
    ensures Ordered(places, n + 1, byOrder[places[n] := n])
  {
  }

  method BuildIndex(places: seq<Place>)
      returns (byTrackTick: TrackIndex, byTick: TickIndex, byOrder: map<Place, nat>)
    requires Distinct(places)
    ensures Indexed(places, Unassigned(|places|), |places|, byTrackTick, byTick)
    ensures Ordered(places, |places|, byOrder)
  {
    byTrackTick, byTick, byOrder := map[], map[], map[];
    ghost var none := Unassigned(|places|);
    for index := 0 to |places|
      invariant Indexed(places, none, index, byTrackTick, byTick)
      invariant Ordered(places, index, byOrder)
    {
      var place := places[index];
      var key := (place.track, place.tick);
      IndexedNext(places, none, index, byTrackTick, byTick);
      OrderedNext(places, index, byOrder);
      byTrackTick := byTrackTick[key := Joined(AtKey(byTrackTick, key), index)];
      byTick := byTick[place.tick := Joined(AtKey(byTick, place.tick), index)];
      byOrder := byOrder[place := index];
    }
  }

  /** The note the index names for a lyric is the note the direct rule takes, and it names none when none is taken. */
  method Locate(places: seq<Place>, words: Words, lyric: Lyric,
                byTrackTick: TrackIndex, byTick: TickIndex, byOrder: map<Place, nat>) returns (r: Option<nat>)
    requires |words| == |places| && Distinct(places)
    requires Indexed(places, words, |places|, byTrackTick, byTick) && Ordered(places, |places|, byOrder)
    ensures r.Some? ==> r.value < |places| && Takes(places, words, lyric, r.value)
    ensures r.None? ==> forall i: nat :: !Takes(places, words, lyric, i)
  {
    var local := AtKey(byTrackTick, (lyric.track, lyric.tick));
    var global := AtKey(byTick, lyric.tick);
    TallyMeaning(places, words, AtTrack(lyric.track, lyric.tick), |places|);
    TallyMeaning(places, words, AtTick(lyric.tick), |places|);
    var next := Place(lyric.track, lyric.tick, lyric.order + 1);
    if next in byOrder && words[byOrder[next]].None? {
      assert Follows(places, words, lyric, byOrder[next]);
      return Some(byOrder[next]);
    }
    assert forall i: nat :: !Follows(places, words, lyric, i);
    if local.count == 1 {
      return Some(local.xor);
    } else if local.count == 0 && global.count == 1 {
      return Some(global.xor);
    }
    return None;
  }

  lemma {:induction false} IndexedAfterGiving(places: seq<Place>, words: Words, byTrackTick: TrackIndex,
                                              byTick: TickIndex, k: nat, text: bytes)
    requires |words| == |places| && k < |places| && words[k].None?
    requires Indexed(places, words, |places|, byTrackTick, byTick)
    ensures var key := (places[k].track, places[k].tick);
      var local := byTrackTick[key];
      var global := byTick[key.1];
      && local.count >= 1 && global.count >= 1
      && Indexed(places, words[k := Some(text)], |places|,
                 byTrackTick[key := Tally(local.count - 1, Xor(local.xor, k))],
                 byTick[key.1 := Tally(global.count - 1, Xor(global.xor, k))])
  {
    forall group: Group {
      TallyAfterGiving(places, words, group, |places|, k, text);
    }
    assert Belongs(places[k], AtTrack(places[k].track, places[k].tick));
    assert Belongs(places[k], AtTick(places[k].tick));
    assert byTrackTick[(places[k].track, places[k].tick)] == AtKey(byTrackTick, (places[k].track, places[k].tick));
    assert byTick[places[k].tick] == AtKey(byTick, places[k].tick);
  }

  lemma {:induction false} MatchedNext(places: seq<Place>, words: Words, lyrics: seq<Lyric>, n: nat)
    requires |words| == |places| && n < |lyrics|
    ensures Matched(places, words, lyrics[n..]) == Matched(places, Give(places, words, lyrics[n]), lyrics[n + 1..])
  {
    assert lyrics[n..][1..] == lyrics[n + 1..];
  }

  lemma {:induction false} NobodyTakes(places: seq<Place>, words: Words, lyric: Lyric)
    requires |words| == |places| && forall i: nat :: !Takes(places, words, lyric, i)
    ensures Give(places, words, lyric) == words
  {
  }

  /** The indexed matching gives exactly the lyrics of the direct rule; no count drops below zero on the way. */
  method MatchLyrics(places: seq<Place>, lyrics: seq<Lyric>) returns (words: Words)
    requires Distinct(places)
    ensures words == Matched(places, Unassigned(|places|), lyrics)
  {
    hide Matched, Give, Takes, TallyOf, Xor, Indexed, Ordered, Distinct;
    var byTrackTick: TrackIndex, byTick: TickIndex, byOrder := BuildIndex(places);
    words := Unassigned(|places|);
    ghost var all := Matched(places, words, lyrics);
    assert lyrics[0..] == lyrics;
    for n := 0 to |lyrics|
      invariant |words| == |places|
      invariant Indexed(places, words, |places|, byTrackTick, byTick)
      invariant Matched(places, words, lyrics[n..]) == all
    {
      var lyric := lyrics[n];
      MatchedNext(places, words, lyrics, n);
      var found := Locate(places, words, lyric, byTrackTick, byTick, byOrder);
      if found.None? {
        NobodyTakes(places, words, lyric);
      } else {
        var index := found.value;
        GiveTaken(places, words, lyric, index);
        IsIndexed(places, words, byTrackTick, byTick, index);
        IndexedAfterGiving(places, words, byTrackTick, byTick, index, lyric.text);
        var key := (places[index].track, lyric.tick);
        var local, global := byTrackTick[key], byTick[lyric.tick];
        words := words[index := Some(lyric.text)];
        byTrackTick := byTrackTick[key := Tally(local.count - 1, Xor(local.xor, index))];
        byTick := byTick[lyric.tick := Tally(global.count - 1, Xor(global.xor, index))];
      }
    }
    NoneLeft(places, words, lyrics);
  }

  lemma {:induction false} IsIndexed(places: seq<Place>, words: Words, byTrackTick: TrackIndex, byTick: TickIndex,
                                     i: nat)
    requires |words| == |places| && i < |places| && Indexed(places, words, |places|, byTrackTick, byTick)
    ensures (places[i].track, places[i].tick) in byTrackTick && places[i].tick in byTick
  {
  }

  lemma {:induction false} NoneLeft(places: seq<Place>, words: Words, lyrics: seq<Lyric>)
    requires |words| == |places|
    ensures Matched(places, words, lyrics[|lyrics|..]) == words
  {
  }
}
