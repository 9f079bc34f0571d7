/** Two notes on one channel and key must not sound together: the pairwise rule, and the neighbour check after
    sorting. */
module NoteOverlap {
  import opened StableSort

  // Where a note sounds.
  datatype Range = Range(channel: nat, key: nat, start: nat, end: nat)

  predicate Apart(a: Range, b: Range) {
    a.channel != b.channel || a.key != b.key || a.end <= b.start || b.end <= a.start
  }

  predicate Nonempty(ranges: seq<Range>) {
    forall i :: 0 <= i < |ranges| ==> ranges[i].start < ranges[i].end
  }

  // Lexicographic order on channel, key, start and end.
  predicate Before(a: Range, b: Range) {
    a.channel < b.channel || (a.channel == b.channel &&
    (a.key < b.key || (a.key == b.key && (a.start < b.start || (a.start == b.start && a.end <= b.end)))))
  }

  ghost predicate InOrder(ranges: seq<Range>) {
    forall i, j :: 0 <= i < j < |ranges| ==> Before(ranges[i], ranges[j])
  }

  predicate NeighboursClash(a: Range, b: Range) {
    a.channel == b.channel && a.key == b.key && b.start < a.end
  }

  ghost predicate SomeNeighboursClash(ranges: seq<Range>) {
    exists i :: 0 <= i < |ranges| - 1 && NeighboursClash(ranges[i], ranges[i + 1])
  }

  /** Among ranges in order, if any two overlap then two neighbours clash, and only then. */
  lemma {:induction false} NeighboursSuffice(sorted: seq<Range>)
    requires InOrder(sorted) && Nonempty(sorted)
    ensures SomeNeighboursClash(sorted) <==> !Pairwise(sorted, Apart)
  {
    if !Pairwise(sorted, Apart) {
      var i, j :| 0 <= i < j < |sorted| && !Apart(sorted[i], sorted[j]);
      assert Before(sorted[i], sorted[i + 1]);
      assert i + 1 < j ==> Before(sorted[i + 1], sorted[j]);
      assert NeighboursClash(sorted[i], sorted[i + 1]);
    }
    if i :| 0 <= i < |sorted| - 1 && NeighboursClash(sorted[i], sorted[i + 1]) {
      assert Before(sorted[i], sorted[i + 1]);
      assert !Apart(sorted[i], sorted[i + 1]);
    }
  }

  // The order of one insertion: the place an element takes is the first whose element is not before it.
  function Place(x: Range, s: seq<Range>): (r: seq<Range>)
    ensures multiset(r) == multiset(s) + multiset{x}
  {
    if s == [] || Before(x, s[0]) then [x] + s
    else
      assert s == [s[0]] + s[1..];
      [s[0]] + Place(x, s[1..])
  }

  function InOrderOf(s: seq<Range>): (r: seq<Range>)
    ensures multiset(r) == multiset(s)
  {
    if s == [] then []
    else
      assert s == [s[0]] + s[1..];
      Place(s[0], InOrderOf(s[1..]))
  }

  lemma {:induction false} PlaceKeepsOrder(x: Range, s: seq<Range>)
    requires InOrder(s)
    ensures InOrder(Place(x, s))
  {
    if s != [] && !Before(x, s[0]) {
      PlaceKeepsOrder(x, s[1..]);
      var t := Place(x, s[1..]);
      forall y | y in t ensures Before(s[0], y) {
        assert y in multiset(t);
        assert y == x || y in multiset(s[1..]);
      }
    }
  }

  lemma {:induction false} InOrderOfIsInOrder(s: seq<Range>)
    ensures InOrder(InOrderOf(s))
  {
    if s != [] {
      InOrderOfIsInOrder(s[1..]);
      PlaceKeepsOrder(s[0], InOrderOf(s[1..]));
    }
  }

  /** The neighbour check rejects a set of notes exactly when some two of them overlap; touching is no overlap.
      It holds of whatever order an unstable sort leaves equal ranges in. */
  method CheckNeighbours(ranges: seq<Range>, sorted: seq<Range>) returns (clash: bool)
    requires Nonempty(ranges) && InOrder(sorted) && multiset(sorted) == multiset(ranges)
    ensures clash <==> !Pairwise(ranges, Apart)
  {
    forall i | 0 <= i < |sorted| ensures sorted[i].start < sorted[i].end {
      assert sorted[i] in multiset(sorted);
    }
    NeighboursSuffice(sorted);
    if Pairwise(sorted, Apart) {
      PairwisePermuted(sorted, ranges, Apart);
    } else if Pairwise(ranges, Apart) {
      PairwisePermuted(ranges, sorted, Apart);
    }
    var i := 0;
    while i + 1 < |sorted|
      invariant 0 <= i
      invariant forall k :: 0 <= k < i && k + 1 < |sorted| ==> !NeighboursClash(sorted[k], sorted[k + 1])
    {
      if NeighboursClash(sorted[i], sorted[i + 1]) {
        return true;
      }
      i := i + 1;
    }
    return false;
  }
}
