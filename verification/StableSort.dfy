/** The stable `sort_by_key` of the standard library, as insertion sort on an integer key, and the laws
    that make it *the* stable sort. */
module StableSort {

  ghost predicate SortedBy<T(!new)>(s: seq<T>, key: T -> int) {
    forall i, j :: 0 <= i < j < |s| ==> key(s[i]) <= key(s[j])
  }

  function Filter<T(!new)>(s: seq<T>, p: T -> bool): seq<T> {
    if s == [] then [] else if p(s[0]) then [s[0]] + Filter(s[1..], p) else Filter(s[1..], p)
  }

  lemma {:induction false} FilterMembers<T(!new)>(s: seq<T>, p: T -> bool)
    ensures forall x :: x in Filter(s, p) <==> x in s && p(x)
  {
    if s != [] {
      FilterMembers(s[1..], p);
    }
  }

  lemma {:induction false} FilterCons<T(!new)>(x: T, s: seq<T>, p: T -> bool)
    ensures Filter([x] + s, p) == if p(x) then [x] + Filter(s, p) else Filter(s, p)
  {
    assert ([x] + s)[1..] == s;
  }

  function Map<T(!new), U(!new)>(s: seq<T>, f: T -> U): (r: seq<U>)
    ensures |r| == |s| && forall i :: 0 <= i < |s| ==> r[i] == f(s[i])
  {
    if s == [] then [] else [f(s[0])] + Map(s[1..], f)
  }

  // Places x before the first element whose key is not smaller.
  function Insert<T(!new)>(x: T, s: seq<T>, key: T -> int): (r: seq<T>)
    ensures |r| == |s| + 1 && multiset(r) == multiset(s) + multiset{x}
  {
    if s == [] || key(x) <= key(s[0]) then [x] + s
    else
      assert s == [s[0]] + s[1..];
      [s[0]] + Insert(x, s[1..], key)
  }

  function Sort<T(!new)>(s: seq<T>, key: T -> int): (r: seq<T>)
    ensures |r| == |s| && multiset(r) == multiset(s)
  {
    if s == [] then []
    else
      assert s == [s[0]] + s[1..];
      Insert(s[0], Sort(s[1..], key), key)
  }

  lemma {:induction false} SameElements<T(!new)>(s: seq<T>, key: T -> int)
    ensures forall x :: x in Sort(s, key) <==> x in s
  {
    forall x ensures x in Sort(s, key) <==> x in s {
      assert x in s <==> x in multiset(s);
      assert x in Sort(s, key) <==> x in multiset(Sort(s, key));
    }
  }

  lemma {:induction false} InsertKeepsSorted<T(!new)>(x: T, s: seq<T>, key: T -> int)
    requires SortedBy(s, key)
    ensures SortedBy(Insert(x, s, key), key)
  {
    if s != [] && key(x) > key(s[0]) {
      InsertKeepsSorted(x, s[1..], key);
      var t := Insert(x, s[1..], key);
      forall y | y in t ensures key(s[0]) <= key(y) {
        assert y in multiset(t);
        assert y == x || y in multiset(s[1..]);
      }
    }
  }

  lemma {:induction false} SortIsSorted<T(!new)>(s: seq<T>, key: T -> int)
    ensures SortedBy(Sort(s, key), key)
  {
    if s != [] {
      SortIsSorted(s[1..], key);
      InsertKeepsSorted(s[0], Sort(s[1..], key), key);
    }
  }

  lemma {:induction false} SortOfSorted<T(!new)>(s: seq<T>, key: T -> int)
    requires SortedBy(s, key)
    ensures Sort(s, key) == s
  {
    if s != [] {
      SortOfSorted(s[1..], key);
    }
  }

  lemma {:induction false} FilterInsert<T(!new)>(x: T, s: seq<T>, key: T -> int, p: T -> bool)
    requires SortedBy(s, key)
    ensures Filter(Insert(x, s, key), p) == if p(x) then Insert(x, Filter(s, p), key) else Filter(s, p)
  {
    if s == [] {
      FilterCons(x, s, p);
    } else if key(x) <= key(s[0]) {
      FilterCons(x, s, p);
      FilterMembers(s, p);
      var f := Filter(s, p);
      assert f != [] ==> f[0] in s;
    } else {
      FilterInsert(x, s[1..], key, p);
      FilterCons(s[0], Insert(x, s[1..], key), p);
      InsertCons(x, s[0], Filter(s[1..], p), key);
    }
  }

  lemma {:induction false} InsertCons<T(!new)>(x: T, y: T, s: seq<T>, key: T -> int)
    requires key(y) < key(x)
    ensures Insert(x, [y] + s, key) == [y] + Insert(x, s, key)
  {
    assert ([y] + s)[1..] == s;
  }

  lemma {:induction false} SortCons<T(!new)>(x: T, s: seq<T>, key: T -> int)
    ensures Sort([x] + s, key) == Insert(x, Sort(s, key), key)
  {
    assert ([x] + s)[1..] == s;
  }

  /** Stability: selecting elements and sorting commute, so elements that share a key keep their input order. */
  lemma {:induction false} FilterSort<T(!new)>(s: seq<T>, key: T -> int, p: T -> bool)
    ensures Filter(Sort(s, key), p) == Sort(Filter(s, p), key)
  {
    if s != [] {
      FilterSort(s[1..], key, p);
      SortIsSorted(s[1..], key);
      FilterInsert(s[0], Sort(s[1..], key), key, p);
      SortCons(s[0], Filter(s[1..], p), key);
    }
  }

  lemma {:induction false} InsertKeepsPairs<T(!new)>(x: T, s: seq<T>, key: T -> int, rel: (T, T) -> bool)
    requires Pairwise(s, rel) && forall y :: y in s ==> rel(x, y)
    requires forall a, b :: key(a) < key(b) ==> rel(a, b)
    ensures Pairwise(Insert(x, s, key), rel)
  {
    if s != [] && key(x) > key(s[0]) {
      InsertKeepsPairs(x, s[1..], key, rel);
      var t := Insert(x, s[1..], key);
      forall y | y in t ensures rel(s[0], y) {
        assert y in multiset(t);
        assert y == x || y in multiset(s[1..]);
      }
    }
  }

  /** A relation that holds of every two elements in input order holds of every two in sorted order, if it holds of keys
      in order. */
  lemma {:induction false} SortKeepsPairs<T(!new)>(s: seq<T>, key: T -> int, rel: (T, T) -> bool)
    requires Pairwise(s, rel) && forall a, b :: key(a) < key(b) ==> rel(a, b)
    ensures Pairwise(Sort(s, key), rel)
  {
    if s != [] {
      SortKeepsPairs(s[1..], key, rel);
      SameElements(s[1..], key);
      forall y | y in Sort(s[1..], key) ensures rel(s[0], y) {
        var k :| 0 <= k < |s[1..]| && s[1..][k] == y;
        assert rel(s[0], s[1 + k]);
      }
      InsertKeepsPairs(s[0], Sort(s[1..], key), key, rel);
    }
  }

  lemma {:induction false} MapInsert<T(!new), U(!new)>(x: T, s: seq<T>, key: T -> int, f: T -> U, key': U -> int)
    requires forall y :: y in [x] + s ==> key'(f(y)) == key(y)
    ensures Map(Insert(x, s, key), f) == Insert(f(x), Map(s, f), key')
  {
    assert x in [x] + s;
    if s == [] {
    } else if key(x) <= key(s[0]) {
      assert s[0] in [x] + s;
    } else {
      assert s[0] in [x] + s;
      MapInsert(x, s[1..], key, f, key');
      assert Map(s, f)[1..] == Map(s[1..], f);
    }
  }

  /** Sorting commutes with any map that keeps the keys. */
  lemma {:induction false} MapSort<T(!new), U(!new)>(s: seq<T>, key: T -> int, f: T -> U, key': U -> int)
    requires forall y :: y in s ==> key'(f(y)) == key(y)
    ensures Map(Sort(s, key), f) == Sort(Map(s, f), key')
  {
    if s != [] {
      MapSort(s[1..], key, f, key');
      SameElements(s[1..], key);
      MapInsert(s[0], Sort(s[1..], key), key, f, key');
      assert Map(s, f)[1..] == Map(s[1..], f);
    }
  }

  lemma {:induction false} FilterConcat<T(!new)>(a: seq<T>, b: seq<T>, p: T -> bool)
    ensures Filter(a + b, p) == Filter(a, p) + Filter(b, p)
  {
    if a == [] {
      assert a + b == b;
    } else {
      assert (a + b)[1..] == a[1..] + b;
      FilterConcat(a[1..], b, p);
    }
  }

  lemma {:induction false} MapConcat<T(!new), U(!new)>(a: seq<T>, b: seq<T>, f: T -> U)
    ensures Map(a + b, f) == Map(a, f) + Map(b, f)
  {
  }

  ghost predicate Pairwise<T(!new)>(s: seq<T>, r: (T, T) -> bool) {
    forall i, j :: 0 <= i < j < |s| ==> r(s[i], s[j])
  }

  lemma {:induction false} TwoPlaces<T(!new)>(s: seq<T>, x: T)
    requires multiset(s)[x] >= 2
    ensures exists i, j :: 0 <= i < j < |s| && s[i] == x && s[j] == x
  {
    assert s == [s[0]] + s[1..];
    if s[0] == x {
      assert x in multiset(s[1..]);
      var j :| 0 <= j < |s[1..]| && s[1..][j] == x;
      assert s[j + 1] == x;
    } else {
      TwoPlaces(s[1..], x);
      var i, j :| 0 <= i < j < |s[1..]| && s[1..][i] == x && s[1..][j] == x;
      assert s[i + 1] == x && s[j + 1] == x;
    }
  }

  lemma {:induction false} TwiceThere<T(!new)>(s: seq<T>, i: int, j: int)
    requires 0 <= i < j < |s| && s[i] == s[j]
    ensures multiset(s)[s[i]] >= 2
  {
    var x := s[i];
    assert s == s[..j] + s[j..];
    assert multiset(s) == multiset(s[..j]) + multiset(s[j..]);
    assert s[..j][i] == x && s[j..][0] == x;
    assert x in multiset(s[..j]) && x in multiset(s[j..]);
  }

  /** What holds of every two elements of a sequence holds of every two elements of a permutation of it. */
  lemma {:induction false} PairwisePermuted<T(!new)>(s: seq<T>, t: seq<T>, r: (T, T) -> bool)
    requires multiset(s) == multiset(t) && Pairwise(s, r)
    requires forall x, y :: r(x, y) ==> r(y, x)
    ensures Pairwise(t, r)
  {
    forall i, j | 0 <= i < j < |t| ensures r(t[i], t[j]) {
      var a, b := t[i], t[j];
      assert a in multiset(t) && b in multiset(t);
      if a == b {
        TwiceThere(t, i, j);
        TwoPlaces(s, a);
      } else {
        assert a in multiset(s) && b in multiset(s);
        var k, l :| 0 <= k < |s| && 0 <= l < |s| && s[k] == a && s[l] == b;
        assert k < l || l < k;
      }
    }
  }

  /** Keys that order the elements alike sort them alike. */
  lemma {:induction false} SameOrder<T(!new)>(s: seq<T>, key: T -> int, key': T -> int)
    requires forall x, y :: x in s && y in s ==> (key(x) <= key(y) <==> key'(x) <= key'(y))
    ensures Sort(s, key) == Sort(s, key')
  {
    if s != [] {
      SameOrder(s[1..], key, key');
      SameElements(s[1..], key);
      InsertSameOrder(s[0], Sort(s[1..], key), key, key');
    }
  }

  lemma {:induction false} InsertSameOrder<T(!new)>(x: T, s: seq<T>, key: T -> int, key': T -> int)
    requires forall y :: y in s ==> (key(x) <= key(y) <==> key'(x) <= key'(y))
    ensures Insert(x, s, key) == Insert(x, s, key')
  {
    if s != [] {
      assert s[0] in s;
      InsertSameOrder(x, s[1..], key, key');
    }
  }
}
