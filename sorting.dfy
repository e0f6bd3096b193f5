/**
 * `Array.prototype.filter` and the stable `Array.prototype.sort` with a numeric
 * comparator `(a, b) => key(a) - key(b)`, which the components use to order
 * cards by position, minor cards by rank, runes by `orden` and layouts by
 * card count. The sort is modelled as insertion sort; the lemmas show that
 * its result is sorted, a permutation of the input, and stable, which
 * together determine the result uniquely.
 */
module Sorting {

  function Filter<T>(s: seq<T>, p: T -> bool): (r: seq<T>)
    ensures |r| <= |s|
    ensures forall i :: 0 <= i < |r| ==> p(r[i])
  {
    if s == [] then []
    else (if p(s[0]) then [s[0]] else []) + Filter(s[1..], p)
  }

  /** Filtering a concatenation filters each part. */
  lemma {:induction false} FilterConcat<T>(a: seq<T>, b: seq<T>, p: T -> bool)
    ensures Filter(a + b, p) == Filter(a, p) + Filter(b, p)
  {
    if a == [] {
      assert a + b == b;
    } else {
      var head := if p(a[0]) then [a[0]] else [];
      assert (a + b)[0] == a[0];
      assert (a + b)[1..] == a[1..] + b;
      FilterConcat(a[1..], b, p);
      calc {
        Filter(a + b, p);
        head + Filter(a[1..] + b, p);
        head + (Filter(a[1..], p) + Filter(b, p));
        (head + Filter(a[1..], p)) + Filter(b, p);
      }
    }
  }

  lemma FilterOne<T>(x: T, p: T -> bool)
    ensures Filter([x], p) == (if p(x) then [x] else [])
  {
    assert [x][1..] == [];
  }

  /** An element is kept by the filter iff it occurs in the input and satisfies the predicate. */
  lemma {:induction false} FilterMembership<T>(s: seq<T>, p: T -> bool, x: T)
    ensures x in Filter(s, p) <==> x in s && p(x)
  {
    if s != [] {
      FilterMembership(s[1..], p, x);
      assert s == [s[0]] + s[1..];
    }
  }

  /** A filter that keeps everything returns the input. */
  lemma {:induction false} FilterAll<T>(s: seq<T>, p: T -> bool)
    requires forall i :: 0 <= i < |s| ==> p(s[i])
    ensures Filter(s, p) == s
  {
    if s != [] {
      FilterAll(s[1..], p);
    }
  }

  /** A filter that keeps nothing returns the empty list. */
  lemma {:induction false} FilterNone<T>(s: seq<T>, p: T -> bool)
    requires forall i :: 0 <= i < |s| ==> !p(s[i])
    ensures Filter(s, p) == []
  {
    if s != [] {
      FilterNone(s[1..], p);
    }
  }

  ghost predicate SortedBy<T>(s: seq<T>, key: T -> int)
  {
    forall i, j :: 0 <= i < j < |s| ==> key(s[i]) <= key(s[j])
  }

  /** The elements whose key is `k`. */
  function KeyIs<T>(key: T -> int, k: int): T -> bool
  {
    x => key(x) == k
  }

  /**
   * Inserts `x` into a sorted list just before the first element whose key
   * is strictly greater, so that `x` follows every element with an equal key.
   */
  function InsertBy<T>(t: seq<T>, x: T, key: T -> int): (r: seq<T>)
    ensures |r| == |t| + 1
  {
    if t == [] then [x]
    else if key(x) < key(t[0]) then [x] + t
    else [t[0]] + InsertBy(t[1..], x, key)
  }

  /** The stable sort of `s` by `key`. */
  function SortBy<T>(s: seq<T>, key: T -> int): (r: seq<T>)
    ensures |r| == |s|
  {
    if s == [] then [] else InsertBy(SortBy(s[..|s| - 1], key), s[|s| - 1], key)
  }

  lemma {:induction false} InsertByMultiset<T>(t: seq<T>, x: T, key: T -> int)
    ensures multiset(InsertBy(t, x, key)) == multiset(t) + multiset{x}
  {
    if t != [] && key(x) >= key(t[0]) {
      InsertByMultiset(t[1..], x, key);
      assert t == [t[0]] + t[1..];
    }
  }

  lemma {:induction false} InsertBySorted<T>(t: seq<T>, x: T, key: T -> int)
    requires SortedBy(t, key)
    ensures SortedBy(InsertBy(t, x, key), key)
    ensures InsertBy(t, x, key)[0] == (if t != [] && key(t[0]) <= key(x) then t[0] else x)
  {
    if t == [] {
    } else if key(x) < key(t[0]) {
      SortedCons(x, t, key);
    } else {
      var r := InsertBy(t[1..], x, key);
      assert SortedBy(r, key) && key(t[0]) <= key(r[0]) by {
        InsertBySorted(t[1..], x, key);
      }
      SortedCons(t[0], r, key);
    }
  }

  /** An element no greater than the head of a sorted list can be put in front of it. */
  lemma SortedCons<T>(h: T, r: seq<T>, key: T -> int)
    requires SortedBy(r, key)
    requires r != [] ==> key(h) <= key(r[0])
    ensures SortedBy([h] + r, key)
  {
    var u := [h] + r;
    forall i, j | 0 <= i < j < |u| ensures key(u[i]) <= key(u[j]) {
      if i == 0 {
        assert u[j] == r[j - 1];
        assert key(r[0]) <= key(r[j - 1]);
      } else {
        assert u[i] == r[i - 1] && u[j] == r[j - 1];
      }
    }
  }

  /** The stable sort is a permutation of its input. */
  lemma {:induction false} SortByPermutation<T>(s: seq<T>, key: T -> int)
    ensures multiset(SortBy(s, key)) == multiset(s)
  {
    if s != [] {
      SortByPermutation(s[..|s| - 1], key);
      InsertByMultiset(SortBy(s[..|s| - 1], key), s[|s| - 1], key);
      assert s == s[..|s| - 1] + [s[|s| - 1]];
    }
  }

  /** The stable sort orders its result by non-decreasing key. */
  lemma {:induction false} SortBySorted<T>(s: seq<T>, key: T -> int)
    ensures SortedBy(SortBy(s, key), key)
  {
    if s != [] {
      SortBySorted(s[..|s| - 1], key);
      InsertBySorted(SortBy(s[..|s| - 1], key), s[|s| - 1], key);
    }
  }

  lemma {:induction false} InsertByKeyFilter<T>(t: seq<T>, x: T, key: T -> int, k: int)
    requires SortedBy(t, key)
    ensures Filter(InsertBy(t, x, key), KeyIs(key, k))
         == Filter(t, KeyIs(key, k)) + (if key(x) == k then [x] else [])
  {
    var p := KeyIs(key, k);
    var tail := if key(x) == k then [x] else [];
    if t == [] {
      FilterOne(x, p);
    } else if key(x) < key(t[0]) {
      InsertFrontKeyFilter(t, x, key, k);
    } else {
      var r := InsertBy(t[1..], x, key);
      var a := Filter([t[0]], p);
      var b := Filter(t[1..], p);
      assert Filter(r, p) == b + tail by {
        InsertByKeyFilter(t[1..], x, key, k);
      }
      assert Filter(InsertBy(t, x, key), p) == a + Filter(r, p) by {
        FilterConcat([t[0]], r, p);
      }
      assert Filter(t, p) == a + b by {
        FilterConcat([t[0]], t[1..], p);
        assert t == [t[0]] + t[1..];
      }
      assert a + (b + tail) == (a + b) + tail;
    }
  }

  /** The case of `InsertByKeyFilter` where `x` goes in front. */
  lemma InsertFrontKeyFilter<T>(t: seq<T>, x: T, key: T -> int, k: int)
    requires SortedBy(t, key) && t != [] && key(x) < key(t[0])
    ensures Filter(InsertBy(t, x, key), KeyIs(key, k))
         == Filter(t, KeyIs(key, k)) + (if key(x) == k then [x] else [])
  {
    var p := KeyIs(key, k);
    var tail := if key(x) == k then [x] else [];
    assert Filter([x], p) == tail by {
      FilterOne(x, p);
    }
    assert Filter(InsertBy(t, x, key), p) == tail + Filter(t, p) by {
      FilterConcat([x], t, p);
    }
    if key(x) == k {
      assert Filter(t, p) == [] by {
        FilterNone(t, p);
      }
      assert tail + [] == [] + tail;
    } else {
      assert [] + Filter(t, p) == Filter(t, p) + [];
    }
  }

  /**
   * Stability: for every key, the elements with that key appear in the sorted
   * list in the same relative order as in the input.
   */
  lemma {:induction false} SortByStable<T>(s: seq<T>, key: T -> int, k: int)
    ensures Filter(SortBy(s, key), KeyIs(key, k)) == Filter(s, KeyIs(key, k))
  {
    if s != [] {
      var init := s[..|s| - 1];
      var x := s[|s| - 1];
      SortByStable(init, key, k);
      SortBySorted(init, key);
      InsertByKeyFilter(SortBy(init, key), x, key, k);
      assert s == init + [x];
      FilterConcat(init, [x], KeyIs(key, k));
    }
  }

  /** Sorting an already sorted list changes nothing. */
  lemma {:induction false} SortByOfSorted<T>(s: seq<T>, key: T -> int)
    requires SortedBy(s, key)
    ensures SortBy(s, key) == s
  {
    if s != [] {
      var init := s[..|s| - 1];
      var x := s[|s| - 1];
      SortByOfSorted(init, key);
      InsertByAtEnd(init, x, key);
      assert s == init + [x];
    }
  }

  lemma {:induction false} InsertByAtEnd<T>(t: seq<T>, x: T, key: T -> int)
    requires forall i :: 0 <= i < |t| ==> key(t[i]) <= key(x)
    ensures InsertBy(t, x, key) == t + [x]
  {
    if t != [] {
      InsertByAtEnd(t[1..], x, key);
      assert t == [t[0]] + t[1..];
    }
  }

  /** Filtering a sorted list leaves it sorted. */
  lemma {:induction false} FilterSorted<T>(s: seq<T>, p: T -> bool, key: T -> int)
    requires SortedBy(s, key)
    ensures SortedBy(Filter(s, p), key)
  {
    if s != [] {
      FilterSorted(s[1..], p, key);
      var r := Filter(s[1..], p);
      forall i | 0 <= i < |r|
        ensures key(s[0]) <= key(r[i])
      {
        FilterMembership(s[1..], p, r[i]);
        var j :| 0 <= j < |s[1..]| && s[1..][j] == r[i];
        assert s[j + 1] == r[i];
      }
    }
  }

  ghost predicate DistinctKeys<T>(s: seq<T>, key: T -> int)
  {
    forall i, j :: 0 <= i < j < |s| ==> key(s[i]) != key(s[j])
  }

  ghost predicate StrictlySortedBy<T>(s: seq<T>, key: T -> int)
  {
    forall i, j :: 0 <= i < j < |s| ==> key(s[i]) < key(s[j])
  }

  lemma {:induction false} InsertByStrict<T>(t: seq<T>, x: T, key: T -> int)
    requires StrictlySortedBy(t, key)
    requires forall i :: 0 <= i < |t| ==> key(t[i]) != key(x)
    ensures StrictlySortedBy(InsertBy(t, x, key), key)
  {
    if t != [] && key(x) >= key(t[0]) {
      InsertByStrict(t[1..], x, key);
      var r := InsertBy(t[1..], x, key);
      InsertByMultiset(t[1..], x, key);
      forall i | 0 <= i < |r|
        ensures key(t[0]) < key(r[i])
      {
        assert r[i] in multiset(t[1..]) + multiset{x};
        if r[i] in multiset(t[1..]) {
          var j :| 0 <= j < |t[1..]| && t[1..][j] == r[i];
          assert t[j + 1] == r[i];
        }
      }
    }
  }

  /** When no two elements share a key, the stable sort orders them by strictly increasing key. */
  lemma {:induction false} SortByStrict<T>(s: seq<T>, key: T -> int)
    requires DistinctKeys(s, key)
    ensures StrictlySortedBy(SortBy(s, key), key)
  {
    if s != [] {
      var init := s[..|s| - 1];
      var x := s[|s| - 1];
      SortByStrict(init, key);
      var t := SortBy(init, key);
      SortByPermutation(init, key);
      forall i | 0 <= i < |t|
        ensures key(t[i]) != key(x)
      {
        assert t[i] in multiset(t);
        var j :| 0 <= j < |init| && init[j] == t[i];
        assert s[j] == t[i];
      }
      InsertByStrict(t, x, key);
    }
  }

  /** Sorting the elements that satisfy `p` gives a sorted list of exactly those elements. */
  lemma SortFilterMembers<T>(s: seq<T>, p: T -> bool, key: T -> int)
    ensures SortedBy(SortBy(Filter(s, p), key), key)
    ensures forall x :: x in SortBy(Filter(s, p), key) <==> x in s && p(x)
  {
    var kept := Filter(s, p);
    SortBySorted(kept, key);
    SortByPermutation(kept, key);
    forall x
      ensures x in SortBy(kept, key) <==> x in s && p(x)
    {
      assert x in SortBy(kept, key) <==> x in multiset(SortBy(kept, key));
      FilterMembership(s, p, x);
    }
  }
}
