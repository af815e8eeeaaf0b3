/** `Array.prototype.sort` with a comparator, as a stable insertion sort. For a comparator
    that is a total preorder on the elements every stable sort gives this same result. */
module Sorting {

  /** `cmp` orders the elements of `s` consistently: any two are comparable and `<= 0` is
      transitive. */
  predicate ConsistentOn<T(==,!new)>(cmp: (T, T) -> int, s: seq<T>) {
    (forall a, b :: a in s && b in s ==> cmp(a, b) <= 0 || cmp(b, a) <= 0)
    && (forall a, b, c :: a in s && b in s && c in s && cmp(a, b) <= 0 && cmp(b, c) <= 0 ==> cmp(a, c) <= 0)
  }

  predicate Sorted<T>(s: seq<T>, cmp: (T, T) -> int) {
    forall i, j :: 0 <= i < j < |s| ==> cmp(s[i], s[j]) <= 0
  }

  /** Inserts `x` after every element that does not compare above it. */
  function Insert<T>(s: seq<T>, x: T, cmp: (T, T) -> int): (r: seq<T>)
    ensures |r| == |s| + 1 && multiset(r) == multiset(s) + multiset{x}
  {
    if s == [] then [x]
    else if cmp(s[|s| - 1], x) <= 0 then s + [x]
    else
      var init, last := s[..|s| - 1], s[|s| - 1];
      assert s == init + [last];
      Insert(init, x, cmp) + [last]
  }

  function Sort<T>(s: seq<T>, cmp: (T, T) -> int): (r: seq<T>)
    ensures |r| == |s| && multiset(r) == multiset(s)
  {
    if s == [] then []
    else
      var init, last := s[..|s| - 1], s[|s| - 1];
      assert s == init + [last];
      Insert(Sort(init, cmp), last, cmp)
  }

  /** A sorted result is a permutation of its input, so it keeps every element and its
      number of occurrences. */
  lemma SortPermutes<T>(s: seq<T>, cmp: (T, T) -> int)
    ensures |Sort(s, cmp)| == |s|
    ensures forall x :: x in Sort(s, cmp) <==> x in s
  {
    var r := Sort(s, cmp);
    assert |multiset(r)| == |multiset(s)|;
    forall x ensures x in r <==> x in s {
      assert x in r <==> x in multiset(r);
      assert x in s <==> x in multiset(s);
    }
  }

  lemma ConsistentOnSubset<T(!new)>(cmp: (T, T) -> int, t: seq<T>, u: seq<T>)
    requires ConsistentOn(cmp, u)
    requires forall y :: y in t ==> y in u
    ensures ConsistentOn(cmp, t)
  {
  }

  lemma {:induction false} InsertSorted<T(!new)>(s: seq<T>, x: T, cmp: (T, T) -> int)
    requires Sorted(s, cmp) && ConsistentOn(cmp, s + [x])
    ensures Sorted(Insert(s, x, cmp), cmp)
  {
    if s == [] {
    } else if cmp(s[|s| - 1], x) <= 0 {
      AppendAbove(s, x, cmp);
    } else {
      var init, last := s[..|s| - 1], s[|s| - 1];
      assert s == init + [last];
      ConsistentOnSubset(cmp, init + [x], s + [x]);
      InsertSorted(init, x, cmp);
      var m := Insert(init, x, cmp);
      InsertBelow(init, last, x, cmp);
      SnocAbove(m, last, cmp);
    }
  }

  /** Appending an element that is above the last one of a sorted list keeps it sorted. */
  lemma AppendAbove<T(!new)>(s: seq<T>, x: T, cmp: (T, T) -> int)
    requires s != [] && Sorted(s, cmp) && ConsistentOn(cmp, s + [x]) && cmp(s[|s| - 1], x) <= 0
    ensures Sorted(s + [x], cmp)
  {
    var last := s[|s| - 1];
    var r := s + [x];
    forall i, j | 0 <= i < j < |r| ensures cmp(r[i], r[j]) <= 0 {
      if j == |s| && i < |s| - 1 {
        assert cmp(s[i], last) <= 0;
        assert s[i] in s + [x] && last in s + [x] && x in s + [x];
      }
    }
  }

  /** When `x` goes before the last element, everything of the shorter insertion is below
      that last element. */
  lemma InsertBelow<T(!new)>(init: seq<T>, last: T, x: T, cmp: (T, T) -> int)
    requires Sorted(init + [last], cmp) && ConsistentOn(cmp, init + [last] + [x]) && cmp(last, x) > 0
    ensures forall e :: e in Insert(init, x, cmp) ==> cmp(e, last) <= 0
  {
    var s := init + [last];
    var m := Insert(init, x, cmp);
    assert last in s + [x] && x in s + [x];
    assert cmp(x, last) <= 0;
    forall e | e in m ensures cmp(e, last) <= 0 {
      assert e in multiset(m);
      assert e in multiset(init) || e == x;
      if e != x {
        var i :| 0 <= i < |init| && init[i] == e;
        assert s[i] == e && s[|init|] == last;
        assert cmp(s[i], s[|init|]) <= 0;
      }
    }
  }

  /** Appending an element above everything of a sorted list keeps it sorted. */
  lemma SnocAbove<T(!new)>(m: seq<T>, last: T, cmp: (T, T) -> int)
    requires Sorted(m, cmp) && forall e :: e in m ==> cmp(e, last) <= 0
    ensures Sorted(m + [last], cmp)
  {
    var r := m + [last];
    forall i, j | 0 <= i < j < |r| ensures cmp(r[i], r[j]) <= 0 {
      if j == |m| {
        assert r[i] == m[i] && m[i] in m;
      } else {
        assert r[i] == m[i] && r[j] == m[j];
      }
    }
  }

  /** With a consistent comparator the result is sorted. */
  lemma {:induction false} SortSorted<T(!new)>(s: seq<T>, cmp: (T, T) -> int)
    requires ConsistentOn(cmp, s)
    ensures Sorted(Sort(s, cmp), cmp)
  {
    if s != [] {
      var init, last := s[..|s| - 1], s[|s| - 1];
      assert s == init + [last];
      ConsistentOnSubset(cmp, init, s);
      SortSorted(init, cmp);
      var t := Sort(init, cmp);
      forall y | y in t + [last] ensures y in s {
        if y in t {
          assert y in multiset(t);
          assert y in multiset(init);
        }
      }
      ConsistentOnSubset(cmp, t + [last], s);
      InsertSorted(t, last, cmp);
    }
  }

  /** The comparator `(a, b) => key(a) - key(b)`: ascending by an integer key. */
  function ByKeyAsc<T>(key: T -> int): (T, T) -> int {
    (a: T, b: T) => key(a) - key(b)
  }

  /** The comparator `(a, b) => key(b) - key(a)`: descending by an integer key. */
  function ByKeyDesc<T>(key: T -> int): (T, T) -> int {
    (a: T, b: T) => key(b) - key(a)
  }

  /** Comparing integer keys, either way round, is consistent on every list. */
  lemma ByKeyConsistent<T(!new)>(key: T -> int, s: seq<T>)
    ensures ConsistentOn(ByKeyAsc(key), s) && ConsistentOn(ByKeyDesc(key), s)
  {
  }

  /** Sorting by a key puts the keys in order: ascending, or descending. */
  lemma SortByKey<T(!new)>(key: T -> int, s: seq<T>)
    ensures forall i, j :: 0 <= i < j < |s| ==> key(Sort(s, ByKeyAsc(key))[i]) <= key(Sort(s, ByKeyAsc(key))[j])
    ensures forall i, j :: 0 <= i < j < |s| ==> key(Sort(s, ByKeyDesc(key))[i]) >= key(Sort(s, ByKeyDesc(key))[j])
  {
    ByKeyConsistent(key, s);
    SortSorted(s, ByKeyAsc(key));
    SortSorted(s, ByKeyDesc(key));
    SortPermutes(s, ByKeyAsc(key));
    SortPermutes(s, ByKeyDesc(key));
  }

  /** When no element compares above a later one, the stable sort keeps the input order:
      a comparator that answers 0 throughout leaves the list as it is. */
  lemma {:induction false} SortKeepsTies<T(!new)>(s: seq<T>, cmp: (T, T) -> int)
    requires forall a, b :: a in s && b in s ==> cmp(a, b) <= 0
    ensures Sort(s, cmp) == s
  {
    if s != [] {
      var init, last := s[..|s| - 1], s[|s| - 1];
      assert s == init + [last];
      assert forall a :: a in init ==> a in s;
      SortKeepsTies(init, cmp);
      if init != [] {
        assert init[|init| - 1] in s;
      }
    }
  }
}
