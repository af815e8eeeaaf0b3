/** Sequence operations behind the JavaScript array idioms of the application:
    `filter`, `includes` + `push`, `[...new Set(xs)]` and `splice(indexOf(x), 1)`. */
module Seqs {

  /** No element occurs twice. */
  predicate NoDup<T(==,!new)>(s: seq<T>) {
    forall i, j :: 0 <= i < j < |s| ==> s[i] != s[j]
  }

  /** `a` is `b` with some elements left out, the rest in their original order. */
  predicate IsSubsequence<T(==,!new)>(a: seq<T>, b: seq<T>)
    decreases |b|
  {
    if a == [] then true
    else if b == [] then false
    else if a[0] == b[0] then IsSubsequence(a[1..], b[1..])
    else IsSubsequence(a, b[1..])
  }

  /** A subsequence of `b` is a subsequence of `b` with anything put in front. */
  lemma {:induction false} SubsequenceConsLeft<T(!new)>(a: seq<T>, b: seq<T>, x: T)
    requires IsSubsequence(a, b)
    ensures IsSubsequence(a, [x] + b)
    decreases |b|, 1
  {
    if a != [] {
      assert ([x] + b)[1..] == b;
      if a[0] == x {
        SubsequenceDrop(a, b);
      }
    }
  }

  /** Dropping the first element of a subsequence leaves a subsequence. */
  lemma {:induction false} SubsequenceDrop<T(!new)>(a: seq<T>, b: seq<T>)
    requires a != [] && IsSubsequence(a, b)
    ensures IsSubsequence(a[1..], b)
    decreases |b|, 0
  {
    assert b != [];
    if a[0] == b[0] {
      SubsequenceConsLeft(a[1..], b[1..], b[0]);
    } else {
      SubsequenceDrop(a, b[1..]);
      SubsequenceConsLeft(a[1..], b[1..], b[0]);
    }
    assert [b[0]] + b[1..] == b;
  }

  /** `Array.prototype.filter`. */
  function Filter<T>(s: seq<T>, p: T -> bool): (r: seq<T>)
    ensures |r| <= |s|
    ensures forall i :: 0 <= i < |r| ==> p(r[i])
  {
    if s == [] then [] else (if p(s[0]) then [s[0]] else []) + Filter(s[1..], p)
  }

  /** The filter keeps exactly the elements satisfying the predicate. */
  lemma {:induction false} FilterMembers<T(!new)>(s: seq<T>, p: T -> bool)
    ensures forall x :: x in Filter(s, p) <==> x in s && p(x)
  {
    if s != [] {
      FilterMembers(s[1..], p);
      assert s == [s[0]] + s[1..];
    }
  }

  lemma {:induction false} FilterIsSubsequence<T(!new)>(s: seq<T>, p: T -> bool)
    ensures IsSubsequence(Filter(s, p), s)
  {
    if s != [] {
      FilterIsSubsequence(s[1..], p);
      var f := Filter(s, p);
      if p(s[0]) {
        assert f == [s[0]] + Filter(s[1..], p);
        assert f[1..] == Filter(s[1..], p);
      } else {
        assert f == Filter(s[1..], p);
        assert f != [] ==> f[0] != s[0];
      }
    }
  }

  /** Filtering by `p` and then by `q` is filtering once by their conjunction. */
  lemma {:induction false} FilterTwice<T(!new)>(s: seq<T>, p: T -> bool, q: T -> bool, pq: T -> bool)
    requires forall x :: pq(x) == (p(x) && q(x))
    ensures Filter(Filter(s, p), q) == Filter(s, pq)
  {
    if s != [] {
      FilterTwice(s[1..], p, q, pq);
      var tail := Filter(s[1..], p);
      if p(s[0]) {
        assert Filter(s, p) == [s[0]] + tail;
        assert Filter([s[0]] + tail, q) == (if q(s[0]) then [s[0]] else []) + Filter(tail, q) by {
          assert ([s[0]] + tail)[1..] == tail;
        }
      } else {
        assert Filter(s, p) == tail;
        assert !pq(s[0]);
      }
    }
  }

  /** Filters by predicates that agree everywhere give the same result. */
  lemma {:induction false} FilterExt<T(!new)>(s: seq<T>, p: T -> bool, q: T -> bool)
    requires forall x :: p(x) == q(x)
    ensures Filter(s, p) == Filter(s, q)
  {
    if s != [] {
      FilterExt(s[1..], p, q);
    }
  }

  /** A filter stage that runs only when `cond` holds is a filter by `!cond || p`. */
  lemma FilterWhen<T(!new)>(s: seq<T>, cond: bool, p: T -> bool, q: T -> bool)
    requires forall x :: q(x) == (!cond || p(x))
    ensures (if cond then Filter(s, p) else s) == Filter(s, q)
  {
    if cond {
      FilterExt(s, p, q);
    } else {
      FilterAll(s, q);
    }
  }

  /** A filter whose predicate holds nowhere keeps nothing. */
  lemma {:induction false} FilterNone<T(!new)>(s: seq<T>, p: T -> bool)
    requires forall x :: !p(x)
    ensures Filter(s, p) == []
  {
    if s != [] {
      FilterNone(s[1..], p);
    }
  }

  /** A filter whose predicate holds everywhere changes nothing. */
  lemma {:induction false} FilterAll<T(!new)>(s: seq<T>, p: T -> bool)
    requires forall x :: x in s ==> p(x)
    ensures Filter(s, p) == s
  {
    if s != [] {
      assert forall x :: x in s[1..] ==> x in s;
      FilterAll(s[1..], p);
    }
  }

  /** Filtering a list without repeats leaves one without repeats. */
  lemma {:induction false} FilterKeepsNoDup<T(!new)>(s: seq<T>, p: T -> bool)
    requires NoDup(s)
    ensures NoDup(Filter(s, p))
  {
    if s != [] {
      FilterKeepsNoDup(s[1..], p);
      FilterMembers(s[1..], p);
      assert s[0] !in s[1..];
    }
  }

  /** `xs.filter(y => y !== x)`: every occurrence of `x` goes, the rest keep their order. */
  function RemoveAll<T(==,!new)>(s: seq<T>, x: T): (r: seq<T>)
    ensures x !in r
    ensures forall y :: y != x ==> (y in r <==> y in s)
    ensures x !in s ==> r == s
    ensures IsSubsequence(r, s)
  {
    var r := Filter(s, Unequal(x));
    FilterMembers(s, Unequal(x));
    FilterIsSubsequence(s, Unequal(x));
    if x !in s then FilterAll(s, Unequal(x)); r else r
  }

  function Unequal<T(==)>(x: T): T -> bool {
    y => y != x
  }

  /** Removing an element just appended where it was absent gives the list back. */
  lemma RemoveAppended<T(!new)>(s: seq<T>, x: T)
    requires x !in s
    ensures RemoveAll(s + [x], x) == s
  {
    FilterConcat(s, [x], Unequal(x));
    assert [x][1..] == [];
    assert Filter([x], Unequal(x)) == [];
    assert RemoveAll(s, x) == s;
  }

  /** Filtering commutes with concatenation. */
  lemma {:induction false} FilterConcat<T>(a: seq<T>, b: seq<T>, p: T -> bool)
    ensures Filter(a + b, p) == Filter(a, p) + Filter(b, p)
  {
    if a == [] {
      assert a + b == b;
    } else {
      assert (a + b)[0] == a[0] && (a + b)[1..] == a[1..] + b;
      FilterConcat(a[1..], b, p);
    }
  }

  /** `if (!s.includes(x)) s.push(x)`. */
  function AppendIfAbsent<T(==)>(s: seq<T>, x: T): seq<T> {
    if x in s then s else s + [x]
  }

  /** Appending only what is absent keeps a list free of repeats and adds exactly `x`. */
  lemma AppendIfAbsentFacts<T(!new)>(s: seq<T>, x: T)
    ensures forall y :: y in AppendIfAbsent(s, x) <==> y in s || y == x
    ensures NoDup(s) ==> NoDup(AppendIfAbsent(s, x))
  {
  }

  /** Adds every element of `xs` in turn with `AppendIfAbsent` (a `forEach` over a `Set`). */
  function AddAll<T(==)>(acc: seq<T>, xs: seq<T>): seq<T>
    decreases |xs|
  {
    if xs == [] then acc else AddAll(AppendIfAbsent(acc, xs[0]), xs[1..])
  }

  /** Adding every element keeps what was there as a prefix, ends up holding exactly the
      elements of both, and introduces no repeat. */
  lemma {:induction false} AddAllFacts<T(!new)>(acc: seq<T>, xs: seq<T>)
    ensures forall y :: y in AddAll(acc, xs) <==> y in acc || y in xs
    ensures NoDup(acc) ==> NoDup(AddAll(acc, xs))
    ensures IsPrefix(acc, AddAll(acc, xs))
    decreases |xs|
  {
    if xs != [] {
      var next := AppendIfAbsent(acc, xs[0]);
      AppendIfAbsentFacts(acc, xs[0]);
      AddAllFacts(next, xs[1..]);
      assert xs == [xs[0]] + xs[1..];
      var r := AddAll(next, xs[1..]);
      assert r[..|acc|] == next[..|next|][..|acc|];
    }
  }

  predicate IsPrefix<T(==,!new)>(a: seq<T>, b: seq<T>) {
    |a| <= |b| && b[..|a|] == a
  }

  /** The distinct elements of `s` in first-seen order: `[...new Set(s)]`. */
  function Distinct<T(==)>(s: seq<T>): seq<T> {
    if s == [] then [] else AppendIfAbsent(Distinct(s[..|s| - 1]), s[|s| - 1])
  }

  /** The distinct elements hold no repeat and are exactly the elements of `s`. */
  lemma {:induction false} DistinctFacts<T(!new)>(s: seq<T>)
    ensures NoDup(Distinct(s))
    ensures forall y :: y in Distinct(s) <==> y in s
  {
    if s != [] {
      var init := s[..|s| - 1];
      DistinctFacts(init);
      AppendIfAbsentFacts(Distinct(init), s[|s| - 1]);
      assert s == init + [s[|s| - 1]];
    }
  }

  /** The index of the first occurrence of `x`, or -1 (`Array.prototype.indexOf`). */
  function IndexOf<T(==,!new)>(s: seq<T>, x: T): (i: int)
    ensures -1 <= i < |s|
    ensures i == -1 <==> x !in s
    ensures 0 <= i ==> s[i] == x && x !in s[..i]
  {
    if s == [] then -1
    else if s[0] == x then 0
    else
      var j := IndexOf(s[1..], x);
      if j == -1 then -1 else (assert s[..j + 1] == [s[0]] + s[1..][..j]; j + 1)
  }

  /** Adding the elements of `b` one at a time to the distinct elements of `a` gives the
      distinct elements of `a + b`: the incremental update agrees with a full rebuild. */
  lemma {:induction false} AddAllDistinct<T(!new)>(a: seq<T>, b: seq<T>)
    ensures AddAll(Distinct(a), b) == Distinct(a + b)
    decreases |b|
  {
    if b == [] {
      assert a + b == a;
    } else {
      var a' := a + [b[0]];
      calc {
        AddAll(Distinct(a), b);
        AddAll(AppendIfAbsent(Distinct(a), b[0]), b[1..]);
        { assert a'[..|a'| - 1] == a; }
        AddAll(Distinct(a'), b[1..]);
        { AddAllDistinct(a', b[1..]); }
        Distinct(a' + b[1..]);
        { assert a' + b[1..] == a + b; }
        Distinct(a + b);
      }
    }
  }

  /** Distinct keeps first-seen order: an element that is seen first earlier comes earlier. */
  lemma {:induction false} DistinctFirstSeenOrder<T(!new)>(s: seq<T>, i: nat, j: nat)
    requires i < j < |Distinct(s)|
    ensures IndexOf(s, Distinct(s)[i]) < IndexOf(s, Distinct(s)[j])
    decreases |s|
  {
    var t := s[..|s| - 1];
    var x := s[|s| - 1];
    assert s == t + [x];
    var d := Distinct(t);
    DistinctFacts(t);
    IndexOfSnoc(t, x, Distinct(s)[i]);
    IndexOfSnoc(t, x, Distinct(s)[j]);
    if x in d {
      assert Distinct(s) == d;
      DistinctFirstSeenOrder(t, i, j);
    } else {
      assert Distinct(s) == d + [x];
      if j < |d| {
        DistinctFirstSeenOrder(t, i, j);
      } else {
        assert Distinct(s)[j] == x && x !in t;
        assert Distinct(s)[i] in t;
      }
    }
  }

  lemma IndexOfSnoc<T(!new)>(t: seq<T>, x: T, y: T)
    ensures y in t ==> IndexOf(t + [x], y) == IndexOf(t, y)
    ensures y !in t && y == x ==> IndexOf(t + [x], y) == |t|
  {
    var k := IndexOf(t + [x], y);
    if y in t {
      var i := IndexOf(t, y);
      assert (t + [x])[i] == y;
      assert (t + [x])[..i] == t[..i];
      assert (t + [x])[..k] == t[..k] || k == |t|;
    } else if y == x {
      assert (t + [x])[..|t|] == t;
    }
  }

  /** `splice(indexOf(x), 1)`: the first occurrence of `x` is removed. */
  function RemoveFirst<T(==,!new)>(s: seq<T>, x: T): (r: seq<T>)
    ensures x !in s ==> r == s
    ensures x in s ==> |r| == |s| - 1
    ensures x in s ==> r == s[..IndexOf(s, x)] + s[IndexOf(s, x) + 1..]
  {
    var i := IndexOf(s, x);
    if i == -1 then s else s[..i] + s[i + 1..]
  }

  /** Removing an element from a list without duplicates leaves no copy of it. */
  lemma RemoveFirstNoDup<T(!new)>(s: seq<T>, x: T)
    requires NoDup(s) && x in s
    ensures x !in RemoveFirst(s, x)
    ensures NoDup(RemoveFirst(s, x))
  {
    var i := IndexOf(s, x);
    var r := RemoveFirst(s, x);
    forall k | 0 <= k < |r| ensures r[k] != x {
      if k < i { assert r[k] == s[k]; } else { assert r[k] == s[k + 1]; }
    }
    forall a, b | 0 <= a < b < |r| ensures r[a] != r[b] {
      var a' := if a < i then a else a + 1;
      var b' := if b < i then b else b + 1;
      assert r[a] == s[a'] && r[b] == s[b'];
    }
  }
}
