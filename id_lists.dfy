/** The id-keyed list updates the Redux slices perform: `findIndex(x => x._id === id)`,
    replacing the element found, and `filter(x => x._id !== id)`. Ids are optional because
    `undefined === undefined` holds in JavaScript: an entry without an id matches a payload
    without one. */
module IdLists {
  import opened Common
  import Seqs

  /** `s.findIndex(x => key(x) === id)`: the first index whose key is `id`, or -1. */
  function FindIndex<T>(s: seq<T>, id: Option<string>, key: T -> Option<string>): (i: int)
    ensures -1 <= i < |s|
    ensures i == -1 <==> forall k :: 0 <= k < |s| ==> key(s[k]) != id
    ensures 0 <= i ==> key(s[i]) == id && forall k :: 0 <= k < i ==> key(s[k]) != id
  {
    if s == [] then -1
    else if key(s[0]) == id then 0
    else
      var j := FindIndex(s[1..], id, key);
      assert forall k :: 1 <= k < |s| ==> s[1..][k - 1] == s[k];
      if j == -1 then -1 else j + 1
  }

  /** `const i = findIndex(...); if (i !== -1) s[i] = x`: the first element carrying the id
      of `x` is replaced by `x`; without one the list is unchanged. */
  function ReplaceFirst<T>(s: seq<T>, x: T, key: T -> Option<string>): (r: seq<T>)
    ensures |r| == |s|
    ensures (forall k :: 0 <= k < |s| ==> key(s[k]) != key(x)) ==> r == s
    ensures forall k :: 0 <= k < |s| && key(s[k]) != key(x) ==> r[k] == s[k]
    ensures forall k :: 0 <= k < |s| && r[k] != s[k] ==> r[k] == x
  {
    var i := FindIndex(s, key(x), key);
    if i == -1 then s else s[i := x]
  }

  /** Replacing changes at most one entry: the first one with the matching id. */
  lemma ReplaceFirstAt<T>(s: seq<T>, x: T, key: T -> Option<string>, i: nat)
    requires i < |s| && key(s[i]) == key(x)
    requires forall k :: 0 <= k < i ==> key(s[k]) != key(x)
    ensures ReplaceFirst(s, x, key) == s[i := x]
  {
    var j := FindIndex(s, key(x), key);
    assert j == i;
  }

  /** `s.filter(x => key(x) !== id)`. */
  function RemoveId<T(==,!new)>(s: seq<T>, id: Option<string>, key: T -> Option<string>): (r: seq<T>)
    ensures forall k :: 0 <= k < |r| ==> key(r[k]) != id
    ensures forall y :: y in r <==> y in s && key(y) != id
    ensures Seqs.IsSubsequence(r, s)
  {
    Seqs.FilterIsSubsequence(s, y => key(y) != id);
    Seqs.FilterMembers(s, y => key(y) != id);
    Seqs.Filter(s, y => key(y) != id)
  }

  /** Removing an id nobody carries changes nothing. */
  lemma RemoveAbsentId<T(!new)>(s: seq<T>, id: Option<string>, key: T -> Option<string>)
    requires forall k :: 0 <= k < |s| ==> key(s[k]) != id
    ensures RemoveId(s, id, key) == s
  {
    Seqs.FilterAll(s, y => key(y) != id);
  }
}
