/** The customer list view: the search, segment and tag filters over the store's list, and
    the toggling of filter values. */
module CustomerList {
  import opened Common
  import Seqs
  import Text
  import opened CustomersSlice

  /** The search stage: a customer whose lower-cased name or email contains the
      lower-cased term. */
  predicate SearchHit(c: Customer, searchTerm: string) {
    var term := Text.Lower(searchTerm);
    (c.name != "" && Text.Includes(Text.Lower(c.name), term))
    || (c.email != "" && Text.Includes(Text.Lower(c.email), term))
  }

  /** The segment stage: a truthy segment that meets the active segments; a single
      empty string is falsy. */
  predicate SegmentHit(c: Customer, active: seq<string>) {
    match c.segment
    case NoSegment => false
    case OneSegment(s) => s != "" && s in active
    case SegmentList(items) => exists k :: 0 <= k < |items| && items[k] in active
  }

  /** The tag stage: an array of tags that meets the active tags. */
  predicate TagHit(c: Customer, active: seq<string>) {
    match c.tags
    case NoTags => false
    case TagList(items) => exists k :: 0 <= k < |items| && items[k] in active
  }

  function SearchPred(searchTerm: string): Customer -> bool {
    c => SearchHit(c, searchTerm)
  }

  function SegmentPred(active: seq<string>): Customer -> bool {
    c => SegmentHit(c, active)
  }

  function TagPred(active: seq<string>): Customer -> bool {
    c => TagHit(c, active)
  }

  /** The filtering effect: `customers` is `None` when the store holds no array. Each
      stage runs only when its filter is active, on the result of the stage before. */
  function Visible(customers: Option<seq<Customer>>, searchTerm: string, segments: seq<string>,
                   tags: seq<string>): (r: seq<Customer>)
    ensures customers.None? ==> r == []
  {
    if customers.None? then []
    else
      var afterSearch := if searchTerm != "" then Seqs.Filter(customers.value, SearchPred(searchTerm))
                         else customers.value;
      var afterSegments := if |segments| > 0 then Seqs.Filter(afterSearch, SegmentPred(segments))
                           else afterSearch;
      if |tags| > 0 then Seqs.Filter(afterSegments, TagPred(tags)) else afterSegments
  }

  /** The three stages combined with AND; an inactive stage keeps everyone. */
  predicate Keep(c: Customer, searchTerm: string, segments: seq<string>, tags: seq<string>) {
    (searchTerm == "" || SearchHit(c, searchTerm))
    && (|segments| == 0 || SegmentHit(c, segments))
    && (|tags| == 0 || TagHit(c, tags))
  }

  function KeepPred(searchTerm: string, segments: seq<string>, tags: seq<string>): Customer -> bool {
    c => Keep(c, searchTerm, segments, tags)
  }

  /** The staged filtering is one filter by the conjunction, so the visible customers are
      an order-preserving subsequence of the list: exactly those every active stage keeps. */
  lemma VisibleIsOneFilter(cs: seq<Customer>, searchTerm: string, segments: seq<string>, tags: seq<string>)
    ensures Visible(Some(cs), searchTerm, segments, tags) == Seqs.Filter(cs, KeepPred(searchTerm, segments, tags))
    ensures Seqs.IsSubsequence(Visible(Some(cs), searchTerm, segments, tags), cs)
    ensures forall c :: c in Visible(Some(cs), searchTerm, segments, tags) <==> c in cs && Keep(c, searchTerm, segments, tags)
  {
    var p1 := (c: Customer) => searchTerm == "" || SearchHit(c, searchTerm);
    var p2 := (c: Customer) => |segments| == 0 || SegmentHit(c, segments);
    var p3 := (c: Customer) => |tags| == 0 || TagHit(c, tags);
    var p12 := (c: Customer) => p1(c) && p2(c);
    var all := KeepPred(searchTerm, segments, tags);
    StagesAsFilters(cs, searchTerm, segments, tags, p1, p2, p3);
    Seqs.FilterTwice(cs, p1, p2, p12);
    Seqs.FilterTwice(cs, p12, p3, all);
    Seqs.FilterIsSubsequence(cs, all);
    Seqs.FilterMembers(cs, all);
  }

  lemma StagesAsFilters(cs: seq<Customer>, searchTerm: string, segments: seq<string>, tags: seq<string>,
                        p1: Customer -> bool, p2: Customer -> bool, p3: Customer -> bool)
    requires forall c :: p1(c) == (searchTerm == "" || SearchHit(c, searchTerm))
    requires forall c :: p2(c) == (|segments| == 0 || SegmentHit(c, segments))
    requires forall c :: p3(c) == (|tags| == 0 || TagHit(c, tags))
    ensures Visible(Some(cs), searchTerm, segments, tags) == Seqs.Filter(Seqs.Filter(Seqs.Filter(cs, p1), p2), p3)
  {
    var s1 := Seqs.Filter(cs, p1);
    var s2 := Seqs.Filter(s1, p2);
    Seqs.FilterWhen(cs, searchTerm != "", SearchPred(searchTerm), p1);
    Seqs.FilterWhen(s1, |segments| > 0, SegmentPred(segments), p2);
    Seqs.FilterWhen(s2, |tags| > 0, TagPred(tags), p3);
  }

  /** With no search term and no active filter every customer is shown, in order. */
  lemma NoFiltersShowAll(cs: seq<Customer>)
    ensures Visible(Some(cs), "", [], []) == cs
  {
  }

  /** The search ignores the case of the term. */
  lemma SearchIgnoresCase(c: Customer, searchTerm: string)
    ensures SearchHit(c, Text.Lower(searchTerm)) == SearchHit(c, searchTerm)
  {
    Text.LowerIdempotent(searchTerm);
  }

  datatype FilterKind = SegmentFilter | TagFilter

  /** `indexOf` then `push` or `splice(index, 1)`: a value not yet active is appended, an
      active one loses its first occurrence. */
  function Toggle(current: seq<string>, value: string): (r: seq<string>)
    ensures value !in current ==> r == current + [value]
    ensures value in current ==> r == Seqs.RemoveFirst(current, value)
  {
    if Seqs.IndexOf(current, value) == -1 then current + [value] else Seqs.RemoveFirst(current, value)
  }

  /** On filter lists without repeats, toggling flips the value's membership, keeps every
      other value, and keeps the list free of repeats. */
  lemma ToggleFlips(current: seq<string>, value: string)
    requires Seqs.NoDup(current)
    ensures value in Toggle(current, value) <==> value !in current
    ensures forall v :: v != value ==> (v in Toggle(current, value) <==> v in current)
    ensures Seqs.NoDup(Toggle(current, value))
  {
    var r := Toggle(current, value);
    if value in current {
      Seqs.RemoveFirstNoDup(current, value);
      var i := Seqs.IndexOf(current, value);
      assert current == current[..i] + [value] + current[i + 1..];
    }
  }

  /** Toggling a value on and off again restores the filter list. */
  lemma ToggleTwice(current: seq<string>, value: string)
    requires value !in current
    ensures Toggle(Toggle(current, value), value) == current
  {
    var t := current + [value];
    Seqs.IndexOfSnoc(current, value, value);
    assert t[..|current|] == current;
  }

  class CustomerListView {
    var searchTerm: string
    var activeSegments: seq<string>
    var activeTags: seq<string>

    constructor()
      ensures searchTerm == "" && activeSegments == [] && activeTags == []
    {
      searchTerm := "";
      activeSegments := [];
      activeTags := [];
    }

    /** Toggles the value in one filter list; the other list and the search stay. */
    method ToggleFilter(kind: FilterKind, value: string)
      modifies this
      ensures kind == SegmentFilter ==> activeSegments == Toggle(old(activeSegments), value) && activeTags == old(activeTags)
      ensures kind == TagFilter ==> activeTags == Toggle(old(activeTags), value) && activeSegments == old(activeSegments)
      ensures searchTerm == old(searchTerm)
    {
      var current := if kind == SegmentFilter then activeSegments else activeTags;
      var index := Seqs.IndexOf(current, value);
      if index == -1 {
        current := current + [value];
      } else {
        current := current[..index] + current[index + 1..];
      }
      if kind == SegmentFilter {
        activeSegments := current;
      } else {
        activeTags := current;
      }
    }

    method ClearFilters()
      modifies this
      ensures activeSegments == [] && activeTags == [] && searchTerm == ""
    {
      activeSegments := [];
      activeTags := [];
      searchTerm := "";
    }
  }
}
