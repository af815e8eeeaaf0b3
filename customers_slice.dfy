/** The `customers` slice of the client store: the customer list together with the
    segments and tags that occur in it, each listed once in first-seen order. */
module CustomersSlice {
  import opened Common
  import Seqs
  import IdLists

  /** A customer's `segment`: absent or null, a single value, or an array. A single
      empty string is falsy, as absence is. */
  datatype Segment = NoSegment | OneSegment(s: string) | SegmentList(items: seq<string>)

  /** A customer's `tags`: an array, or anything else (which the client ignores). */
  datatype Tags = NoTags | TagList(items: seq<string>)

  /** A customer as the client holds it; a missing name or email is the empty string. */
  datatype Customer = Customer(id: Option<string>, name: string, email: string, segment: Segment, tags: Tags)

  function CustomerId(c: Customer): Option<string> { c.id }

  /** The segment values one customer contributes: an array's elements, a single
      non-empty value, or nothing for a falsy segment. */
  function SegmentsOf(c: Customer): (r: seq<string>)
    ensures c.segment.NoSegment? ==> r == []
    ensures c.segment.OneSegment? && c.segment.s == "" ==> r == []
    ensures c.segment.OneSegment? && c.segment.s != "" ==> r == [c.segment.s]
    ensures c.segment.SegmentList? ==> r == c.segment.items
  {
    match c.segment
    case NoSegment => []
    case OneSegment(s) => if s == "" then [] else [s]
    case SegmentList(items) => items
  }

  /** The tags one customer contributes: only an array of tags counts. */
  function TagsOf(c: Customer): (r: seq<string>)
    ensures c.tags.NoTags? ==> r == []
    ensures c.tags.TagList? ==> r == c.tags.items
  {
    match c.tags
    case NoTags => []
    case TagList(items) => items
  }

  /** Every segment value of the list, customer by customer, repeats included. */
  function AllSegments(cs: seq<Customer>): seq<string> {
    if cs == [] then [] else AllSegments(cs[..|cs| - 1]) + SegmentsOf(cs[|cs| - 1])
  }

  function AllTags(cs: seq<Customer>): seq<string> {
    if cs == [] then [] else AllTags(cs[..|cs| - 1]) + TagsOf(cs[|cs| - 1])
  }

  /** A value is a known segment iff some customer of the list contributes it. */
  lemma {:induction false} AllSegmentsMembers(cs: seq<Customer>, s: string)
    ensures s in AllSegments(cs) <==> exists k :: 0 <= k < |cs| && s in SegmentsOf(cs[k])
  {
    if cs != [] {
      var init := cs[..|cs| - 1];
      AllSegmentsMembers(init, s);
      assert forall k :: 0 <= k < |init| ==> init[k] == cs[k];
      if s in SegmentsOf(cs[|cs| - 1]) {
        assert s in AllSegments(cs);
      }
    }
  }

  /** The facts `addCustomer` needs about its new derived lists, on values. */
  lemma AddKeepsDerived(cs: seq<Customer>, segs: seq<string>, tgs: seq<string>, c: Customer)
    ensures segs == Seqs.Distinct(AllSegments(cs)) && tgs == Seqs.Distinct(AllTags(cs)) ==>
              Seqs.AddAll(segs, SegmentsOf(c)) == Seqs.Distinct(AllSegments(cs + [c]))
              && Seqs.AddAll(tgs, TagsOf(c)) == Seqs.Distinct(AllTags(cs + [c]))
    ensures Seqs.NoDup(segs) ==> Seqs.NoDup(Seqs.AddAll(segs, SegmentsOf(c)))
    ensures Seqs.NoDup(tgs) ==> Seqs.NoDup(Seqs.AddAll(tgs, TagsOf(c)))
  {
    IncrementalAgreesWithRebuild(cs, c);
    Seqs.AddAllFacts(segs, SegmentsOf(c));
    Seqs.AddAllFacts(tgs, TagsOf(c));
  }

  /** Adding one customer's values to the distinct values of a list gives the distinct
      values of the longer list: `addCustomer`'s incremental update agrees with a rebuild. */
  lemma IncrementalAgreesWithRebuild(cs: seq<Customer>, c: Customer)
    ensures Seqs.AddAll(Seqs.Distinct(AllSegments(cs)), SegmentsOf(c)) == Seqs.Distinct(AllSegments(cs + [c]))
    ensures Seqs.AddAll(Seqs.Distinct(AllTags(cs)), TagsOf(c)) == Seqs.Distinct(AllTags(cs + [c]))
  {
    assert (cs + [c])[..|cs|] == cs;
    Seqs.AddAllDistinct(AllSegments(cs), SegmentsOf(c));
    Seqs.AddAllDistinct(AllTags(cs), TagsOf(c));
  }

  lemma RecomputeStep(cs: seq<Customer>, i: nat)
    requires i < |cs|
    ensures Seqs.AddAll(Seqs.Distinct(AllSegments(cs[..i])), SegmentsOf(cs[i])) == Seqs.Distinct(AllSegments(cs[..i + 1]))
    ensures Seqs.AddAll(Seqs.Distinct(AllTags(cs[..i])), TagsOf(cs[i])) == Seqs.Distinct(AllTags(cs[..i + 1]))
  {
    IncrementalAgreesWithRebuild(cs[..i], cs[i]);
    TakeSnoc(cs, i);
  }

  lemma TakeSnoc<T>(s: seq<T>, i: nat)
    requires i < |s|
    ensures s[..i] + [s[i]] == s[..i + 1]
  {
  }

  /** The derived lists of any customer list hold no repeats. */
  lemma DerivedNoDup(cs: seq<Customer>)
    ensures Seqs.NoDup(Seqs.Distinct(AllSegments(cs))) && Seqs.NoDup(Seqs.Distinct(AllTags(cs)))
  {
    Seqs.DistinctFacts(AllSegments(cs));
    Seqs.DistinctFacts(AllTags(cs));
  }

  /** A single segment value is added only when it is not yet known. */
  lemma OneSegmentAdded(known: seq<string>, s: string)
    ensures Seqs.AddAll(known, [s]) == Seqs.AppendIfAbsent(known, s)
  {
    assert [s][1..] == [];
  }

  class CustomersSlice {
    var list: seq<Customer>
    var segments: seq<string>
    var tags: seq<string>

    /** `segments` and `tags` are the distinct values of `list` in first-seen order. */
    predicate Derived()
      reads this
    {
      segments == Seqs.Distinct(AllSegments(list)) && tags == Seqs.Distinct(AllTags(list))
    }

    constructor()
      ensures list == [] && segments == [] && tags == [] && Derived()
    {
      list := [];
      segments := [];
      tags := [];
    }

    /** The `forEach` that fills two insertion-ordered sets from the list, then stores
        them as arrays. */
    method Recompute()
      modifies this
      ensures list == old(list) && Derived()
    {
      var segs: seq<string> := [];
      var tgs: seq<string> := [];
      var i := 0;
      while i < |list|
        invariant list == old(list) && 0 <= i <= |list|
        invariant segs == Seqs.Distinct(AllSegments(list[..i]))
        invariant tgs == Seqs.Distinct(AllTags(list[..i]))
      {
        RecomputeStep(list, i);
        segs := Seqs.AddAll(segs, SegmentsOf(list[i]));
        tgs := Seqs.AddAll(tgs, TagsOf(list[i]));
        i := i + 1;
      }
      assert list[..i] == list;
      segments := segs;
      tags := tgs;
    }

    method SetCustomers(payload: seq<Customer>)
      modifies this
      ensures list == payload && Derived()
      ensures Seqs.NoDup(segments) && Seqs.NoDup(tags)
    {
      list := payload;
      Recompute();
      DerivedNoDup(list);
    }

    /** Appends the customer and pushes the segments and tags not yet known. */
    method AddCustomer(c: Customer)
      modifies this
      ensures list == old(list) + [c]
      ensures segments == Seqs.AddAll(old(segments), SegmentsOf(c))
      ensures tags == Seqs.AddAll(old(tags), TagsOf(c))
      ensures old(Derived()) ==> Derived()
      ensures Seqs.NoDup(old(segments)) ==> Seqs.NoDup(segments)
      ensures Seqs.NoDup(old(tags)) ==> Seqs.NoDup(tags)
    {
      AddKeepsDerived(list, segments, tags, c);
      list := list + [c];
      match c.segment {
        case NoSegment =>
        case SegmentList(items) =>
          segments := Seqs.AddAll(segments, items);
        case OneSegment(s) =>
          if s != "" {
            OneSegmentAdded(segments, s);
            segments := Seqs.AppendIfAbsent(segments, s);
          } else {
            assert Seqs.AddAll(segments, []) == segments;
          }
      }
      tags := Seqs.AddAll(tags, TagsOf(c));
    }

    /** Replaces the first customer with the payload's id and rebuilds the derived lists;
        without a match nothing changes at all. */
    method UpdateCustomer(c: Customer)
      modifies this
      ensures (forall k :: 0 <= k < |old(list)| ==> old(list)[k].id != c.id) ==>
                list == old(list) && segments == old(segments) && tags == old(tags)
      ensures (exists k :: 0 <= k < |old(list)| && old(list)[k].id == c.id) ==>
                list == IdLists.ReplaceFirst(old(list), c, CustomerId) && Derived()
      ensures list == IdLists.ReplaceFirst(old(list), c, CustomerId)
      ensures Seqs.NoDup(old(segments)) ==> Seqs.NoDup(segments)
      ensures Seqs.NoDup(old(tags)) ==> Seqs.NoDup(tags)
    {
      var index := IdLists.FindIndex(list, c.id, CustomerId);
      if index != -1 {
        list := list[index := c];
        Recompute();
        DerivedNoDup(list);
      }
    }

    /** Removes every customer with the id and rebuilds the derived lists. */
    method RemoveCustomer(id: Option<string>)
      modifies this
      ensures list == IdLists.RemoveId(old(list), id, CustomerId) && Derived()
      ensures Seqs.NoDup(segments) && Seqs.NoDup(tags)
    {
      list := IdLists.RemoveId(list, id, CustomerId);
      Recompute();
      DerivedNoDup(list);
    }
  }
}
