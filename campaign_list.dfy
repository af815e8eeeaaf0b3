/** The campaign list page: the campaigns of the signed-in user, sorted by the column the
    user picked. */
module CampaignList {
  import opened Common
  import Seqs
  import Text
  import Sorting
  import opened CampaignsSlice

  /** The signed-in user; the session may carry the id as `id` or as `_id`. */
  datatype User = User(id: Option<string>, mongoId: Option<string>)

  function MinePred(user: Option<User>): CampaignRow -> bool {
    (c: CampaignRow) => user.Some? && (c.creatorId == user.value.id || c.creatorId == user.value.mongoId)
  }

  /** `allCampaigns?.filter(...)`, with `[]` standing for the missing list. */
  function Mine(all: Option<seq<CampaignRow>>, user: Option<User>): seq<CampaignRow> {
    if all.None? then [] else Seqs.Filter(all.value, MinePred(user))
  }

  /** Nobody signed in sees nothing; otherwise exactly the campaigns whose creator id is
      the user's `id` or `_id`, in list order. */
  lemma MineMeaning(all: seq<CampaignRow>, user: Option<User>)
    ensures user.None? ==> Mine(Some(all), user) == []
    ensures user.Some? ==> forall c :: c in Mine(Some(all), user) <==>
              c in all && (c.creatorId == user.value.id || c.creatorId == user.value.mongoId)
    ensures Seqs.IsSubsequence(Mine(Some(all), user), all)
  {
    Seqs.FilterMembers(all, MinePred(user));
    Seqs.FilterIsSubsequence(all, MinePred(user));
    if user.None? {
      Seqs.FilterNone(all, MinePred(user));
    }
  }

  datatype SortOrder = Asc | Desc

  datatype SortState = SortState(field: string, order: SortOrder)

  const InitialSort := SortState("createdAt", Desc)

  function Timestamp(c: CampaignRow, field: string): Option<int> {
    if field == "createdAt" then c.createdAt else c.scheduledDate
  }

  /** `audienceSize`, or `deliveryStats?.sent || 0`. */
  function Amount(c: CampaignRow, field: string): int {
    if field == "audienceSize" then c.audienceSize else c.sent.GetOr(0)
  }

  /** The value of a property when it is a string. */
  function TextProp(c: CampaignRow, field: string): Option<string> {
    if field == "status" then Some(c.status)
    else if field in c.texts then Some(c.texts[field])
    else None
  }

  predicate IsDateField(field: string) { field == "createdAt" || field == "scheduledDate" }

  predicate IsAmountField(field: string) { field == "audienceSize" || field == "deliveryStats.sent" }

  /** The comparator. A date difference with an invalid date is NaN, which the sort reads
      as 0; two non-strings compare as 0. */
  function CompareRows(field: string, order: SortOrder, a: CampaignRow, b: CampaignRow): int {
    if IsDateField(field) then
      var ta, tb := Timestamp(a, field), Timestamp(b, field);
      if ta.None? || tb.None? then 0
      else if order == Asc then ta.value - tb.value else tb.value - ta.value
    else if IsAmountField(field) then
      if order == Asc then Amount(a, field) - Amount(b, field) else Amount(b, field) - Amount(a, field)
    else
      var sa, sb := TextProp(a, field), TextProp(b, field);
      if sa.Some? && sb.Some? then
        (if order == Asc then Text.StrCmp(sa.value, sb.value) else Text.StrCmp(sb.value, sa.value))
      else 0
  }

  function Compare(st: SortState): (CampaignRow, CampaignRow) -> int {
    (a: CampaignRow, b: CampaignRow) => CompareRows(st.field, st.order, a, b)
  }

  /** The rows on display. */
  function Displayed(all: Option<seq<CampaignRow>>, user: Option<User>, st: SortState): seq<CampaignRow> {
    Sorting.Sort(Mine(all, user), Compare(st))
  }

  /** Sorting neither adds nor drops a campaign. */
  lemma DisplayedPermutes(all: Option<seq<CampaignRow>>, user: Option<User>, st: SortState)
    ensures multiset(Displayed(all, user, st)) == multiset(Mine(all, user))
    ensures forall c :: c in Displayed(all, user, st) <==> c in Mine(all, user)
  {
    Sorting.SortPermutes(Mine(all, user), Compare(st));
  }

  /** `a` may come before `b` in a sorted date column. */
  predicate InDateOrder(a: CampaignRow, b: CampaignRow, st: SortState) {
    var ta, tb := Timestamp(a, st.field), Timestamp(b, st.field);
    ta.Some? && tb.Some? && if st.order == Asc then ta.value <= tb.value else ta.value >= tb.value
  }

  predicate InAmountOrder(a: CampaignRow, b: CampaignRow, st: SortState) {
    if st.order == Asc then Amount(a, st.field) <= Amount(b, st.field) else Amount(a, st.field) >= Amount(b, st.field)
  }

  predicate InTextOrder(a: CampaignRow, b: CampaignRow, st: SortState) {
    var sa, sb := TextProp(a, st.field), TextProp(b, st.field);
    sa.Some? && sb.Some? && if st.order == Asc then Text.StrCmp(sa.value, sb.value) <= 0 else Text.StrCmp(sb.value, sa.value) <= 0
  }

  /** With every date present, a date column is in date order: ascending or descending. */
  lemma DatesSorted(s: seq<CampaignRow>, st: SortState)
    requires IsDateField(st.field)
    requires forall c :: c in s ==> Timestamp(c, st.field).Some?
    ensures var r := Sorting.Sort(s, Compare(st));
            forall i, j :: 0 <= i < j < |r| ==> InDateOrder(r[i], r[j], st)
  {
    var r := Sorting.Sort(s, Compare(st));
    DatesConsistent(s, st);
    Sorting.SortSorted(s, Compare(st));
    Sorting.SortPermutes(s, Compare(st));
    forall i, j | 0 <= i < j < |r| ensures InDateOrder(r[i], r[j], st) {
      assert r[i] in s && r[j] in s;
      DatePair(r[i], r[j], st);
    }
  }

  lemma DatesConsistent(s: seq<CampaignRow>, st: SortState)
    requires IsDateField(st.field)
    requires forall c :: c in s ==> Timestamp(c, st.field).Some?
    ensures Sorting.ConsistentOn(Compare(st), s)
  {
  }

  lemma DatePair(a: CampaignRow, b: CampaignRow, st: SortState)
    requires IsDateField(st.field) && Timestamp(a, st.field).Some? && Timestamp(b, st.field).Some?
    requires Compare(st)(a, b) <= 0
    ensures InDateOrder(a, b, st)
  {
  }

  /** An amount column is always in numeric order, a missing `sent` counting as 0. */
  lemma AmountsSorted(s: seq<CampaignRow>, st: SortState)
    requires IsAmountField(st.field)
    ensures var r := Sorting.Sort(s, Compare(st));
            forall i, j :: 0 <= i < j < |r| ==> InAmountOrder(r[i], r[j], st)
  {
    var r := Sorting.Sort(s, Compare(st));
    AmountsConsistent(s, st);
    Sorting.SortSorted(s, Compare(st));
    forall i, j | 0 <= i < j < |r| ensures InAmountOrder(r[i], r[j], st) {
      AmountPair(r[i], r[j], st);
    }
  }

  lemma AmountsConsistent(s: seq<CampaignRow>, st: SortState)
    requires IsAmountField(st.field)
    ensures Sorting.ConsistentOn(Compare(st), s)
  {
  }

  lemma AmountPair(a: CampaignRow, b: CampaignRow, st: SortState)
    requires IsAmountField(st.field) && Compare(st)(a, b) <= 0
    ensures InAmountOrder(a, b, st)
  {
  }

  /** Any other column holding a string on every row is in string order. */
  lemma TextsSorted(s: seq<CampaignRow>, st: SortState)
    requires !IsDateField(st.field) && !IsAmountField(st.field)
    requires forall c :: c in s ==> TextProp(c, st.field).Some?
    ensures var r := Sorting.Sort(s, Compare(st));
            forall i, j :: 0 <= i < j < |r| ==> InTextOrder(r[i], r[j], st)
  {
    var r := Sorting.Sort(s, Compare(st));
    TextsConsistent(s, st);
    Sorting.SortSorted(s, Compare(st));
    Sorting.SortPermutes(s, Compare(st));
    forall i, j | 0 <= i < j < |r| ensures InTextOrder(r[i], r[j], st) {
      assert r[i] in s && r[j] in s;
      TextPair(r[i], r[j], st);
    }
  }

  lemma TextsConsistent(s: seq<CampaignRow>, st: SortState)
    requires !IsDateField(st.field) && !IsAmountField(st.field)
    requires forall c :: c in s ==> TextProp(c, st.field).Some?
    ensures Sorting.ConsistentOn(Compare(st), s)
  {
    var cmp := Compare(st);
    forall a, b, c | a in s && b in s && c in s && cmp(a, b) <= 0 && cmp(b, c) <= 0 ensures cmp(a, c) <= 0 {
      var ta, tb, tc := TextProp(a, st.field).value, TextProp(b, st.field).value, TextProp(c, st.field).value;
      if st.order == Asc {
        Text.StrCmpTransitive(ta, tb, tc);
      } else {
        Text.StrCmpTransitive(tc, tb, ta);
      }
    }
    forall a, b | a in s && b in s ensures cmp(a, b) <= 0 || cmp(b, a) <= 0 {
      Text.StrCmpAntisymmetric(TextProp(a, st.field).value, TextProp(b, st.field).value);
    }
  }

  lemma TextPair(a: CampaignRow, b: CampaignRow, st: SortState)
    requires !IsDateField(st.field) && !IsAmountField(st.field)
    requires TextProp(a, st.field).Some? && TextProp(b, st.field).Some?
    requires Compare(st)(a, b) <= 0
    ensures InTextOrder(a, b, st)
  {
  }

  /** A column with no string value on any row compares everything as equal, and the
      list keeps its order. */
  lemma NonTextsKeepOrder(s: seq<CampaignRow>, st: SortState)
    requires !IsDateField(st.field) && !IsAmountField(st.field)
    requires forall c :: c in s ==> TextProp(c, st.field).None?
    ensures Sorting.Sort(s, Compare(st)) == s
  {
    Sorting.SortKeepsTies(s, Compare(st));
  }

  /** Clicking the current column flips the direction; another column is sorted
      descending. */
  function HandleSort(st: SortState, field: string): (r: SortState)
    ensures r.field == field
    ensures field == st.field ==> r.order != st.order
    ensures field != st.field ==> r.order == Desc
  {
    if field == st.field then SortState(field, if st.order == Asc then Desc else Asc)
    else SortState(field, Desc)
  }

  /** Two clicks on the same column restore the sort. */
  lemma HandleSortTwice(st: SortState)
    ensures HandleSort(HandleSort(st, st.field), st.field) == st
  {
  }

  /** The Execute button is offered to drafts and to scheduled campaigns. */
  predicate ExecuteOffered(c: CampaignRow) {
    c.status == "draft" || c.status == "scheduled"
  }
}
