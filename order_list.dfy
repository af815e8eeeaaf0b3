/** The order list page: the per-status counts shown on the badges, and the orders shown,
    filtered by status and search term and sorted newest first. */
module OrderList {
  import opened Common
  import Seqs
  import Text
  import Sorting
  import opened OrderSlice

  const Statuses: seq<string> := ["pending", "processing", "shipped", "delivered", "cancelled"]

  datatype StatusCounts = StatusCounts(all: nat, pending: nat, processing: nat, shipped: nat,
                                       delivered: nat, cancelled: nat)

  /** The number of orders whose status is exactly `st`. */
  function CountStatus(os: seq<Order>, st: string): nat {
    |Seqs.Filter(os, (o: Order) => o.status == Some(st))|
  }

  /** The entries of the store's list when none is null. */
  function Present(entries: seq<Option<Order>>): (os: seq<Order>)
    requires forall k :: 0 <= k < |entries| ==> entries[k].Some?
    ensures |os| == |entries|
    ensures forall k :: 0 <= k < |os| ==> entries[k] == Some(os[k])
  {
    seq(|entries|, k requires 0 <= k < |entries| && entries[k].Some? => entries[k].value)
  }

  /** The badge counts. `orders` is `None` when the store holds no array; a null entry
      makes reading its status throw, which is the `None` result. */
  function Counts(orders: Option<seq<Option<Order>>>): (r: Option<StatusCounts>)
    ensures orders.None? ==> r == Some(StatusCounts(0, 0, 0, 0, 0, 0))
    ensures orders.Some? ==> (r.None? <==> exists k :: 0 <= k < |orders.value| && orders.value[k].None?)
    ensures orders.Some? && r.Some? ==> r.value.all == |orders.value|
    ensures orders.Some? && r.Some? ==>
              var os := Present(orders.value);
              r.value.pending == CountStatus(os, "pending") && r.value.processing == CountStatus(os, "processing")
              && r.value.shipped == CountStatus(os, "shipped") && r.value.delivered == CountStatus(os, "delivered")
              && r.value.cancelled == CountStatus(os, "cancelled")
  {
    if orders.None? then Some(StatusCounts(0, 0, 0, 0, 0, 0))
    else if exists k :: 0 <= k < |orders.value| && orders.value[k].None? then None
    else
      var os := Present(orders.value);
      Some(StatusCounts(|orders.value|, CountStatus(os, "pending"), CountStatus(os, "processing"),
                        CountStatus(os, "shipped"), CountStatus(os, "delivered"), CountStatus(os, "cancelled")))
  }

  /** Orders with some other status or none. */
  function CountOther(os: seq<Order>): nat {
    |Seqs.Filter(os, (o: Order) => o.status !in OptStatuses())|
  }

  function OptStatuses(): seq<Option<string>> {
    [Some("pending"), Some("processing"), Some("shipped"), Some("delivered"), Some("cancelled")]
  }

  /** The five status badges and the orders in no badge add up to the `all` badge: no
      order is counted twice. */
  lemma {:induction false} CountsPartition(os: seq<Order>)
    ensures CountStatus(os, "pending") + CountStatus(os, "processing") + CountStatus(os, "shipped")
            + CountStatus(os, "delivered") + CountStatus(os, "cancelled") + CountOther(os) == |os|
  {
    if os != [] {
      CountsPartition(os[1..]);
    }
  }

  /** One search field: a falsy value does not match, a string matches when its lower-case
      form contains the term, and any other value throws (`None`). */
  function FieldHit(f: JsText, term: string): Option<bool> {
    match f
    case Absent => Some(false)
    case Text(s) => Some(s != "" && Text.Includes(Text.Lower(s), term))
    case NonText => None
  }

  /** `matchesSearch`: the `||` chain over order number, customer name and customer email,
      evaluated left to right and stopping at the first match. */
  function SearchOutcome(o: Order, searchTerm: string): (r: Option<bool>)
    ensures searchTerm == "" ==> r == Some(true)
  {
    if searchTerm == "" then Some(true)
    else
      var term := Text.Lower(searchTerm);
      var a := FieldHit(o.orderNumber, term);
      if a != Some(false) then a
      else
        var b := FieldHit(o.customerName, term);
        if b != Some(false) then b else FieldHit(o.customerEmail, term)
  }

  predicate StatusMatch(o: Order, filterStatus: string) {
    filterStatus == "all" || o.status == Some(filterStatus)
  }

  /** The filter callback over the entries, `None` when one of them throws. */
  function Scan(entries: seq<Option<Order>>, filterStatus: string, searchTerm: string): Option<seq<Order>> {
    if entries == [] then Some([])
    else
      var rest := Scan(entries[1..], filterStatus, searchTerm);
      match entries[0]
      case None => rest
      case Some(o) =>
        var hit := SearchOutcome(o, searchTerm);
        if hit.None? || rest.None? then None
        else if StatusMatch(o, filterStatus) && hit.value then Some([o] + rest.value)
        else rest
  }

  function OrderTime(o: Order): int { o.createdAt.GetOr(0) }

  /** `filteredAndSortedOrders`: `[]` without an array or when filtering throws, otherwise
      the matching orders sorted by `createdAt`, newest first. */
  function Shown(orders: Option<seq<Option<Order>>>, filterStatus: string, searchTerm: string): seq<Order> {
    if orders.None? then []
    else
      match Scan(orders.value, filterStatus, searchTerm)
      case None => []
      case Some(kept) => Sorting.Sort(kept, Sorting.ByKeyDesc(OrderTime))
  }

  /** An order is kept iff it is a non-null entry whose status and search both match;
      whatever was kept came from the input. */
  lemma {:induction false} ScanKeeps(entries: seq<Option<Order>>, filterStatus: string, searchTerm: string)
    requires Scan(entries, filterStatus, searchTerm).Some?
    ensures forall o :: o in Scan(entries, filterStatus, searchTerm).value <==>
              Some(o) in entries && StatusMatch(o, filterStatus) && SearchOutcome(o, searchTerm) == Some(true)
  {
    if entries != [] {
      ScanKeeps(entries[1..], filterStatus, searchTerm);
      assert entries == [entries[0]] + entries[1..];
    }
  }

  /** Filtering throws exactly when some non-null entry's search throws. */
  lemma {:induction false} ScanThrows(entries: seq<Option<Order>>, filterStatus: string, searchTerm: string)
    ensures Scan(entries, filterStatus, searchTerm).None? <==>
              exists k :: 0 <= k < |entries| && entries[k].Some? && SearchOutcome(entries[k].value, searchTerm).None?
  {
    if entries != [] {
      ScanThrows(entries[1..], filterStatus, searchTerm);
      assert forall k :: 1 <= k < |entries| ==> entries[1..][k - 1] == entries[k];
    }
  }

  /** Without a search term nothing can throw, and the status `all` keeps every non-null
      entry. */
  lemma AllWithoutSearch(entries: seq<Option<Order>>)
    ensures Scan(entries, "all", "").Some?
    ensures forall o :: o in Scan(entries, "all", "").value <==> Some(o) in entries
  {
    ScanThrows(entries, "all", "");
    ScanKeeps(entries, "all", "");
  }

  /** The orders shown: `[]` when filtering throws; otherwise a permutation of the kept
      orders, in order of descending `createdAt`, a missing one counting as time 0. */
  lemma ShownMeaning(entries: seq<Option<Order>>, filterStatus: string, searchTerm: string)
    ensures Scan(entries, filterStatus, searchTerm).None? ==> Shown(Some(entries), filterStatus, searchTerm) == []
    ensures Scan(entries, filterStatus, searchTerm).Some? ==>
              var kept := Scan(entries, filterStatus, searchTerm).value;
              var r := Shown(Some(entries), filterStatus, searchTerm);
              multiset(r) == multiset(kept)
              && (forall i, j :: 0 <= i < j < |r| ==> OrderTime(r[i]) >= OrderTime(r[j]))
              && (forall o :: o in r <==> Some(o) in entries && StatusMatch(o, filterStatus) && SearchOutcome(o, searchTerm) == Some(true))
  {
    var sc := Scan(entries, filterStatus, searchTerm);
    if sc.Some? {
      ScanKeeps(entries, filterStatus, searchTerm);
      Sorting.SortByKey(OrderTime, sc.value);
      Sorting.SortPermutes(sc.value, Sorting.ByKeyDesc(OrderTime));
    }
  }

  /** The search ignores case and matches a substring of one of the three fields. */
  lemma SearchMeaning(o: Order, searchTerm: string)
    requires searchTerm != ""
    requires !o.orderNumber.NonText? && !o.customerName.NonText? && !o.customerEmail.NonText?
    ensures SearchOutcome(o, searchTerm) == Some(
              (o.orderNumber.Text? && o.orderNumber.s != "" && Text.Includes(Text.Lower(o.orderNumber.s), Text.Lower(searchTerm)))
              || (o.customerName.Text? && o.customerName.s != "" && Text.Includes(Text.Lower(o.customerName.s), Text.Lower(searchTerm)))
              || (o.customerEmail.Text? && o.customerEmail.s != "" && Text.Includes(Text.Lower(o.customerEmail.s), Text.Lower(searchTerm))))
  {
  }
}
