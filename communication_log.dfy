/** The communication-log handlers of the server: creating a log for a campaign and a
    customer, the delivery-status report that moves a log forward and tallies the
    campaign's delivery counters, deleting a log, and the per-status analytics. */
module CommunicationLogController {
  import opened Common
  import opened CampaignSchema
  import CampaignController

  /** A stored log, with the fields the handlers read and write. */
  datatype Log = Log(
    campaign: string, customer: string, message: string, status: string,
    deliveredAt: Option<int>, deliveryAttempts: int, failureReason: Option<string>)

  /** The body of a create request, after the route's own validation. */
  datatype LogBody = LogBody(campaign: string, customer: string, message: string, status: Option<string>)

  /** The statuses a report may carry. */
  const ValidStatuses: seq<string> := ["pending", "sent", "failed", "delivered", "opened"]

  /** A text field of a request body is truthy when present and non-empty. */
  predicate Truthy(s: Option<string>) {
    s.Some? && s.value != ""
  }

  const LogNotFound := CampaignController.Reply(404, "Communication log not found")

  /** The replies that refuse a status report before any lookup: a missing or empty
      status, then one outside `ValidStatuses`. */
  function StatusRejection(status: Option<string>): (r: Option<CampaignController.Reply>)
    ensures r.None? <==> status.Some? && status.value in ValidStatuses
    ensures r.Some? ==> r.value.code == 400
  {
    if !Truthy(status) then Some(CampaignController.Reply(400, "Please provide a status"))
    else if status.value !in ValidStatuses then
      Some(CampaignController.Reply(400, "Invalid status. Must be one of: pending, sent, failed, delivered, opened"))
    else None
  }

  /** The log after a report of `status` at time `now`, with the optional failure
      reason of the request. */
  function Transition(log: Log, status: string, reason: Option<string>, now: int): (r: Log)
    ensures r.status == status
    ensures r.deliveredAt == (if status == "delivered" then Some(now) else log.deliveredAt)
    ensures r.deliveryAttempts == log.deliveryAttempts + (if status == "failed" then 1 else 0)
    ensures status == "failed" && Truthy(reason) ==> r.failureReason == reason
    ensures status != "failed" || !Truthy(reason) ==> r.failureReason == log.failureReason
    ensures r.campaign == log.campaign && r.customer == log.customer && r.message == log.message
  {
    var moved := log.(status := status);
    var stamped := if status == "delivered" then moved.(deliveredAt := Some(now)) else moved;
    if status != "failed" then stamped
    else
      var counted := stamped.(deliveryAttempts := stamped.deliveryAttempts + 1);
      if Truthy(reason) then counted.(failureReason := reason) else counted
  }

  /** The campaign after a `sent` or `failed` report of one of its logs is saved. */
  function Tally(c: Campaign, status: string, now: int): (r: Campaign)
    requires status == "sent" || status == "failed"
    ensures r.deliveryStats.sent == c.deliveryStats.sent + (if status == "sent" then 1 else 0)
    ensures r.deliveryStats.failed == c.deliveryStats.failed + (if status == "failed" then 1 else 0)
    ensures r.updatedAt == now
    ensures r.(deliveryStats := c.deliveryStats, updatedAt := c.updatedAt) == c
  {
    var stats := c.deliveryStats;
    var counted := if status == "sent" then stats.(sent := stats.sent + 1) else stats.(failed := stats.failed + 1);
    c.(deliveryStats := counted, updatedAt := now)
  }

  /** The campaigns after a report for a log of campaign `id`: only a `sent` or
      `failed` report of an existing campaign changes anything. */
  function CountDelivery(campaigns: map<string, Campaign>, id: string, status: string, now: int)
    : (r: map<string, Campaign>)
    ensures r.Keys == campaigns.Keys
    ensures forall k :: k in campaigns && k != id ==> r[k] == campaigns[k]
    ensures status != "sent" && status != "failed" ==> r == campaigns
    ensures id in campaigns && (status == "sent" || status == "failed") ==> r[id] == Tally(campaigns[id], status, now)
  {
    if (status == "sent" || status == "failed") && id in campaigns then campaigns[id := Tally(campaigns[id], status, now)]
    else campaigns
  }

  /** The log `createCommunicationLog` stores for a body; the status defaults to
      `sent`, the counter starts at zero. */
  function NewLog(body: LogBody): (r: Log)
    ensures r.campaign == body.campaign && r.customer == body.customer && r.message == body.message
    ensures r.deliveredAt == None && r.deliveryAttempts == 0 && r.failureReason == None
  {
    Log(body.campaign, body.customer, body.message, body.status.GetOr("sent"), None, 0, None)
  }

  // ---------------------------------------------------------------------------
  // A series of reports

  /** How often `x` occurs in `xs`. */
  function Occurrences(xs: seq<string>, x: string): nat {
    if xs == [] then 0 else Occurrences(xs[..|xs| - 1], x) + (if xs[|xs| - 1] == x then 1 else 0)
  }

  /** The campaign after the reports `statuses` for its logs, one after the other, the
      last at time `now`. */
  function Reports(c: Campaign, statuses: seq<string>, now: int): Campaign {
    if statuses == [] then c
    else
      var before := Reports(c, statuses[..|statuses| - 1], now);
      var last := statuses[|statuses| - 1];
      if last == "sent" || last == "failed" then Tally(before, last, now) else before
  }

  /** The campaign's counters count exactly the `sent` and the `failed` reports, and
      nothing else of the campaign but its time stamp changes. */
  lemma {:induction false} ReportsCount(c: Campaign, statuses: seq<string>, now: int)
    ensures Reports(c, statuses, now).deliveryStats.sent == c.deliveryStats.sent + Occurrences(statuses, "sent")
    ensures Reports(c, statuses, now).deliveryStats.failed == c.deliveryStats.failed + Occurrences(statuses, "failed")
    ensures Reports(c, statuses, now).(deliveryStats := c.deliveryStats, updatedAt := c.updatedAt) == c
  {
    if statuses != [] {
      ReportsCount(c, statuses[..|statuses| - 1], now);
    }
  }

  /** The log after the reports `statuses`, each without a failure reason. */
  function Track(log: Log, statuses: seq<string>, now: int): Log {
    if statuses == [] then log
    else Transition(Track(log, statuses[..|statuses| - 1], now), statuses[|statuses| - 1], None, now)
  }

  /** The attempt counter counts the `failed` reports, and the status is the last one
      reported. */
  lemma {:induction false} TrackCountsAttempts(log: Log, statuses: seq<string>, now: int)
    ensures Track(log, statuses, now).deliveryAttempts == log.deliveryAttempts + Occurrences(statuses, "failed")
    ensures statuses != [] ==> Track(log, statuses, now).status == statuses[|statuses| - 1]
    ensures Track(log, statuses, now).failureReason == log.failureReason
  {
    if statuses != [] {
      TrackCountsAttempts(log, statuses[..|statuses| - 1], now);
    }
  }

  // ---------------------------------------------------------------------------
  // Analytics

  /** One row of the aggregation that groups the logs by status. */
  datatype Group = Group(id: string, count: int)

  /** The total after the first rows, as the loop adds them up. */
  function SumCounts(groups: seq<Group>): int {
    if groups == [] then 0 else SumCounts(groups[..|groups| - 1]) + groups[|groups| - 1].count
  }

  /** The `byStatus` object after the first rows: each row sets its status. */
  function ByStatus(groups: seq<Group>): (r: map<string, int>)
    ensures forall k :: k in r <==> exists i :: 0 <= i < |groups| && groups[i].id == k
  {
    if groups == [] then map[]
    else
      var init := groups[..|groups| - 1];
      var r := ByStatus(init)[groups[|groups| - 1].id := groups[|groups| - 1].count];
      assert forall i :: 0 <= i < |init| ==> init[i] == groups[i];
      r
  }

  predicate DistinctIds(groups: seq<Group>) {
    forall i, j :: 0 <= i < j < |groups| ==> groups[i].id != groups[j].id
  }

  /** With distinct statuses, `byStatus` holds every row's own count. */
  lemma {:induction false} ByStatusHoldsCounts(groups: seq<Group>, i: int)
    requires DistinctIds(groups) && 0 <= i < |groups|
    ensures ByStatus(groups)[groups[i].id] == groups[i].count
  {
    if i < |groups| - 1 {
      var init := groups[..|groups| - 1];
      assert init[i] == groups[i];
      ByStatusHoldsCounts(init, i);
    }
  }

  /** The statuses of `xs` that are among `ids`, counted. */
  function CountIn(xs: seq<string>, ids: set<string>): nat {
    if xs == [] then 0 else CountIn(xs[..|xs| - 1], ids) + (if xs[|xs| - 1] in ids then 1 else 0)
  }

  lemma {:induction false} CountInAdd(xs: seq<string>, ids: set<string>, x: string)
    requires x !in ids
    ensures CountIn(xs, ids + {x}) == CountIn(xs, ids) + Occurrences(xs, x)
  {
    if xs != [] {
      CountInAdd(xs[..|xs| - 1], ids, x);
    }
  }

  lemma {:induction false} CountInAll(xs: seq<string>, ids: set<string>)
    requires forall i :: 0 <= i < |xs| ==> xs[i] in ids
    ensures CountIn(xs, ids) == |xs|
  {
    if xs != [] {
      CountInAll(xs[..|xs| - 1], ids);
    }
  }

  function Ids(groups: seq<Group>): set<string> {
    set i | 0 <= i < |groups| :: groups[i].id
  }

  /** Rows that count the logs of their status add up to the logs of those statuses. */
  lemma {:induction false} SumCountsCountIn(statuses: seq<string>, groups: seq<Group>)
    requires DistinctIds(groups)
    requires forall i :: 0 <= i < |groups| ==> groups[i].count == Occurrences(statuses, groups[i].id)
    ensures SumCounts(groups) == CountIn(statuses, Ids(groups))
  {
    if groups == [] {
      assert Ids(groups) == {};
      CountInNone(statuses);
    } else {
      var init := groups[..|groups| - 1];
      var last := groups[|groups| - 1];
      assert forall i :: 0 <= i < |init| ==> init[i] == groups[i];
      SumCountsCountIn(statuses, init);
      assert Ids(groups) == Ids(init) + {last.id} by {
        forall k | k in Ids(groups) ensures k in Ids(init) + {last.id} {
          var i :| 0 <= i < |groups| && groups[i].id == k;
          if i < |init| {
            assert init[i].id == k;
          }
        }
      }
      assert last.id !in Ids(init);
      CountInAdd(statuses, Ids(init), last.id);
    }
  }

  lemma {:induction false} CountInNone(xs: seq<string>)
    ensures CountIn(xs, {}) == 0
  {
    if xs != [] {
      CountInNone(xs[..|xs| - 1]);
    }
  }

  /** When the aggregation has one row per status that occurs, with its number of
      logs, the analytics total is the number of logs. */
  lemma TotalCountsEveryLog(statuses: seq<string>, groups: seq<Group>)
    requires DistinctIds(groups)
    requires forall i :: 0 <= i < |groups| ==> groups[i].count == Occurrences(statuses, groups[i].id)
    requires forall i :: 0 <= i < |statuses| ==> statuses[i] in Ids(groups)
    ensures SumCounts(groups) == |statuses|
  {
    SumCountsCountIn(statuses, groups);
    CountInAll(statuses, Ids(groups));
  }

  // ---------------------------------------------------------------------------
  // The collections

  class LogStore {
    var logs: map<string, Log>
    var campaigns: map<string, Campaign>
    var customers: set<string>

    /** Attempt and delivery counters never go below zero. */
    predicate Valid()
      reads this
    {
      (forall id :: id in logs ==> logs[id].deliveryAttempts >= 0)
      && (forall id :: id in campaigns ==> campaigns[id].deliveryStats.sent >= 0 && campaigns[id].deliveryStats.failed >= 0)
    }

    constructor(campaigns: map<string, Campaign>, customers: set<string>)
      requires forall id :: id in campaigns ==> campaigns[id].deliveryStats.sent >= 0 && campaigns[id].deliveryStats.failed >= 0
      ensures this.logs == map[] && this.campaigns == campaigns && this.customers == customers
      ensures Valid()
    {
      this.logs := map[];
      this.campaigns := campaigns;
      this.customers := customers;
    }

    /** `createCommunicationLog`: a body the route refuses gives 400; the campaign is
        looked up first, then the customer, and either missing gives 404 with nothing
        created; otherwise the log is stored under the fresh id `newId`. */
    method Create(body: LogBody, inputValid: bool, newId: string) returns (reply: CampaignController.Reply)
      requires newId !in logs && Valid()
      modifies this
      ensures Valid()
      ensures reply.code == 201 <==> inputValid && body.campaign in campaigns && body.customer in customers
      ensures reply.code == 201 ==> logs == old(logs)[newId := NewLog(body)]
      ensures reply.code != 201 ==> logs == old(logs)
      ensures reply.code == 404 <==> inputValid && (body.campaign !in campaigns || body.customer !in customers)
      ensures inputValid && body.campaign !in campaigns ==> reply == CampaignController.NotFound
      ensures campaigns == old(campaigns) && customers == old(customers)
    {
      if !inputValid {
        return CampaignController.Reply(400, "");
      }
      if body.campaign !in campaigns {
        return CampaignController.NotFound;
      }
      if body.customer !in customers {
        return CampaignController.Reply(404, "Customer not found");
      }
      logs := logs[newId := NewLog(body)];
      reply := CampaignController.Reply(201, "");
    }

    /** `updateLogStatus`: the status is checked before any lookup; a missing log gives
        404; otherwise the log moves by `Transition` and, for `sent` and `failed`, its
        campaign's counter is tallied. */
    method UpdateStatus(id: string, status: Option<string>, reason: Option<string>, now: int)
      returns (reply: CampaignController.Reply)
      requires Valid()
      modifies this
      ensures Valid()
      ensures StatusRejection(status).Some? ==>
        reply == StatusRejection(status).value && logs == old(logs) && campaigns == old(campaigns)
      ensures StatusRejection(status).None? && id !in old(logs) ==>
        reply == LogNotFound && logs == old(logs) && campaigns == old(campaigns)
      ensures StatusRejection(status).None? && id in old(logs) ==>
        reply.code == 200
        && logs == old(logs)[id := Transition(old(logs)[id], status.value, reason, now)]
        && campaigns == CountDelivery(old(campaigns), old(logs)[id].campaign, status.value, now)
      ensures customers == old(customers)
    {
      var rejection := StatusRejection(status);
      if rejection.Some? {
        return rejection.value;
      }
      if id !in logs {
        return LogNotFound;
      }
      var s := status.value;
      var log := logs[id];
      log := log.(status := s);
      if s == "delivered" {
        log := log.(deliveredAt := Some(now));
      }
      if s == "failed" {
        log := log.(deliveryAttempts := log.deliveryAttempts + 1);
        if Truthy(reason) {
          log := log.(failureReason := reason);
        }
      }
      assert log == Transition(logs[id], s, reason, now);
      logs := logs[id := log];
      if s == "sent" || s == "failed" {
        TallyCampaign(log.campaign, s, now);
      }
      reply := CampaignController.Reply(200, "");
    }

    /** The campaign's save after a `sent` or `failed` report, when it exists. */
    method TallyCampaign(id: string, s: string, now: int)
      requires Valid() && (s == "sent" || s == "failed")
      modifies this
      ensures Valid()
      ensures campaigns == CountDelivery(old(campaigns), id, s, now)
      ensures logs == old(logs) && customers == old(customers)
    {
      if id in campaigns {
        var c := campaigns[id];
        var stats := c.deliveryStats;
        if s == "sent" {
          stats := stats.(sent := stats.sent + 1);
        } else {
          stats := stats.(failed := stats.failed + 1);
        }
        c := c.(deliveryStats := stats, updatedAt := now);
        campaigns := campaigns[id := c];
      }
    }

    /** `deleteLog`: a missing log gives 404; otherwise it is removed. */
    method Delete(id: string) returns (reply: CampaignController.Reply)
      requires Valid()
      modifies this
      ensures Valid()
      ensures reply == (if id in old(logs) then CampaignController.Reply(200, "") else LogNotFound)
      ensures logs == old(logs) - {id}
      ensures campaigns == old(campaigns) && customers == old(customers)
    {
      if id !in logs {
        return LogNotFound;
      }
      logs := logs - {id};
      reply := CampaignController.Reply(200, "");
    }
  }

  /** `getAnalytics`: the rows of the aggregation are visited in order, each setting
      its status's count and adding to the total. */
  method GetAnalytics(groups: seq<Group>) returns (total: int, byStatus: map<string, int>)
    ensures total == SumCounts(groups) && byStatus == ByStatus(groups)
  {
    total, byStatus := 0, map[];
    for k := 0 to |groups|
      invariant total == SumCounts(groups[..k]) && byStatus == ByStatus(groups[..k])
    {
      assert groups[..k + 1][..k] == groups[..k];
      byStatus := byStatus[groups[k].id := groups[k].count];
      total := total + groups[k].count;
    }
    assert groups[..|groups|] == groups;
  }
}
