/** The campaign request handlers: create, update and delete with the ownership rule,
    the execute / complete / schedule lifecycle, the audience count and the tag generator.
    The campaign collection is a map from document id to stored campaign that the
    handlers update in place; each handler's decision is a step function on the one
    document it touches. */
module CampaignController {
  import opened Common
  import opened CampaignSchema
  import Text
  import Seqs
  import CampaignList
  import CampaignsSlice

  /** The HTTP status code of a reply and its message. */
  datatype Reply = Reply(code: int, message: string)

  /** The signed-in user as the authentication middleware provides it. */
  datatype User = User(id: string, role: string)

  /** The decision of a handler about one document: its reply, and the document stored
      under the id afterwards (`None`: no document). */
  datatype Outcome = Outcome(reply: Reply, doc: Option<Campaign>)

  /** The stored document under `id`, as `findById` returns it. */
  function Find(docs: map<string, Campaign>, id: string): (r: Option<Campaign>)
    ensures r.Some? <==> id in docs
    ensures r.Some? ==> r.value == docs[id]
  {
    if id in docs then Some(docs[id]) else None
  }

  /** Storing an outcome's document under `id`, or deleting the id when there is none. */
  function Put(docs: map<string, Campaign>, id: string, doc: Option<Campaign>): (r: map<string, Campaign>)
    ensures Find(r, id) == doc
    ensures forall k :: k != id ==> Find(r, k) == Find(docs, k)
  {
    match doc
    case None => docs - {id}
    case Some(c) => docs[id := c]
  }

  /** Only the creator or an administrator may change or delete a campaign. */
  predicate MayModify(c: Campaign, user: User) {
    c.creator == user.id || user.role == "admin"
  }

  const NotFound := Reply(404, "Campaign not found")

  function ExecuteRejection(s: Status): string {
    "Campaign with status '" + StatusName(s) + "' cannot be executed"
  }

  // ---------------------------------------------------------------------------
  // Update and delete

  /** The fields a PUT body may set; `None` leaves the stored value. A body's
      `deliveryStats` is a whole object that replaces the stored one. */
  datatype Patch = Patch(
    name: Option<string>, segment: Option<string>, message: Option<string>,
    status: Option<string>, creator: Option<string>, description: Option<string>,
    segmentRules: Option<seq<RawRule>>, audienceSize: Option<int>,
    scheduledDate: Option<int>, tags: Option<seq<string>>, aiGeneratedTags: Option<seq<string>>,
    deliveryStats: Option<DeliveryStats>)

  /** The validators that run on the fields an update sets: required strings stay
      non-blank after trimming, the status is legal and every rule passes. */
  predicate PatchAdmissible(p: Patch) {
    (p.name.None? || Text.Trim(p.name.value) != "")
    && (p.segment.None? || Text.Trim(p.segment.value) != "")
    && (p.message.None? || Text.Trim(p.message.value) != "")
    && (p.status.None? || ParseStatus(p.status.value).Some?)
    && (p.creator.None? || p.creator.value != "")
    && (p.segmentRules.None? || ValidateRules(p.segmentRules.value).Some?)
  }

  function Pick<T>(o: Option<T>, old_: T): T {
    if o.Some? then o.value else old_
  }

  /** The document after `findByIdAndUpdate(id, body, {runValidators: true})` at time
      `now`, or `None` when a validator rejects the body. */
  function ApplyPatch(c: Campaign, p: Patch, now: int): (r: Option<Campaign>)
    ensures r.Some? <==> PatchAdmissible(p)
    ensures r.Some? ==> r.value.updatedAt == now && r.value.createdAt == c.createdAt
    ensures r.Some? ==> r.value.deliveryStats == p.deliveryStats.GetOr(c.deliveryStats)
    ensures r.Some? && p.status.Some? ==> StatusName(r.value.status) == p.status.value
    ensures r.Some? && p.status.None? ==> r.value.status == c.status
    ensures r.Some? ==> r.value.creator == p.creator.GetOr(c.creator)
    ensures r.Some? && p.name.Some? ==> r.value.name == Text.Trim(p.name.value)
    ensures r.Some? && p.name.None? ==> r.value.name == c.name
    ensures r.Some? && p.segment.Some? ==> r.value.segment == Text.Trim(p.segment.value)
    ensures r.Some? && p.segment.None? ==> r.value.segment == c.segment
    ensures r.Some? && p.message.Some? ==> r.value.message == Text.Trim(p.message.value)
    ensures r.Some? && p.message.None? ==> r.value.message == c.message
    ensures r.Some? && p.description.Some? ==> r.value.description == Some(Text.Trim(p.description.value))
    ensures r.Some? && p.description.None? ==> r.value.description == c.description
    ensures r.Some? && p.segmentRules.Some? ==> r.value.segmentRules == ValidateRules(p.segmentRules.value).value
    ensures r.Some? && p.segmentRules.None? ==> r.value.segmentRules == c.segmentRules
    ensures r.Some? && p.scheduledDate.Some? ==> r.value.scheduledDate == p.scheduledDate
    ensures r.Some? && p.scheduledDate.None? ==> r.value.scheduledDate == c.scheduledDate
    ensures r.Some? ==> r.value.audienceSize == p.audienceSize.GetOr(c.audienceSize)
    ensures r.Some? ==> r.value.tags == p.tags.GetOr(c.tags) && r.value.aiGeneratedTags == p.aiGeneratedTags.GetOr(c.aiGeneratedTags)
  {
    if !PatchAdmissible(p) then None
    else
      var status := if p.status.Some? then ParseStatus(p.status.value).value else c.status;
      assert p.status.Some? ==> StatusName(status) == p.status.value by {
        if p.status.Some? {
          StatusRoundTrip(status, p.status.value);
        }
      }
      Some(c.(
        name := Pick(TrimOpt(p.name), c.name),
        segment := Pick(TrimOpt(p.segment), c.segment),
        message := Pick(TrimOpt(p.message), c.message),
        status := status,
        creator := Pick(p.creator, c.creator),
        description := if p.description.Some? then TrimOpt(p.description) else c.description,
        segmentRules := if p.segmentRules.Some? then ValidateRules(p.segmentRules.value).value else c.segmentRules,
        audienceSize := Pick(p.audienceSize, c.audienceSize),
        scheduledDate := if p.scheduledDate.Some? then p.scheduledDate else c.scheduledDate,
        tags := Pick(p.tags, c.tags),
        aiGeneratedTags := Pick(p.aiGeneratedTags, c.aiGeneratedTags),
        deliveryStats := Pick(p.deliveryStats, c.deliveryStats),
        updatedAt := now))
  }

  /** An empty body changes only the modification time. */
  lemma EmptyPatchTouchesOnlyTime(c: Campaign, now: int)
    ensures ApplyPatch(c, Patch(None, None, None, None, None, None, None, None, None, None, None, None), now)
      == Some(c.(updatedAt := now))
  {
  }

  /** `updateCampaign`: not found, then the ownership rule, then the update. */
  function UpdateStep(doc: Option<Campaign>, user: User, p: Patch, now: int): (o: Outcome)
    ensures doc.None? ==> o == Outcome(NotFound, None)
    ensures doc.Some? && !MayModify(doc.value, user) ==> o.reply.code == 403 && o.doc == doc
    ensures doc.Some? && MayModify(doc.value, user) && !PatchAdmissible(p) ==> o.reply.code == 500 && o.doc == doc
    ensures doc.Some? && MayModify(doc.value, user) && PatchAdmissible(p) ==>
      o.reply.code == 200 && o.doc == ApplyPatch(doc.value, p, now)
  {
    match doc
    case None => Outcome(NotFound, None)
    case Some(c) =>
      if !MayModify(c, user) then Outcome(Reply(403, "Not authorized to update this campaign"), doc)
      else
        var u := ApplyPatch(c, p, now);
        if u.None? then Outcome(Reply(500, "Failed to update campaign"), doc)
        else Outcome(Reply(200, ""), u)
  }

  /** `deleteCampaign`: not found, then the ownership rule, then the removal. */
  function DeleteStep(doc: Option<Campaign>, user: User): (o: Outcome)
    ensures doc.None? ==> o == Outcome(NotFound, None)
    ensures doc.Some? && !MayModify(doc.value, user) ==> o.reply.code == 403 && o.doc == doc
    ensures doc.Some? && MayModify(doc.value, user) ==> o.reply.code == 200 && o.doc == None
  {
    match doc
    case None => Outcome(NotFound, None)
    case Some(c) =>
      if !MayModify(c, user) then Outcome(Reply(403, "Not authorized to delete this campaign"), doc)
      else Outcome(Reply(200, ""), None)
  }

  /** Someone who is neither the creator nor an administrator can change nothing, and
      a request that changes a document always came from one of them. */
  lemma OwnershipGuards(doc: Option<Campaign>, user: User, p: Patch, now: int)
    ensures UpdateStep(doc, user, p, now).doc != doc ==> doc.Some? && MayModify(doc.value, user)
    ensures DeleteStep(doc, user).doc != doc ==> doc.Some? && MayModify(doc.value, user)
    ensures doc.Some? && user.role == "admin" ==> DeleteStep(doc, user).reply.code == 200
  {
  }

  /** The ownership rule reads the creator stored before the update, and a body may set
      a new creator: an owner can hand a campaign over, after which they are refused. */
  lemma OwnerCanHandOver(c: Campaign, user: User, other: string, now: int)
    requires c.creator == user.id && user.role != "admin"
    requires other != "" && other != user.id
    ensures var p := Patch(None, None, None, None, Some(other), None, None, None, None, None, None, None);
      var u := UpdateStep(Some(c), user, p, now);
      u.reply.code == 200 && u.doc.Some? && u.doc.value.creator == other
      && DeleteStep(u.doc, user).reply.code == 403
  {
  }

  // ---------------------------------------------------------------------------
  // Lifecycle

  /** `executeCampaign`: only a draft may start; it becomes active and its execution is
      queued (the queueing itself is `CompleteStep`, run later). */
  function ExecuteStep(doc: Option<Campaign>, now: int): (o: Outcome)
    ensures doc.None? ==> o == Outcome(NotFound, None)
    ensures doc.Some? && doc.value.status != Draft ==>
      o == Outcome(Reply(400, ExecuteRejection(doc.value.status)), doc)
    ensures doc.Some? && doc.value.status == Draft ==>
      o.reply.code == 200 && o.doc == Some(doc.value.(status := Active, updatedAt := now))
  {
    match doc
    case None => Outcome(NotFound, None)
    case Some(c) =>
      if c.status != Draft then Outcome(Reply(400, ExecuteRejection(c.status)), doc)
      else Outcome(Reply(200, "Campaign execution started"), Some(c.(status := Active, updatedAt := now)))
  }

  /** The delayed completion: a campaign still stored is marked completed with every
      audience member counted as sent; a deleted one is ignored. */
  function CompleteStep(doc: Option<Campaign>, now: int): (r: Option<Campaign>)
    ensures doc.None? ==> r.None?
    ensures doc.Some? ==> r.Some? && r.value.status == Completed
    ensures doc.Some? ==> r.Some? && r.value.deliveryStats == DeliveryStats(doc.value.audienceSize, doc.value.deliveryStats.failed)
    ensures doc.Some? ==> r.Some? && r.value == doc.value.(status := Completed, deliveryStats := r.value.deliveryStats, updatedAt := now)
  {
    match doc
    case None => None
    case Some(c) =>
      Some(c.(status := Completed,
              deliveryStats := c.deliveryStats.(sent := c.audienceSize),
              updatedAt := now))
  }

  /** `!scheduledDate`: the body's date is missing, or the falsy number 0. */
  predicate DateGiven(date: Option<int>) {
    date.Some? && date.value != 0
  }

  /** `scheduleCampaign`: a missing or falsy date is refused before the lookup, then not
      found, then a date not after `now`; a valid date is stored and the status is kept. */
  function ScheduleStep(doc: Option<Campaign>, date: Option<int>, now: int): (o: Outcome)
    ensures !DateGiven(date) ==> o == Outcome(Reply(400, "Please provide a scheduled date"), doc)
    ensures DateGiven(date) && doc.None? ==> o == Outcome(NotFound, None)
    ensures DateGiven(date) && doc.Some? && date.value <= now ==>
      o == Outcome(Reply(400, "Scheduled date must be in the future"), doc)
    ensures DateGiven(date) && doc.Some? && date.value > now ==>
      o.reply.code == 200 && o.doc == Some(doc.value.(scheduledDate := date, updatedAt := now))
  {
    if !DateGiven(date) then Outcome(Reply(400, "Please provide a scheduled date"), doc)
    else match doc
      case None => Outcome(NotFound, None)
      case Some(c) =>
        if date.value <= now then Outcome(Reply(400, "Scheduled date must be in the future"), doc)
        else Outcome(Reply(200, "Campaign scheduled successfully"), Some(c.(scheduledDate := date, updatedAt := now)))
  }

  /** The whole lifecycle of a draft: execute, then the delayed completion. After it the
      campaign is completed with `sent` equal to its audience, and executing again is
      refused with the completed status named in the message. */
  lemma DraftLifecycle(c: Campaign, t1: int, t2: int, t3: int)
    requires c.status == Draft
    ensures var e := ExecuteStep(Some(c), t1);
      var done := CompleteStep(e.doc, t2);
      e.reply.code == 200 && done.Some? && done.value.status == Completed
      && done.value.deliveryStats.sent == c.audienceSize
      && ExecuteStep(done, t3) == Outcome(Reply(400, ExecuteRejection(Completed)), done)
  {
  }

  /** A campaign runs at most once: after a successful execute, a second one is refused. */
  lemma ExecuteOnce(c: Campaign, t1: int, t2: int)
    requires ExecuteStep(Some(c), t1).reply.code == 200
    ensures ExecuteStep(ExecuteStep(Some(c), t1).doc, t2).reply.code == 400
  {
  }

  /** Scheduling never moves a campaign out of draft: a scheduled draft may still be
      executed, and a campaign that may not be executed stays so. */
  lemma ScheduleKeepsStatus(c: Campaign, date: Option<int>, now: int, later: int)
    ensures var s := ScheduleStep(Some(c), date, now);
      s.doc.Some? && s.doc.value.status == c.status
      && ExecuteStep(s.doc, later).reply.code == ExecuteStep(Some(c), later).reply.code
  {
  }

  /** The campaign list offers "Execute" for the statuses `draft` and `scheduled`, but no
      stored campaign can carry `scheduled`: on stored campaigns the offer is made
      exactly when the handler accepts it, and the `scheduled` branch is dead. */
  lemma ExecuteOfferMatchesHandler(c: Campaign, row: CampaignsSlice.CampaignRow, now: int)
    requires row.status == StatusName(c.status)
    ensures CampaignList.ExecuteOffered(row) <==> ExecuteStep(Some(c), now).reply.code == 200
    ensures row.status != "scheduled"
  {
  }

  // ---------------------------------------------------------------------------
  // The collection

  class CampaignStore {
    var docs: map<string, Campaign>

    constructor()
      ensures docs == map[]
    {
      docs := map[];
    }

    /** `createCampaign`: request-validation errors give 400; otherwise the creator is
        the signed-in user and the document is saved under the fresh id `newId`, or the
        schema refuses it and the reply is 500. */
    method Create(raw: RawCampaign, user: User, inputValid: bool, newId: string, now: int)
      returns (reply: Reply)
      requires newId !in docs
      modifies this
      ensures !inputValid ==> reply.code == 400 && docs == old(docs)
      ensures inputValid && !Admissible(raw.(creator := Some(user.id))) ==>
        reply.code == 500 && docs == old(docs)
      ensures inputValid && Admissible(raw.(creator := Some(user.id))) ==>
        reply.code == 201
        && docs == old(docs)[newId := ValidateCampaign(raw.(creator := Some(user.id)), now).value]
        && docs[newId].creator == user.id && docs[newId].audienceSize == raw.audienceSize.value
    {
      if !inputValid {
        reply := Reply(400, "");
        return;
      }
      var body := raw.(creator := Some(user.id));
      var saved := ValidateCampaign(body, now);
      if saved.None? {
        reply := Reply(500, "Failed to create campaign");
      } else {
        docs := docs[newId := saved.value];
        reply := Reply(201, "");
      }
    }

    method Update(id: string, user: User, p: Patch, now: int) returns (reply: Reply)
      modifies this
      ensures var o := UpdateStep(Find(old(docs), id), user, p, now);
        reply == o.reply && docs == Put(old(docs), id, o.doc)
    {
      var o := UpdateStep(Find(docs, id), user, p, now);
      if o.reply.code == 200 {
        docs := docs[id := o.doc.value];
      } else if o.doc.None? {
        docs := docs - {id};
      }
      reply := o.reply;
    }

    method Delete(id: string, user: User) returns (reply: Reply)
      modifies this
      ensures var o := DeleteStep(Find(old(docs), id), user);
        reply == o.reply && docs == Put(old(docs), id, o.doc)
    {
      if id !in docs {
        docs := docs - {id};
        return NotFound;
      }
      var c := docs[id];
      if !MayModify(c, user) {
        return Reply(403, "Not authorized to delete this campaign");
      }
      docs := docs - {id};
      reply := Reply(200, "");
    }

    /** Executing changes at most the one document, and queues the completion exactly
        when it starts a campaign. */
    method Execute(id: string, now: int) returns (reply: Reply, queued: bool)
      modifies this
      ensures var o := ExecuteStep(Find(old(docs), id), now);
        reply == o.reply && docs == Put(old(docs), id, o.doc)
      ensures queued <==> reply.code == 200
    {
      if id !in docs {
        docs := docs - {id};
        return NotFound, false;
      }
      var c := docs[id];
      if c.status != Draft {
        return Reply(400, ExecuteRejection(c.status)), false;
      }
      c := c.(status := Active);
      c := c.(updatedAt := now);
      docs := docs[id := c];
      reply, queued := Reply(200, "Campaign execution started"), true;
    }

    /** The queued completion, run when the timer fires at time `now`. */
    method Complete(id: string, now: int)
      modifies this
      ensures docs == Put(old(docs), id, CompleteStep(Find(old(docs), id), now))
    {
      if id !in docs {
        docs := docs - {id};
        return;
      }
      var c := docs[id];
      c := c.(status := Completed);
      c := c.(deliveryStats := c.deliveryStats.(sent := c.audienceSize));
      c := c.(updatedAt := now);
      docs := docs[id := c];
    }

    method Schedule(id: string, date: Option<int>, now: int) returns (reply: Reply)
      modifies this
      ensures var o := ScheduleStep(Find(old(docs), id), date, now);
        reply == o.reply && docs == Put(old(docs), id, o.doc)
    {
      if date.None? || date.value == 0 {
        if id !in docs {
          docs := docs - {id};
        }
        return Reply(400, "Please provide a scheduled date");
      }
      if id !in docs {
        docs := docs - {id};
        return NotFound;
      }
      var c := docs[id];
      if date.value <= now {
        return Reply(400, "Scheduled date must be in the future");
      }
      c := c.(scheduledDate := date);
      c := c.(updatedAt := now);
      docs := docs[id := c];
      reply := Reply(200, "Campaign scheduled successfully");
    }
  }

  // ---------------------------------------------------------------------------
  // Tag generation

  /** A tag and the lower-case keywords any one of which earns it. */
  datatype TagRule = TagRule(tag: string, keywords: seq<string>)

  /** The keyword groups in the order the generator tests them. */
  const TagRules: seq<TagRule> := [
    TagRule("promotional", ["sale", "discount"]),
    TagRule("product-launch", ["new", "launch"]),
    TagRule("limited-offer", ["limited", "exclusive"]),
    TagRule("appreciation", ["thank"])]

  /** Some keyword of the group occurs in the lower-cased message. */
  predicate Fires(r: TagRule, message: string) {
    exists k :: k in r.keywords && Text.Mentions(message, k)
  }

  /** The tags of the groups that fire, in group order. */
  function FiredTags(rs: seq<TagRule>, message: string): (r: seq<string>)
    ensures |r| <= |rs|
  {
    if rs == [] then []
    else (if Fires(rs[0], message) then [rs[0].tag] else []) + FiredTags(rs[1..], message)
  }

  /** The tags of a list of groups, in order. */
  function TagNames(rs: seq<TagRule>): (r: seq<string>)
    ensures |r| == |rs| && forall i :: 0 <= i < |rs| ==> r[i] == rs[i].tag
  {
    if rs == [] then [] else [rs[0].tag] + TagNames(rs[1..])
  }

  /** The generator's result: the fired tags, or `general` when none fired. */
  function AiTags(message: string): seq<string> {
    var fired := FiredTags(TagRules, message);
    if fired == [] then ["general"] else fired
  }

  /** The group tests written out as the generator writes them. */
  lemma FiresUnfold(message: string)
    ensures Fires(TagRules[0], message) <==> Text.Mentions(message, "sale") || Text.Mentions(message, "discount")
    ensures Fires(TagRules[1], message) <==> Text.Mentions(message, "new") || Text.Mentions(message, "launch")
    ensures Fires(TagRules[2], message) <==> Text.Mentions(message, "limited") || Text.Mentions(message, "exclusive")
    ensures Fires(TagRules[3], message) <==> Text.Mentions(message, "thank")
  {
    assert TagRules[0].keywords == ["sale", "discount"];
    assert TagRules[1].keywords == ["new", "launch"];
    assert TagRules[2].keywords == ["limited", "exclusive"];
    assert TagRules[3].keywords == ["thank"];
  }

  /** The group tags, each present exactly when its group fires. */
  function Earned(message: string, i: nat): seq<string>
    requires i < |TagRules|
  {
    if Fires(TagRules[i], message) then [TagRules[i].tag] else []
  }

  lemma FiredTagsUnfold(message: string)
    ensures FiredTags(TagRules, message)
      == Earned(message, 0) + Earned(message, 1) + Earned(message, 2) + Earned(message, 3)
  {
    var rs := TagRules;
    assert rs[1..][1..][1..][1..] == [];
    assert FiredTags(rs[1..][1..][1..], message) == Earned(message, 3);
    assert FiredTags(rs[1..][1..], message) == Earned(message, 2) + Earned(message, 3);
  }

  /** `generateAITags`: one test per keyword group, pushing its tag, and the default. */
  method GenerateAITags(message: string) returns (tags: seq<string>)
    ensures tags == AiTags(message)
  {
    FiresUnfold(message);
    tags := [];
    if Text.Mentions(message, "sale") || Text.Mentions(message, "discount") {
      tags := tags + ["promotional"];
    }
    assert tags == Earned(message, 0);
    if Text.Mentions(message, "new") || Text.Mentions(message, "launch") {
      tags := tags + ["product-launch"];
    }
    assert tags == Earned(message, 0) + Earned(message, 1);
    if Text.Mentions(message, "limited") || Text.Mentions(message, "exclusive") {
      tags := tags + ["limited-offer"];
    }
    assert tags == Earned(message, 0) + Earned(message, 1) + Earned(message, 2);
    if Text.Mentions(message, "thank") {
      tags := tags + ["appreciation"];
    }
    FiredTagsUnfold(message);
    assert tags == FiredTags(TagRules, message);
    if |tags| == 0 {
      tags := tags + ["general"];
    }
  }

  /** Firing groups contribute only their own tags, and nothing exactly when no group
      fires. */
  lemma {:induction false} FiredMembers(rs: seq<TagRule>, message: string)
    ensures forall x :: x in FiredTags(rs, message) ==> x in TagNames(rs)
    ensures FiredTags(rs, message) == [] <==> forall r :: r in rs ==> !Fires(r, message)
  {
    if rs != [] {
      var tail := rs[1..];
      FiredMembers(tail, message);
      assert TagNames(rs) == [rs[0].tag] + TagNames(tail);
      assert forall r :: r in rs <==> r == rs[0] || r in tail;
    }
  }

  /** The fired tags keep the order of the groups. */
  lemma {:induction false} FiredInOrder(rs: seq<TagRule>, message: string)
    ensures Seqs.IsSubsequence(FiredTags(rs, message), TagNames(rs))
  {
    if rs != [] {
      var tail := rs[1..];
      FiredInOrder(tail, message);
      var f := FiredTags(rs, message);
      var ft := FiredTags(tail, message);
      var t := TagNames(rs);
      assert t == [rs[0].tag] + TagNames(tail);
      if Fires(rs[0], message) {
        assert f == [rs[0].tag] + ft;
        assert f[1..] == ft && t[1..] == TagNames(tail);
      } else {
        assert f == ft;
        Seqs.SubsequenceConsLeft(ft, TagNames(tail), rs[0].tag);
      }
    }
  }

  /** With distinct group tags, no tag is fired twice, and a group's tag is fired
      exactly when the group fires. */
  lemma {:induction false} FiredDistinct(rs: seq<TagRule>, message: string)
    requires Seqs.NoDup(TagNames(rs))
    ensures Seqs.NoDup(FiredTags(rs, message))
    ensures forall i :: 0 <= i < |rs| ==> (rs[i].tag in FiredTags(rs, message) <==> Fires(rs[i], message))
  {
    if rs != [] {
      var tail := rs[1..];
      var t := TagNames(rs);
      assert t == [rs[0].tag] + TagNames(tail);
      assert Seqs.NoDup(TagNames(tail)) by {
        assert forall i :: 0 <= i < |tail| ==> TagNames(tail)[i] == t[i + 1];
      }
      FiredDistinct(tail, message);
      FiredMembers(tail, message);
      var f := FiredTags(rs, message);
      var ft := FiredTags(tail, message);
      assert rs[0].tag !in TagNames(tail);
      assert rs[0].tag !in ft;
      forall i | 1 <= i < |rs|
        ensures rs[i].tag in f <==> Fires(rs[i], message)
      {
        assert tail[i - 1] == rs[i];
        assert t[i] == rs[i].tag && t[0] == rs[0].tag;
      }
    }
  }

  const TagOrder: seq<string> := ["promotional", "product-launch", "limited-offer", "appreciation"]

  lemma TagOrderFacts()
    ensures TagNames(TagRules) == TagOrder
    ensures Seqs.NoDup(TagOrder) && "general" !in TagOrder
  {
  }

  /** The generated tags are never empty, hold no repeat, and are either `general` alone
      (exactly when no keyword occurs) or fired tags in the fixed group order. */
  lemma AiTagsShape(message: string)
    ensures |AiTags(message)| >= 1 && Seqs.NoDup(AiTags(message))
    ensures AiTags(message) == ["general"] <==> forall r :: r in TagRules ==> !Fires(r, message)
    ensures AiTags(message) != ["general"] ==> Seqs.IsSubsequence(AiTags(message), TagOrder)
  {
    TagOrderFacts();
    FiredMembers(TagRules, message);
    FiredInOrder(TagRules, message);
    FiredDistinct(TagRules, message);
    var f := FiredTags(TagRules, message);
    if f != [] {
      assert f[0] in TagOrder;
    }
  }

  /** Each tag is earned by exactly its own keywords. */
  lemma AiTagsKeywords(message: string)
    ensures "promotional" in AiTags(message) <==> Text.Mentions(message, "sale") || Text.Mentions(message, "discount")
    ensures "product-launch" in AiTags(message) <==> Text.Mentions(message, "new") || Text.Mentions(message, "launch")
    ensures "limited-offer" in AiTags(message) <==> Text.Mentions(message, "limited") || Text.Mentions(message, "exclusive")
    ensures "appreciation" in AiTags(message) <==> Text.Mentions(message, "thank")
  {
    TagOrderFacts();
    FiredMembers(TagRules, message);
    FiredDistinct(TagRules, message);
    FiresUnfold(message);
    assert TagRules[0].tag == "promotional" && TagRules[1].tag == "product-launch";
    assert TagRules[2].tag == "limited-offer" && TagRules[3].tag == "appreciation";
    assert "general" != "promotional" && "general" != "product-launch";
    assert "general" != "limited-offer" && "general" != "appreciation";
  }

  /** Keyword matching ignores case: a message and its lower-case form get the same tags. */
  lemma AiTagsIgnoreCase(message: string)
    ensures AiTags(Text.Lower(message)) == AiTags(message)
  {
    FiresUnfold(message);
    FiresUnfold(Text.Lower(message));
    Text.MentionsIgnoresCase(message, "sale");
    Text.MentionsIgnoresCase(message, "discount");
    Text.MentionsIgnoresCase(message, "new");
    Text.MentionsIgnoresCase(message, "launch");
    Text.MentionsIgnoresCase(message, "limited");
    Text.MentionsIgnoresCase(message, "exclusive");
    Text.MentionsIgnoresCase(message, "thank");
    FiredTagsUnfold(message);
    FiredTagsUnfold(Text.Lower(message));
    assert forall i :: 0 <= i < 4 ==> Earned(Text.Lower(message), i) == Earned(message, i);
  }
}
