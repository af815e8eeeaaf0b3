/** The stored shapes of a campaign and of its segment rules, with the enumerations,
    defaults and required fields that the document schema enforces on save. */
module CampaignSchema {
  import opened Common
  import Text

  /** A scalar JSON value as it can appear in a rule's `value`. */
  datatype Atom = Null | Bool(b: bool) | Num(n: int) | Str(s: string)

  /** A rule `value` (a schema-less field): a scalar or an array of scalars. */
  datatype Value = Scalar(atom: Atom) | Array(items: seq<Atom>)

  /** A segment rule as the compiler and the rule editor see it. The connective is
      optional: a rule sent by a client may lack it. */
  datatype Rule = Rule(field: string, operator: string, value: Value, logicalOperator: Option<string>)

  /** The nine operators a stored rule may carry, in declaration order. */
  const Operators: seq<string> :=
    ["equals", "not_equals", "greater_than", "less_than", "contains",
     "not_contains", "between", "in", "not_in"]

  /** A rule as submitted, before validation: any field may be absent. */
  datatype RawRule = RawRule(field: Option<string>, operator: Option<string>,
                             value: Option<Value>, logicalOperator: Option<string>)

  /** A required string passes only when present and non-empty. */
  predicate PresentString(s: Option<string>) {
    s.Some? && s.value != ""
  }

  /** A required schema-less value passes when it is neither undefined nor null. */
  predicate PresentValue(v: Option<Value>) {
    v.Some? && v.value != Scalar(Null)
  }

  /** Validation of one rule on save: `field` and `value` are required, `operator` is
      required and enumerated, `logicalOperator` is enumerated and defaults to `AND`. */
  function ValidateRule(raw: RawRule): (r: Option<Rule>)
    ensures r.Some? <==>
      PresentString(raw.field) && raw.operator.Some? && raw.operator.value in Operators
      && PresentValue(raw.value)
      && (raw.logicalOperator.None? || raw.logicalOperator.value in ["AND", "OR"])
    ensures r.Some? ==>
      r.value.field == raw.field.value && r.value.operator == raw.operator.value
      && r.value.value == raw.value.value
    ensures r.Some? ==> r.value.logicalOperator == Some(raw.logicalOperator.GetOr("AND"))
  {
    if PresentString(raw.field) && raw.operator.Some? && raw.operator.value in Operators
       && PresentValue(raw.value)
       && (raw.logicalOperator.None? || raw.logicalOperator.value == "AND" || raw.logicalOperator.value == "OR")
    then Some(Rule(raw.field.value, raw.operator.value, raw.value.value,
                   Some(if raw.logicalOperator.Some? then raw.logicalOperator.value else "AND")))
    else None
  }

  /** A stored rule always carries a connective, and it is `AND` or `OR`. */
  lemma StoredRuleConnective(raw: RawRule)
    requires ValidateRule(raw).Some?
    ensures ValidateRule(raw).value.logicalOperator in {Some("AND"), Some("OR")}
    ensures ValidateRule(raw).value.operator in Operators
  {
  }

  /** The four legal campaign statuses. */
  datatype Status = Draft | Active | Completed | Failed

  function StatusName(s: Status): (n: string)
    ensures n in ["draft", "active", "completed", "failed"]
  {
    match s
    case Draft => "draft"
    case Active => "active"
    case Completed => "completed"
    case Failed => "failed"
  }

  function ParseStatus(n: string): (s: Option<Status>)
    ensures s.Some? <==> n in ["draft", "active", "completed", "failed"]
  {
    if n == "draft" then Some(Draft)
    else if n == "active" then Some(Active)
    else if n == "completed" then Some(Completed)
    else if n == "failed" then Some(Failed)
    else None
  }

  /** Status names and statuses correspond one to one. */
  lemma {:induction false} StatusRoundTrip(s: Status, n: string)
    ensures ParseStatus(StatusName(s)) == Some(s)
    ensures ParseStatus(n).Some? ==> StatusName(ParseStatus(n).value) == n
  {
  }

  /** `scheduled`, which the campaign list treats as executable, is not a status a
      campaign can be stored with. */
  lemma ScheduledIsNotAStatus()
    ensures ParseStatus("scheduled") == None
    ensures forall s: Status :: StatusName(s) != "scheduled"
  {
  }

  datatype DeliveryStats = DeliveryStats(sent: int, failed: int)

  /** A saved campaign. Timestamps are integers (milliseconds); `creator` is the
      creating user's id. */
  datatype Campaign = Campaign(
    name: string, segment: string, message: string, status: Status, creator: string,
    createdAt: int, updatedAt: int, description: Option<string>,
    segmentRules: seq<Rule>, audienceSize: int, deliveryStats: DeliveryStats,
    scheduledDate: Option<int>, tags: seq<string>, aiGeneratedTags: seq<string>)

  /** A campaign document as submitted, before validation. */
  datatype RawCampaign = RawCampaign(
    name: Option<string>, segment: Option<string>, message: Option<string>,
    status: Option<string>, creator: Option<string>, description: Option<string>,
    segmentRules: Option<seq<RawRule>>, audienceSize: Option<int>,
    sent: Option<int>, failed: Option<int>, scheduledDate: Option<int>,
    tags: Option<seq<string>>, aiGeneratedTags: Option<seq<string>>)

  /** A trimmed string field: the setter trims before the required check runs. */
  function TrimOpt(s: Option<string>): (r: Option<string>)
    ensures r.Some? <==> s.Some?
    ensures r.Some? ==> r.value == Text.Trim(s.value)
  {
    match s
    case None => None
    case Some(v) => Some(Text.Trim(v))
  }

  /** Validate every rule; fails when any one fails. */
  function ValidateRules(raws: seq<RawRule>): (r: Option<seq<Rule>>)
    ensures r.Some? <==> forall k :: 0 <= k < |raws| ==> ValidateRule(raws[k]).Some?
    ensures r.Some? ==>
      |r.value| == |raws| && forall k :: 0 <= k < |raws| ==> r.value[k] == ValidateRule(raws[k]).value
  {
    if raws == [] then Some([])
    else
      var h := ValidateRule(raws[0]);
      var t := ValidateRules(raws[1..]);
      if h.Some? && t.Some? then Some([h.value] + t.value)
      else
        assert forall k :: 1 <= k < |raws| ==> raws[1..][k - 1] == raws[k];
        None
  }

  /** The rule list the document holds: an array path that is not given takes the
      default `[]`, which `required` accepts. */
  function RulesOrDefault(raw: RawCampaign): (r: seq<RawRule>)
    ensures raw.segmentRules.None? ==> r == []
    ensures raw.segmentRules.Some? ==> r == raw.segmentRules.value
  {
    raw.segmentRules.GetOr([])
  }

  /** A document passes the schema when its required fields are present (non-blank
      after trimming for strings), its status is legal and every rule passes. */
  predicate Admissible(raw: RawCampaign) {
    PresentString(TrimOpt(raw.name)) && PresentString(TrimOpt(raw.segment))
    && PresentString(TrimOpt(raw.message)) && PresentString(raw.creator)
    && (raw.status.None? || ParseStatus(raw.status.value).Some?)
    && ValidateRules(RulesOrDefault(raw)).Some?
    && raw.audienceSize.Some?
  }

  /** Saving a campaign document at time `now`: the schema's validation and defaults. */
  function ValidateCampaign(raw: RawCampaign, now: int): (r: Option<Campaign>)
    ensures r.Some? <==> Admissible(raw)
    ensures r.Some? ==> r.value.status == (if raw.status.None? then Draft else ParseStatus(raw.status.value).value)
    ensures r.Some? ==> r.value.deliveryStats == DeliveryStats(raw.sent.GetOr(0), raw.failed.GetOr(0))
    ensures r.Some? ==> r.value.tags == raw.tags.GetOr([]) && r.value.aiGeneratedTags == raw.aiGeneratedTags.GetOr([])
    ensures r.Some? ==> r.value.createdAt == now && r.value.updatedAt == now
    ensures r.Some? ==> r.value.name == Text.Trim(raw.name.value) && r.value.name != ""
    ensures r.Some? ==> r.value.segmentRules == ValidateRules(RulesOrDefault(raw)).value
    ensures r.Some? ==> r.value.audienceSize == raw.audienceSize.value && r.value.creator == raw.creator.value
  {
    if !Admissible(raw) then None
    else
      Some(Campaign(
        TrimOpt(raw.name).value, TrimOpt(raw.segment).value, TrimOpt(raw.message).value,
        if raw.status.None? then Draft else ParseStatus(raw.status.value).value,
        raw.creator.value, now, now, TrimOpt(raw.description),
        ValidateRules(RulesOrDefault(raw)).value, raw.audienceSize.value,
        DeliveryStats(raw.sent.GetOr(0), raw.failed.GetOr(0)),
        raw.scheduledDate, raw.tags.GetOr([]), raw.aiGeneratedTags.GetOr([])))
  }

  /** A freshly saved campaign with no status, stats or tags given is a draft with zero
      delivery counts and empty tag lists. */
  lemma NewCampaignDefaults(raw: RawCampaign, now: int)
    requires Admissible(raw)
    requires raw.status.None? && raw.sent.None? && raw.failed.None?
    requires raw.tags.None? && raw.aiGeneratedTags.None?
    ensures var c := ValidateCampaign(raw, now).value;
      c.status == Draft && c.deliveryStats == DeliveryStats(0, 0) && c.tags == [] && c.aiGeneratedTags == []
  {
  }

  /** An absent rule list is stored as the empty list, and an empty list is accepted:
      `required` does not refuse either. */
  lemma SegmentRulesDefault(raw: RawCampaign, now: int)
    ensures raw.segmentRules.None? ==> ValidateCampaign(raw, now) == ValidateCampaign(raw.(segmentRules := Some([])), now)
    ensures raw.segmentRules.None? && ValidateCampaign(raw, now).Some? ==> ValidateCampaign(raw, now).value.segmentRules == []
    ensures raw.segmentRules.None? || raw.segmentRules == Some([]) ==> (ValidateCampaign(raw, now).Some? <==>
      PresentString(TrimOpt(raw.name)) && PresentString(TrimOpt(raw.segment))
      && PresentString(TrimOpt(raw.message)) && PresentString(raw.creator)
      && (raw.status.None? || ParseStatus(raw.status.value).Some?) && raw.audienceSize.Some?)
  {
  }
}
