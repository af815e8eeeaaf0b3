/** The campaign editor's form logic: the numeric audience field, the tag list, the
    suggestion builders and the payload sent on save. */
module CampaignForm {
  import opened Common
  import Seqs
  import Text
  import opened CampaignSchema

  // ---------------------------------------------------------------------------
  // parseInt

  /** A digit of the given radix (10 or 16). */
  predicate IsRadixDigit(c: char, radix: int) {
    if radix == 16 then Text.IsHexDigit(c) else Text.IsDigit(c)
  }

  function DigitValue(c: char): (d: nat)
    requires Text.IsHexDigit(c)
    ensures d < 16
    ensures Text.IsDigit(c) ==> d == c as int - '0' as int && d < 10
  {
    if Text.IsDigit(c) then c as int - '0' as int
    else if 'a' <= c <= 'f' then c as int - 'a' as int + 10
    else c as int - 'A' as int + 10
  }

  predicate AllDigits(s: string, radix: int) {
    forall i :: 0 <= i < |s| ==> IsRadixDigit(s[i], radix)
  }

  /** The longest prefix made of digits of the radix. */
  function DigitRun(s: string, radix: int): (r: string)
    ensures |r| <= |s| && r == s[..|r|] && AllDigits(r, radix)
    ensures |r| < |s| ==> !IsRadixDigit(s[|r|], radix)
  {
    if s == [] || !IsRadixDigit(s[0], radix) then []
    else
      var t := DigitRun(s[1..], radix);
      assert [s[0]] + t == s[..|t| + 1];
      [s[0]] + t
  }

  /** The number a digit string denotes in the radix, most significant digit first. */
  function DigitsValue(ds: string, radix: int): nat
    requires radix == 10 || radix == 16
    requires AllDigits(ds, radix)
  {
    if ds == [] then 0
    else DigitsValue(ds[..|ds| - 1], radix) * radix + DigitValue(ds[|ds| - 1])
  }

  /** The input with leading white space and one sign removed. */
  function Unsigned(s: string): string {
    var t := Text.TrimStart(s);
    if t != [] && (t[0] == '-' || t[0] == '+') then t[1..] else t
  }

  predicate Negative(s: string) {
    var t := Text.TrimStart(s);
    t != [] && t[0] == '-'
  }

  predicate HexPrefixed(u: string) {
    |u| >= 2 && u[0] == '0' && (u[1] == 'x' || u[1] == 'X')
  }

  /** `parseInt(s)` without a radix: skip white space, read a sign, read hexadecimal
      after `0x`/`0X` and decimal otherwise, keep the longest digit prefix; `None` is
      `NaN` (no digit at all). */
  function ParseInt(s: string): (r: Option<int>)
    ensures r.Some? && !Negative(s) ==> r.value >= 0
    ensures r.Some? && Negative(s) ==> r.value <= 0
  {
    var u := Unsigned(s);
    var radix := if HexPrefixed(u) then 16 else 10;
    var z := DigitRun(if radix == 16 then u[2..] else u, radix);
    if z == [] then None
    else
      var v: int := DigitsValue(z, radix);
      Some(if Negative(s) then -v else v)
  }

  // The decimal rendering of a natural number, for the round trip below.

  function DigitChar(d: nat): (c: char)
    requires d < 10
    ensures Text.IsDigit(c) && DigitValue(c) == d
  {
    ('0' as int + d) as char
  }

  function Show(n: nat): (s: string)
    ensures |s| >= 1
  {
    if n < 10 then [DigitChar(n)] else Show(n / 10) + [DigitChar(n % 10)]
  }

  /** A rendering is all digits, denotes the number, and starts with `0` only for 0. */
  lemma {:induction false} ShowFacts(n: nat)
    ensures AllDigits(Show(n), 10)
    ensures DigitsValue(Show(n), 10) == n
    ensures Show(n)[0] == '0' <==> n == 0
  {
    if n >= 10 {
      ShowFacts(n / 10);
      var s := Show(n);
      assert s[..|s| - 1] == Show(n / 10);
      assert s[0] == Show(n / 10)[0];
    }
  }

  /** The digit run of digits followed by a non-digit is those digits. */
  lemma {:induction false} DigitRunOf(ds: string, rest: string, radix: int)
    requires AllDigits(ds, radix)
    requires rest == [] || !IsRadixDigit(rest[0], radix)
    ensures DigitRun(ds + rest, radix) == ds
  {
    if ds != [] {
      DigitRunOf(ds[1..], rest, radix);
      assert (ds + rest)[1..] == ds[1..] + rest;
    } else {
      assert ds + rest == rest;
    }
  }

  /** Leading white space stops at the first other character. */
  lemma TrimStartAt(s: string)
    requires s != [] && !Text.IsSpace(s[0])
    ensures Text.TrimStart(s) == s
  {
  }

  lemma DigitNotSpace(c: char)
    requires Text.IsDigit(c)
    ensures !Text.IsSpace(c) && c != '-' && c != '+'
  {
  }

  /** `parseInt` on an input whose unsigned part has no hexadecimal prefix. */
  lemma ParseDecimal(s: string)
    requires !HexPrefixed(Unsigned(s))
    ensures var z := DigitRun(Unsigned(s), 10);
      ParseInt(s) == if z == [] then None
        else Some(if Negative(s) then -(DigitsValue(z, 10) as int) else DigitsValue(z, 10))
  {
  }

  /** The decimal reading of a string that starts with neither white space, a sign nor
      a hexadecimal prefix. */
  lemma ParsePlain(s: string)
    requires s != [] && !Text.IsSpace(s[0]) && s[0] != '-' && s[0] != '+' && !HexPrefixed(s)
    ensures DigitRun(s, 10) == [] ==> ParseInt(s) == None
    ensures DigitRun(s, 10) != [] ==> ParseInt(s) == Some(DigitsValue(DigitRun(s, 10), 10))
  {
    TrimStartAt(s);
    assert Unsigned(s) == s && !Negative(s);
    ParseDecimal(s);
  }

  lemma MinusSign(s: string)
    ensures Unsigned("-" + s) == s && Negative("-" + s)
  {
    var m := "-" + s;
    assert m[0] == '-' && m[1..] == s;
    TrimStartAt(m);
  }

  /** The same after a minus sign. */
  lemma ParseMinus(s: string)
    requires !HexPrefixed(s)
    requires DigitRun(s, 10) != []
    ensures ParseInt("-" + s) == Some(-(DigitsValue(DigitRun(s, 10), 10) as int))
  {
    MinusSign(s);
    ParseDecimal("-" + s);
  }

  /** `parseInt` reads back a rendered number, whatever non-digit text follows it, except
      that `0` followed by `x` starts a hexadecimal literal. */
  lemma ParseShow(n: nat, rest: string)
    requires rest == [] || !Text.IsDigit(rest[0])
    requires n == 0 ==> rest == [] || (rest[0] != 'x' && rest[0] != 'X')
    ensures ParseInt(Show(n) + rest) == Some(n)
    ensures ParseInt("-" + (Show(n) + rest)) == Some(-(n as int))
  {
    var s := Show(n) + rest;
    ShowStart(n, rest);
    DigitNotSpace(s[0]);
    ShowFacts(n);
    ParsePlain(s);
    ParseMinus(s);
  }

  /** A rendering followed by non-digit text starts with a digit, has no hexadecimal
      prefix, and its digit run is the rendering. */
  lemma ShowStart(n: nat, rest: string)
    requires rest == [] || !Text.IsDigit(rest[0])
    requires n == 0 ==> rest == [] || (rest[0] != 'x' && rest[0] != 'X')
    ensures var s := Show(n) + rest;
      Text.IsDigit(s[0]) && !HexPrefixed(s) && DigitRun(s, 10) == Show(n)
  {
    ShowFacts(n);
    var d := Show(n);
    var s := d + rest;
    assert s[0] == d[0];
    if n == 0 {
      assert d == "0";
      assert |s| >= 2 ==> s[1] == rest[0];
    }
    DigitRunOf(d, rest, 10);
  }

  /** `0x` followed by a non-digit is not a number. */
  lemma BareHexPrefix(rest: string)
    requires rest == [] || !Text.IsHexDigit(rest[0])
    ensures ParseInt("0x" + rest) == None
  {
    var s := "0x" + rest;
    TrimStartAt(s);
    assert Unsigned(s) == s && HexPrefixed(s);
    assert s[2..] == rest;
  }

  /** `Math.max(0, parseInt(value) || 0)`: `NaN` and 0 are falsy and become 0; a negative
      number is clamped to 0. */
  function NumericValue(value: string): (n: int)
    ensures n >= 0
    ensures ParseInt(value).None? ==> n == 0
    ensures ParseInt(value).Some? && ParseInt(value).value >= 0 ==> n == ParseInt(value).value
    ensures ParseInt(value).Some? && ParseInt(value).value < 0 ==> n == 0
  {
    var p := ParseInt(value);
    if p.None? || p.value == 0 then 0
    else if p.value < 0 then 0 else p.value
  }

  /** The numeric field shows back any count typed as digits. */
  lemma NumericRoundTrip(n: nat)
    ensures NumericValue(Show(n)) == n
    ensures NumericValue("-" + Show(n)) == 0
  {
    ParseShow(n, "");
    assert Show(n) + "" == Show(n);
  }

  // ---------------------------------------------------------------------------
  // The form and its tag handlers

  datatype FormData = FormData(
    name: string, description: string, segment: string, message: string,
    segmentRules: seq<Rule>, status: string, tags: seq<string>, customerSize: int)

  const InitialForm := FormData("", "", "", "", [], "draft", [], 0)

  /** `handleNumericChange` on the `customerSize` input. */
  function HandleNumericChange(form: FormData, value: string): (r: FormData)
    ensures r.customerSize >= 0
    ensures r == form.(customerSize := r.customerSize)
    ensures ParseInt(value).None? ==> r.customerSize == 0
  {
    form.(customerSize := NumericValue(value))
  }

  /** The tag list and the tag input box after a key press. */
  datatype TagBox = TagBox(tags: seq<string>, input: string)

  /** `handleTagInput`: only Enter with a non-blank input acts; it adds the trimmed tag
      unless present and empties the box. */
  function HandleTagInput(box: TagBox, key: string): (r: TagBox)
    ensures key != "Enter" || Text.Trim(box.input) == [] ==> r == box
    ensures key == "Enter" && Text.Trim(box.input) != [] ==>
      r.input == "" && r.tags == Seqs.AppendIfAbsent(box.tags, Text.Trim(box.input))
  {
    if key == "Enter" && Text.Trim(box.input) != [] then
      TagBox(Seqs.AppendIfAbsent(box.tags, Text.Trim(box.input)), "")
    else box
  }

  /** Tag entry keeps the list free of repeats and adds only the trimmed input. */
  lemma TagInputKeepsDistinct(box: TagBox, key: string)
    requires Seqs.NoDup(box.tags)
    ensures Seqs.NoDup(HandleTagInput(box, key).tags)
    ensures forall t :: t in HandleTagInput(box, key).tags <==>
      t in box.tags || (key == "Enter" && !Text.Blank(box.input) && t == Text.Trim(box.input))
    ensures Seqs.IsPrefix(box.tags, HandleTagInput(box, key).tags)
  {
    Seqs.AppendIfAbsentFacts(box.tags, Text.Trim(box.input));
  }

  /** `removeTag`: every occurrence of the tag goes; the other tags keep their order. */
  function RemoveTag(form: FormData, tag: string): (r: FormData)
    ensures tag !in r.tags
    ensures forall t :: t != tag ==> (t in r.tags <==> t in form.tags)
    ensures Seqs.IsSubsequence(r.tags, form.tags)
    ensures r == form.(tags := r.tags)
  {
    form.(tags := Seqs.RemoveAll(form.tags, tag))
  }

  /** `addAiTag`: a suggested tag is appended only when it is absent. */
  function AddAiTag(form: FormData, tag: string): (r: FormData)
    ensures tag in form.tags ==> r == form
    ensures tag !in form.tags ==> r == form.(tags := form.tags + [tag])
  {
    form.(tags := Seqs.AppendIfAbsent(form.tags, tag))
  }

  /** Adding a suggested tag keeps the list free of repeats, and removing a tag just
      added gives back the list it was added to. */
  lemma AddAiTagUndone(form: FormData, tag: string)
    requires Seqs.NoDup(form.tags)
    ensures Seqs.NoDup(AddAiTag(form, tag).tags)
    ensures tag !in form.tags ==> RemoveTag(AddAiTag(form, tag), tag) == form
  {
    Seqs.AppendIfAbsentFacts(form.tags, tag);
    if tag !in form.tags {
      Seqs.RemoveAppended(form.tags, tag);
    }
  }

  /** `removeTag` followed by `addAiTag` of the same tag moves it to the end. */
  lemma RemoveThenAdd(form: FormData, t: string)
    ensures AddAiTag(RemoveTag(form, t), t).tags == Seqs.RemoveAll(form.tags, t) + [t]
  {
  }

  /** The saved payload: the form, with `audienceSize` taken from `customerSize`. */
  datatype Payload = Payload(form: FormData, audienceSize: int)

  function MakePayload(form: FormData): (p: Payload)
    ensures p.audienceSize == form.customerSize && p.form == form
  {
    Payload(form, form.customerSize)
  }

  /** A payload built from the form sends a non-negative audience once the size field
      has been edited. */
  lemma PayloadAudience(form: FormData, value: string)
    ensures MakePayload(HandleNumericChange(form, value)).audienceSize >= 0
  {
  }

  // ---------------------------------------------------------------------------
  // Message suggestions

  /** The pitch families the message suggestions come from. */
  datatype Theme = WinBack | Loyalty | Welcome | AgeTargeted | Local

  /** A suggested message: the `n`-th text of a family (the texts are not reproduced). */
  datatype Pitch = Pitch(theme: Theme, n: nat)

  /** The family of the three base suggestions, chosen by the first segment test that
      matches the lower-cased segment name. */
  function BaseTheme(segment: string): (t: Theme)
    ensures t in {WinBack, Loyalty, Welcome}
  {
    if Text.Mentions(segment, "inactive") then WinBack
    else if Text.Mentions(segment, "high value") then Loyalty
    else Welcome
  }

  predicate HasAgeRule(rules: seq<Rule>) {
    exists i :: 0 <= i < |rules| && rules[i].field in ["age", "ageGroup", "dateOfBirth"]
  }

  predicate HasLocationRule(rules: seq<Rule>) {
    exists i :: 0 <= i < |rules| && rules[i].field in ["location", "city", "state", "country"]
  }

  function Pitches(t: Theme, count: nat): (r: seq<Pitch>)
    ensures |r| == count && forall i :: 0 <= i < count ==> r[i] == Pitch(t, i)
  {
    seq(count, i requires 0 <= i < count => Pitch(t, i))
  }

  lemma PitchesWritten(t: Theme)
    ensures Pitches(t, 3) == [Pitch(t, 0), Pitch(t, 1), Pitch(t, 2)]
    ensures Pitches(t, 2) == [Pitch(t, 0), Pitch(t, 1)]
  {
  }

  /** The suggestions in push order: three of the base family, two age pitches when a
      rule targets age, two local pitches when a rule targets location. */
  function Suggestions(segment: string, rules: seq<Rule>): seq<Pitch> {
    Pitches(BaseTheme(segment), 3)
    + (if HasAgeRule(rules) then Pitches(AgeTargeted, 2) else [])
    + (if HasLocationRule(rules) then Pitches(Local, 2) else [])
  }

  /** `generateAiSuggestions` without its delay: step-by-step pushes. */
  method GenerateAiSuggestions(segment: string, rules: seq<Rule>) returns (suggestions: seq<Pitch>)
    ensures suggestions == Suggestions(segment, rules)
    ensures |suggestions| == 3 + (if HasAgeRule(rules) then 2 else 0) + (if HasLocationRule(rules) then 2 else 0)
  {
    PitchesWritten(BaseTheme(segment));
    PitchesWritten(AgeTargeted);
    PitchesWritten(Local);
    suggestions := [];
    if Text.Mentions(segment, "inactive") {
      suggestions := suggestions + [Pitch(WinBack, 0), Pitch(WinBack, 1), Pitch(WinBack, 2)];
    } else if Text.Mentions(segment, "high value") {
      suggestions := suggestions + [Pitch(Loyalty, 0), Pitch(Loyalty, 1), Pitch(Loyalty, 2)];
    } else {
      suggestions := suggestions + [Pitch(Welcome, 0), Pitch(Welcome, 1), Pitch(Welcome, 2)];
    }
    assert suggestions == Pitches(BaseTheme(segment), 3);
    var hasAgeRule := exists i :: 0 <= i < |rules| && rules[i].field in ["age", "ageGroup", "dateOfBirth"];
    if hasAgeRule {
      suggestions := suggestions + [Pitch(AgeTargeted, 0), Pitch(AgeTargeted, 1)];
    }
    assert suggestions == Pitches(BaseTheme(segment), 3) + (if HasAgeRule(rules) then Pitches(AgeTargeted, 2) else []);
    var hasLocationRule := exists i :: 0 <= i < |rules| && rules[i].field in ["location", "city", "state", "country"];
    if hasLocationRule {
      suggestions := suggestions + [Pitch(Local, 0), Pitch(Local, 1)];
    }
  }

  /** There are 3, 5 or 7 suggestions; the base family fills the first three places
      and is the only one of the three base families present. */
  lemma SuggestionsShape(segment: string, rules: seq<Rule>)
    ensures |Suggestions(segment, rules)| in {3, 5, 7}
    ensures forall i :: 0 <= i < 3 ==> Suggestions(segment, rules)[i].theme == BaseTheme(segment)
    ensures forall p :: p in Suggestions(segment, rules) && p.theme in {WinBack, Loyalty, Welcome} ==>
      p.theme == BaseTheme(segment)
    ensures (exists p :: p in Suggestions(segment, rules) && p.theme == AgeTargeted) <==> HasAgeRule(rules)
  {
    var s := Suggestions(segment, rules);
    var b := Pitches(BaseTheme(segment), 3);
    var a := if HasAgeRule(rules) then Pitches(AgeTargeted, 2) else [];
    var l := if HasLocationRule(rules) then Pitches(Local, 2) else [];
    assert s == b + a + l;
    if HasAgeRule(rules) {
      assert s[3] == Pitch(AgeTargeted, 0);
    }
    forall p | p in s
      ensures p.theme in {WinBack, Loyalty, Welcome} ==> p.theme == BaseTheme(segment)
      ensures p.theme == AgeTargeted ==> HasAgeRule(rules)
    {
      assert p in b || p in a || p in l;
    }
  }

  // ---------------------------------------------------------------------------
  // Tag suggestions

  /** The tags suggested by the segment name: at most one group. */
  function SegmentTags(segment: string): seq<string> {
    if Text.Mentions(segment, "inactive") then ["reactivation", "win-back", "churn-prevention"]
    else if Text.Mentions(segment, "high value") then ["vip", "loyalty", "premium"]
    else if Text.Mentions(segment, "new") then ["welcome", "onboarding", "new-user"]
    else []
  }

  function PromoTags(m: string): seq<string> {
    if Text.Mentions(m, "discount") || Text.Mentions(m, "off") || Text.Mentions(m, "code")
       || Text.Mentions(m, "sale")
    then ["promotion", "discount", "offer"] else []
  }

  function LaunchTags(m: string): seq<string> {
    if Text.Mentions(m, "new")
       && (Text.Mentions(m, "product") || Text.Mentions(m, "feature") || Text.Mentions(m, "launch"))
    then ["product-launch", "new-feature", "announcement"] else []
  }

  function ThanksTags(m: string): seq<string> {
    if Text.Mentions(m, "thank") || Text.Mentions(m, "appreciation") || Text.Mentions(m, "grateful")
    then ["appreciation", "gratitude", "thank-you"] else []
  }

  function EventTags(m: string): seq<string> {
    if Text.Mentions(m, "event") || Text.Mentions(m, "webinar") || Text.Mentions(m, "workshop")
    then ["event", "invitation", "webinar"] else []
  }

  /** The tags suggested by the message, group by group. */
  function MessageTags(m: string): seq<string> {
    PromoTags(m) + LaunchTags(m) + ThanksTags(m) + EventTags(m)
  }

  /** The message tests see the lower-cased message, so case does not matter. */
  lemma MessageTagsIgnoreCase(m: string)
    ensures MessageTags(Text.Lower(m)) == MessageTags(m)
  {
    Text.LowerIdempotent(m);
  }

  const GeneralTags: seq<string> := ["campaign-2025", "automation"]

  /** The pushed tags before de-duplication. */
  function RawTagSuggestions(segment: string, message: string): seq<string> {
    SegmentTags(segment) + MessageTags(message) + GeneralTags
  }

  function NotApplied(applied: seq<string>): string -> bool {
    t => t !in applied
  }

  /** De-duplicated in first-seen order, without the tags already applied. */
  function TagSuggestions(segment: string, message: string, applied: seq<string>): seq<string> {
    Seqs.Filter(Seqs.Distinct(RawTagSuggestions(segment, message)), NotApplied(applied))
  }

  /** `generateAiTagSuggestions` without its delay. */
  method GenerateAiTagSuggestions(segment: string, message: string, applied: seq<string>)
    returns (suggestions: seq<string>)
    ensures suggestions == TagSuggestions(segment, message, applied)
  {
    var tagSuggestions: seq<string> := [];
    if Text.Mentions(segment, "inactive") {
      tagSuggestions := tagSuggestions + ["reactivation", "win-back", "churn-prevention"];
    } else if Text.Mentions(segment, "high value") {
      tagSuggestions := tagSuggestions + ["vip", "loyalty", "premium"];
    } else if Text.Mentions(segment, "new") {
      tagSuggestions := tagSuggestions + ["welcome", "onboarding", "new-user"];
    }
    assert tagSuggestions == SegmentTags(segment);
    var lower := Text.Lower(message);
    var fromMessage: seq<string> := [];
    if Text.Mentions(lower, "discount") || Text.Mentions(lower, "off")
       || Text.Mentions(lower, "code") || Text.Mentions(lower, "sale") {
      fromMessage := fromMessage + ["promotion", "discount", "offer"];
    }
    assert fromMessage == PromoTags(lower);
    if Text.Mentions(lower, "new") && (Text.Mentions(lower, "product")
       || Text.Mentions(lower, "feature") || Text.Mentions(lower, "launch")) {
      fromMessage := fromMessage + ["product-launch", "new-feature", "announcement"];
    }
    assert fromMessage == PromoTags(lower) + LaunchTags(lower);
    if Text.Mentions(lower, "thank") || Text.Mentions(lower, "appreciation")
       || Text.Mentions(lower, "grateful") {
      fromMessage := fromMessage + ["appreciation", "gratitude", "thank-you"];
    }
    assert fromMessage == PromoTags(lower) + LaunchTags(lower) + ThanksTags(lower);
    if Text.Mentions(lower, "event") || Text.Mentions(lower, "webinar")
       || Text.Mentions(lower, "workshop") {
      fromMessage := fromMessage + ["event", "invitation", "webinar"];
    }
    assert fromMessage == MessageTags(message) by {
      assert fromMessage == MessageTags(lower);
      MessageTagsIgnoreCase(message);
    }
    tagSuggestions := tagSuggestions + fromMessage + ["campaign-2025", "automation"];
    assert tagSuggestions == RawTagSuggestions(segment, message);
    var uniqueTags := Seqs.Distinct(tagSuggestions);
    suggestions := Seqs.Filter(uniqueTags, NotApplied(applied));
  }

  /** The suggestions hold no repeat, never an applied tag, and exactly the pushed tags
      that are not applied; the two general-purpose tags are offered unless applied. */
  lemma TagSuggestionsFacts(segment: string, message: string, applied: seq<string>)
    ensures Seqs.NoDup(TagSuggestions(segment, message, applied))
    ensures forall t :: t in TagSuggestions(segment, message, applied) <==>
      t in RawTagSuggestions(segment, message) && t !in applied
    ensures "campaign-2025" in TagSuggestions(segment, message, applied) <==> "campaign-2025" !in applied
    ensures "automation" in TagSuggestions(segment, message, applied) <==> "automation" !in applied
    ensures Seqs.IsSubsequence(TagSuggestions(segment, message, applied), Seqs.Distinct(RawTagSuggestions(segment, message)))
  {
    var raw := RawTagSuggestions(segment, message);
    var d := Seqs.Distinct(raw);
    Seqs.DistinctFacts(raw);
    Seqs.FilterMembers(d, NotApplied(applied));
    Seqs.FilterIsSubsequence(d, NotApplied(applied));
    Seqs.FilterKeepsNoDup(d, NotApplied(applied));
    assert raw[|raw| - 2] == "campaign-2025" && raw[|raw| - 1] == "automation";
  }

  /** At most one segment group is suggested: its branches exclude one another. */
  lemma OneSegmentGroup(segment: string)
    ensures SegmentTags(segment) in [[], ["reactivation", "win-back", "churn-prevention"],
                                    ["vip", "loyalty", "premium"], ["welcome", "onboarding", "new-user"]]
    ensures Text.Mentions(segment, "inactive") ==> SegmentTags(segment) == ["reactivation", "win-back", "churn-prevention"]
  {
  }
}
