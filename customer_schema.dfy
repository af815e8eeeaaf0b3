/** The stored shape of a customer: the email and phone patterns, the enumerated
    status and the defaults that the document schema applies on save. */
module CustomerSchema {
  import opened Common
  import Text

  /** The class `[\w-\.]` of the email's local part. */
  predicate IsLocalChar(c: char) {
    Text.IsWordChar(c) || c == '-' || c == '.'
  }

  /** The class `[\w-]` of a domain label. */
  predicate IsLabelChar(c: char) {
    Text.IsWordChar(c) || c == '-'
  }

  predicate AllLocal(s: string) {
    forall i :: 0 <= i < |s| ==> IsLocalChar(s[i])
  }

  predicate AllLabel(s: string) {
    forall i :: 0 <= i < |s| ==> IsLabelChar(s[i])
  }

  /** `[\w-]{2,4}` up to the end of the text. */
  predicate FinalLabel(t: string) {
    2 <= |t| <= 4 && AllLabel(t)
  }

  /** `([\w-]+\.)+[\w-]{2,4}$`: one or more labels each closed by a dot, then the final
      label. A label holds no dot, so each one ends at the first dot that follows. */
  predicate Domain(d: string)
    decreases |d|
  {
    var i := Text.IndexOfChar(d, '.');
    0 < i && AllLabel(d[..i]) && (FinalLabel(d[i + 1..]) || Domain(d[i + 1..]))
  }

  /** `^[\w-\.]+@([\w-]+\.)+[\w-]{2,4}$`. The local part holds no `@`, so it ends at the
      first one. */
  predicate ValidEmail(s: string) {
    var at := Text.IndexOfChar(s, '@');
    0 < at && AllLocal(s[..at]) && Domain(s[at + 1..])
  }

  /** `^\+?[0-9]{10,15}$`. */
  predicate ValidPhone(p: string) {
    var digits := if |p| > 0 && p[0] == '+' then p[1..] else p;
    10 <= |digits| <= 15 && forall i :: 0 <= i < |digits| ==> Text.IsDigit(digits[i])
  }

  /** A pattern validator passes an absent or empty value; only `required` refuses those. */
  predicate Matches(v: Option<string>, pattern: string -> bool) {
    v.None? || v.value == "" || pattern(v.value)
  }

  const Statuses: seq<string> := ["active", "inactive"]

  /** A stored customer; `name` is kept trimmed. */
  datatype Customer = Customer(
    name: string, email: string, phone: Option<string>, segment: seq<string>,
    totalSpend: int, totalOrders: int, visits: int, tags: seq<string>, status: string,
    createdAt: int, updatedAt: int)

  /** A customer as submitted, after casting: any field may be absent. */
  datatype RawCustomer = RawCustomer(
    name: Option<string>, email: Option<string>, phone: Option<string>,
    segment: Option<seq<string>>, totalSpend: Option<int>, totalOrders: Option<int>,
    visits: Option<int>, tags: Option<seq<string>>, status: Option<string>)

  /** The name passes `required` once the `trim` setter has run. */
  predicate NameOk(name: Option<string>) {
    name.Some? && Text.Trim(name.value) != ""
  }

  predicate EmailOk(email: Option<string>) {
    email.Some? && email.value != "" && ValidEmail(email.value)
  }

  predicate StatusOk(status: Option<string>) {
    status.None? || status.value in Statuses
  }

  /** Every validator of the schema passes. */
  predicate Admissible(raw: RawCustomer) {
    NameOk(raw.name) && EmailOk(raw.email) && Matches(raw.phone, ValidPhone) && StatusOk(raw.status)
  }

  /** `Customer.create`: validation, then the defaults and the time stamps. */
  function ValidateCustomer(raw: RawCustomer, now: int): (r: Option<Customer>)
    ensures r.Some? <==> Admissible(raw)
    ensures r.Some? ==> r.value.name == Text.Trim(raw.name.value) && r.value.email == raw.email.value
    ensures r.Some? ==> r.value.segment == raw.segment.GetOr(["default"]) && r.value.tags == raw.tags.GetOr([])
    ensures r.Some? ==> r.value.totalSpend == raw.totalSpend.GetOr(0) && r.value.totalOrders == raw.totalOrders.GetOr(0)
    ensures r.Some? ==> r.value.visits == raw.visits.GetOr(0) && r.value.status in Statuses
    ensures r.Some? ==> r.value.status == raw.status.GetOr("active") && r.value.phone == raw.phone
    ensures r.Some? ==> r.value.createdAt == now && r.value.updatedAt == now
  {
    if !Admissible(raw) then None
    else
      Some(Customer(
        Text.Trim(raw.name.value), raw.email.value, raw.phone,
        raw.segment.GetOr(["default"]), raw.totalSpend.GetOr(0), raw.totalOrders.GetOr(0),
        raw.visits.GetOr(0), raw.tags.GetOr([]), raw.status.GetOr("active"), now, now))
  }

  /** A body with only a name and an email gets every default. */
  lemma Defaults(name: string, email: string, now: int)
    requires Text.Trim(name) != "" && email != "" && ValidEmail(email)
    ensures var r := ValidateCustomer(RawCustomer(Some(name), Some(email), None, None, None, None, None, None, None), now);
      r.Some? && r.value.segment == ["default"] && r.value.tags == [] && r.value.status == "active"
      && r.value.totalSpend == 0 && r.value.totalOrders == 0 && r.value.visits == 0
  {
  }

  // ---------------------------------------------------------------------------
  // The patterns

  /** Ten to fifteen digits pass, with or without one leading `+`. */
  lemma PhoneDigits(ds: string)
    requires 10 <= |ds| <= 15 && forall i :: 0 <= i < |ds| ==> Text.IsDigit(ds[i])
    ensures ValidPhone(ds) && ValidPhone("+" + ds)
  {
    assert ("+" + ds)[1..] == ds;
  }

  /** A valid phone is its digits, after at most one `+`. */
  lemma PhoneShape(p: string)
    requires ValidPhone(p)
    ensures 10 <= |p| <= 16
    ensures forall i :: 0 < i < |p| ==> Text.IsDigit(p[i])
    ensures |p| == 16 ==> p[0] == '+'
  {
    if p[0] == '+' {
      assert forall i :: 0 < i < |p| ==> p[i] == p[1..][i - 1];
    }
  }

  /** A local part, a host label, a dot and a final label make a valid address. */
  lemma EmailOfParts(local: string, host: string, tld: string)
    requires local != [] && AllLocal(local) && host != [] && AllLabel(host) && FinalLabel(tld)
    ensures ValidEmail(local + "@" + host + "." + tld)
  {
    var d := host + "." + tld;
    assert local + "@" + host + "." + tld == local + "@" + d;
    assert '@' !in local by {
      forall i | 0 <= i < |local| ensures local[i] != '@' {
        assert IsLocalChar(local[i]);
      }
    }
    FirstSeparator(local, '@', d);
    assert '.' !in host by {
      forall i | 0 <= i < |host| ensures host[i] != '.' {
        assert IsLabelChar(host[i]);
      }
    }
    FirstSeparator(host, '.', tld);
  }

  /** A final label of one character is refused, as in `a@b.c`. */
  lemma OneCharacterEndRefused(local: string, host: string, c: char)
    requires '@' !in local && '.' !in host
    ensures !ValidEmail(local + "@" + host + "." + [c])
  {
    var d := host + "." + [c];
    assert local + "@" + host + "." + [c] == local + "@" + d;
    FirstSeparator(local, '@', d);
    FirstSeparator(host, '.', [c]);
    assert !FinalLabel([c]);
    assert Text.IndexOfChar([c], '.') <= 0;
    assert !Domain([c]);
    assert !Domain(d);
  }

  /** The first separator of `a + [sep] + b` is the one after `a` when `a` has none. */
  lemma FirstSeparator(a: string, sep: char, b: string)
    requires sep !in a
    ensures Text.IndexOfChar(a + [sep] + b, sep) == |a|
    ensures (a + [sep] + b)[..|a|] == a && (a + [sep] + b)[|a| + 1..] == b
  {
    var s := a + [sep] + b;
    assert s[..|a|] == a && s[|a|] == sep && s[|a| + 1..] == b;
    Text.IndexOfCharFirst(s, sep, |a|);
  }

  /** A domain starts with a label, its dot and one more label character. */
  lemma DomainHead(d: string) returns (i: int)
    requires Domain(d)
    ensures 0 < i && i + 1 < |d| && d[i] == '.' && IsLabelChar(d[i + 1])
    ensures forall k :: 0 <= k < i ==> IsLabelChar(d[k])
  {
    i := Text.IndexOfChar(d, '.');
    Text.IndexOfCharFacts(d, '.');
    var rest := d[i + 1..];
    assert forall k :: 0 <= k < i ==> d[k] == d[..i][k];
    if !FinalLabel(rest) {
      var j := Text.IndexOfChar(rest, '.');
      assert rest[0] == rest[..j][0];
    }
    assert d[i + 1] == rest[0];
  }

  /** A valid address ends in a dot and a final label of two to four characters. */
  lemma {:induction false} DomainEnd(d: string)
    requires Domain(d)
    ensures exists k :: 0 < k < |d| && d[k] == '.' && FinalLabel(d[k + 1..])
    decreases |d|
  {
    var i := Text.IndexOfChar(d, '.');
    Text.IndexOfCharFacts(d, '.');
    var rest := d[i + 1..];
    if FinalLabel(rest) {
      assert 0 < i < |d| && d[i] == '.';
    } else {
      DomainEnd(rest);
      var k :| 0 < k < |rest| && rest[k] == '.' && FinalLabel(rest[k + 1..]);
      assert d[i + 1 + k] == '.' && d[i + 1 + k + 1..] == rest[k + 1..];
    }
  }

  lemma EmailEnd(s: string)
    requires ValidEmail(s)
    ensures exists k :: 0 < k < |s| && s[k] == '.' && FinalLabel(s[k + 1..])
  {
    var at := Text.IndexOfChar(s, '@');
    var d := s[at + 1..];
    DomainEnd(d);
    var k :| 0 < k < |d| && d[k] == '.' && FinalLabel(d[k + 1..]);
    assert s[at + 1 + k] == '.' && s[at + 1 + k + 1..] == d[k + 1..];
  }
}
