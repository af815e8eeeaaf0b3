/** The customer handlers of the server: a comma-separated `tags` value becomes an array
    before the body is written, on create and on update alike; a repeated email is
    refused by the unique index. */
module CustomerController {
  import opened Common
  import Text
  import CustomerSchema

  /** The `tags` of a request body as JSON gives it. `Other` is a number, a boolean or
      an object, with its truthiness and its `toString` text. */
  datatype TagsBody = Absent | Null | Str(s: string) | Other(truthy: bool, text: string) | Arr(items: seq<string>)

  predicate Truthy(v: TagsBody) {
    match v
    case Absent => false
    case Null => false
    case Str(s) => s != ""
    case Other(t, _) => t
    case Arr(_) => true
  }

  /** `toString()` of a truthy value that is not an array. */
  function TextOf(v: TagsBody): string
    requires v.Str? || v.Other?
  {
    if v.Str? then v.s else v.text
  }

  function TrimAll(pieces: seq<string>): (r: seq<string>)
    ensures |r| == |pieces|
    ensures forall i :: 0 <= i < |r| ==> r[i] == Text.Trim(pieces[i])
  {
    seq(|pieces|, i requires 0 <= i < |pieces| => Text.Trim(pieces[i]))
  }

  /** `if (tags && !Array.isArray(tags)) tags = tags.toString().split(',').map(t => t.trim())`. */
  function CoerceTags(v: TagsBody): (r: TagsBody)
    ensures !Truthy(v) || v.Arr? ==> r == v
  {
    if Truthy(v) && !v.Arr? then Arr(TrimAll(Text.Split(TextOf(v), ','))) else v
  }

  /** A coerced value is an array with one trimmed piece per comma-separated part,
      empty parts included. */
  lemma CoercePieces(v: TagsBody)
    requires Truthy(v) && !v.Arr?
    ensures CoerceTags(v).Arr?
    ensures |CoerceTags(v).items| == Text.Count(TextOf(v), ',') + 1
    ensures forall i :: 0 <= i < |CoerceTags(v).items| ==>
      CoerceTags(v).items[i] == Text.Trim(Text.Split(TextOf(v), ',')[i]) && ',' !in CoerceTags(v).items[i]
  {
    var pieces := Text.Split(TextOf(v), ',');
    Text.SplitPieces(TextOf(v), ',');
    forall i | 0 <= i < |pieces| ensures ',' !in Text.Trim(pieces[i]) {
      TrimInside(pieces[i], ',');
    }
  }

  /** Trimming keeps only characters of the text. */
  lemma TrimInside(s: string, c: char)
    requires c !in s
    ensures c !in Text.Trim(s)
  {
    var i, j :| 0 <= i <= j <= |s| && Text.Trim(s) == s[i..j] && Text.Blank(s[..i]) && Text.Blank(s[j..]);
    forall k | 0 <= k < j - i ensures s[i..j][k] != c {
      assert s[i..j][k] == s[i + k];
    }
  }

  /** Coercing twice changes nothing more. */
  lemma CoerceIdempotent(v: TagsBody)
    ensures CoerceTags(CoerceTags(v)) == CoerceTags(v)
  {
  }

  /** A text with no comma becomes a single trimmed tag. */
  lemma CoerceSingle(s: string)
    requires s != "" && ',' !in s
    ensures CoerceTags(Str(s)) == Arr([Text.Trim(s)])
  {
    Text.IndexOfCharFacts(s, ',');
  }

  /** A body's `segment`: absent, one string (cast to a one-element array) or an array. */
  datatype SegmentBody = NoSegment | OneSegment(s: string) | Segments(items: seq<string>)

  function CastSegment(v: SegmentBody): (r: Option<seq<string>>)
    ensures v.NoSegment? <==> r.None?
  {
    match v
    case NoSegment => None
    case OneSegment(s) => Some([s])
    case Segments(items) => Some(items)
  }

  /** The `tags` the document receives: an array as it is; a value the coercion left
      alone (absent or falsy) is not set. */
  function CastTags(v: TagsBody): (r: Option<seq<string>>)
    ensures r.Some? <==> v.Arr?
  {
    if v.Arr? then Some(v.items) else None
  }

  datatype CustomerBody = CustomerBody(
    name: Option<string>, email: Option<string>, phone: Option<string>, segment: SegmentBody,
    totalSpend: Option<int>, totalOrders: Option<int>, visits: Option<int>,
    tags: TagsBody, status: Option<string>)

  /** The body as the document layer casts it. */
  function ToRaw(body: CustomerBody): (r: CustomerSchema.RawCustomer)
    ensures r.name == body.name && r.email == body.email && r.tags == CastTags(body.tags)
  {
    CustomerSchema.RawCustomer(
      body.name, body.email, body.phone, CastSegment(body.segment),
      body.totalSpend, body.totalOrders, body.visits, CastTags(body.tags), body.status)
  }

  /** The validators an update runs: each on a field the body sets. */
  predicate UpdateAdmissible(raw: CustomerSchema.RawCustomer) {
    (raw.name.None? || CustomerSchema.NameOk(raw.name))
    && (raw.email.None? || CustomerSchema.EmailOk(raw.email))
    && CustomerSchema.Matches(raw.phone, CustomerSchema.ValidPhone)
    && CustomerSchema.StatusOk(raw.status)
  }

  /** `findByIdAndUpdate`: the fields the body sets replace the stored ones. */
  function Merge(c: CustomerSchema.Customer, raw: CustomerSchema.RawCustomer, now: int)
    : (r: CustomerSchema.Customer)
    ensures raw.tags.Some? ==> r.tags == raw.tags.value
    ensures raw.tags.None? ==> r.tags == c.tags
    ensures raw.email.None? ==> r.email == c.email
    ensures raw.email.Some? ==> r.email == raw.email.value
    ensures raw.name.Some? ==> r.name == Text.Trim(raw.name.value)
    ensures raw.name.None? ==> r.name == c.name
    ensures raw.phone.Some? ==> r.phone == raw.phone
    ensures raw.phone.None? ==> r.phone == c.phone
    ensures r.segment == raw.segment.GetOr(c.segment) && r.status == raw.status.GetOr(c.status)
    ensures r.totalSpend == raw.totalSpend.GetOr(c.totalSpend)
    ensures r.totalOrders == raw.totalOrders.GetOr(c.totalOrders) && r.visits == raw.visits.GetOr(c.visits)
    ensures r.createdAt == c.createdAt && r.updatedAt == now
  {
    CustomerSchema.Customer(
      if raw.name.Some? then Text.Trim(raw.name.value) else c.name,
      raw.email.GetOr(c.email),
      if raw.phone.Some? then raw.phone else c.phone,
      raw.segment.GetOr(c.segment), raw.totalSpend.GetOr(c.totalSpend),
      raw.totalOrders.GetOr(c.totalOrders), raw.visits.GetOr(c.visits),
      raw.tags.GetOr(c.tags), raw.status.GetOr(c.status), c.createdAt, now)
  }

  const Duplicate := "Customer with that email already exists"

  /** The unique index: no two customers share an email. */
  predicate UniqueEmails(docs: map<string, CustomerSchema.Customer>) {
    forall a, b :: a in docs && b in docs && a != b ==> docs[a].email != docs[b].email
  }

  /** Storing a customer under `id` whose email no other customer has keeps the index
      satisfied. */
  lemma PutKeepsUnique(docs: map<string, CustomerSchema.Customer>, id: string, c: CustomerSchema.Customer)
    requires UniqueEmails(docs)
    requires forall k :: k in docs && k != id ==> docs[k].email != c.email
    ensures UniqueEmails(docs[id := c])
  {
  }

  class CustomerStore {
    var docs: map<string, CustomerSchema.Customer>

    predicate Valid()
      reads this
    {
      UniqueEmails(docs)
    }

    predicate EmailTaken(email: string, except: Option<string>)
      reads this
    {
      exists k :: k in docs && Some(k) != except && docs[k].email == email
    }

    constructor()
      ensures docs == map[] && Valid()
    {
      docs := map[];
    }

    /** `createCustomer`: request-validation errors give 400; the tags are coerced in
        the body; a document the schema refuses gives 500; an email in use gives 400
        with `Duplicate`; otherwise the customer is stored under `newId`. */
    method Create(body: CustomerBody, inputValid: bool, newId: string, now: int) returns (code: int, message: string)
      requires newId !in docs && Valid()
      modifies this
      ensures Valid()
      ensures !inputValid ==> code == 400 && docs == old(docs)
      ensures var raw := ToRaw(body.(tags := CoerceTags(body.tags)));
        inputValid && !CustomerSchema.Admissible(raw) ==> code == 500 && docs == old(docs)
      ensures var raw := ToRaw(body.(tags := CoerceTags(body.tags)));
        inputValid && CustomerSchema.Admissible(raw) && old(EmailTaken(raw.email.value, None)) ==>
          code == 400 && message == Duplicate && docs == old(docs)
      ensures var raw := ToRaw(body.(tags := CoerceTags(body.tags)));
        inputValid && CustomerSchema.Admissible(raw) && !old(EmailTaken(raw.email.value, None)) ==>
          code == 201 && docs == old(docs)[newId := CustomerSchema.ValidateCustomer(raw, now).value]
    {
      if !inputValid {
        return 400, "";
      }
      var req := body;
      if Truthy(req.tags) && !req.tags.Arr? {
        req := req.(tags := Arr(TrimAll(Text.Split(TextOf(req.tags), ','))));
      }
      assert req.tags == CoerceTags(body.tags);
      var saved := CustomerSchema.ValidateCustomer(ToRaw(req), now);
      if saved.None? {
        return 500, "Failed to create customer";
      }
      var c := saved.value;
      assert c.email == ToRaw(req).email.value;
      if EmailTaken(c.email, None) {
        return 400, Duplicate;
      }
      PutKeepsUnique(docs, newId, c);
      docs := docs[newId := c];
      code, message := 201, "";
    }

    /** `updateCustomerById`: the same coercion; validation of the fields set, then the
        lookup, then the unique index, whose failure here is a plain 500. */
    method Update(id: string, body: CustomerBody, now: int) returns (code: int, message: string)
      requires Valid()
      modifies this
      ensures Valid()
      ensures var raw := ToRaw(body.(tags := CoerceTags(body.tags)));
        !UpdateAdmissible(raw) ==> code == 500 && docs == old(docs)
      ensures var raw := ToRaw(body.(tags := CoerceTags(body.tags)));
        UpdateAdmissible(raw) && id !in old(docs) ==> code == 404 && docs == old(docs)
      ensures var raw := ToRaw(body.(tags := CoerceTags(body.tags)));
        UpdateAdmissible(raw) && id in old(docs) && raw.email.Some? && old(EmailTaken(raw.email.value, Some(id))) ==>
          code == 500 && docs == old(docs)
      ensures var raw := ToRaw(body.(tags := CoerceTags(body.tags)));
        UpdateAdmissible(raw) && id in old(docs) && !(raw.email.Some? && old(EmailTaken(raw.email.value, Some(id)))) ==>
          code == 200 && docs == old(docs)[id := Merge(old(docs)[id], raw, now)]
    {
      var req := body;
      if Truthy(req.tags) && !req.tags.Arr? {
        req := req.(tags := Arr(TrimAll(Text.Split(TextOf(req.tags), ','))));
      }
      assert req.tags == CoerceTags(body.tags);
      var raw := ToRaw(req);
      if !UpdateAdmissible(raw) {
        return 500, "Failed to update customer";
      }
      if id !in docs {
        return 404, "Customer not found";
      }
      if raw.email.Some? && EmailTaken(raw.email.value, Some(id)) {
        return 500, "Failed to update customer";
      }
      var merged := Merge(docs[id], raw, now);
      PutKeepsUnique(docs, id, merged);
      docs := docs[id := merged];
      code, message := 200, "";
    }

    /** `deleteCustomerById`: a missing customer gives 404; otherwise it is removed. */
    method Delete(id: string) returns (code: int)
      requires Valid()
      modifies this
      ensures Valid()
      ensures code == (if id in old(docs) then 200 else 404)
      ensures docs == old(docs) - {id}
    {
      if id !in docs {
        return 404;
      }
      docs := docs - {id};
      code := 200;
    }
  }
}
