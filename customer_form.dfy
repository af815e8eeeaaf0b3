/** The new-customer form: validation of the name and the email before submitting,
    the field editor that clears a field's error, and the tag and segment entries. */
module CustomerForm {
  import opened Common
  import Text
  import Seqs
  import CustomerSchema

  /** The form's fields. */
  datatype FormData = FormData(
    name: string, email: string, segment: string, tags: seq<string>, phone: string, address: string)

  const EmptyForm := FormData("", "", "", [], "", "")

  /** The inputs that `handleChange` serves, by their `name` attribute. */
  datatype Field = Name | Email | Phone | Segment | Address

  function Key(f: Field): string {
    match f
    case Name => "name"
    case Email => "email"
    case Phone => "phone"
    case Segment => "segment"
    case Address => "address"
  }

  function Get(form: FormData, f: Field): string {
    match f
    case Name => form.name
    case Email => form.email
    case Phone => form.phone
    case Segment => form.segment
    case Address => form.address
  }

  // ---------------------------------------------------------------------------
  // The email check

  /** `/\S+@\S+\.\S+/` matches at `at` (the `@`) and `dot` (the `.`): a non-space
      character before the `@`, a run of non-space characters up to the dot, and a
      non-space character after it. */
  predicate LooseMatchAt(s: string, at: int, dot: int) {
    0 < at && at + 1 < dot && dot + 1 < |s|
    && !Text.IsSpace(s[at - 1]) && s[at] == '@' && s[dot] == '.' && !Text.IsSpace(s[dot + 1])
    && forall i :: at < i < dot ==> !Text.IsSpace(s[i])
  }

  /** The pattern is not anchored: some part of the text matches. */
  predicate LooseEmail(s: string) {
    exists at, dot | 0 <= at < |s| && 0 <= dot < |s| :: LooseMatchAt(s, at, dot)
  }

  /** Text around a match does not undo it. */
  lemma LooseEmailUnanchored(p: string, s: string, q: string)
    requires LooseEmail(s)
    ensures LooseEmail(p + s + q)
  {
    var at, dot :| 0 <= at < |s| && 0 <= dot < |s| && LooseMatchAt(s, at, dot);
    var t := p + s + q;
    assert forall i :: 0 <= i < |s| ==> t[|p| + i] == s[i];
    assert LooseMatchAt(t, |p| + at, |p| + dot);
  }

  /** Every address the stored schema accepts passes the form's check. */
  lemma SchemaEmailPassesForm(s: string)
    requires CustomerSchema.ValidEmail(s)
    ensures LooseEmail(s) && !Text.Blank(s)
  {
    var at := Text.IndexOfChar(s, '@');
    Text.IndexOfCharFacts(s, '@');
    var d := s[at + 1..];
    var i := CustomerSchema.DomainHead(d);
    assert s[at - 1] == s[..at][at - 1];
    assert CustomerSchema.IsLocalChar(s[at - 1]);
    forall k | at < k < at + 1 + i ensures !Text.IsSpace(s[k]) {
      assert s[k] == d[k - at - 1];
    }
    assert s[at + 1 + i] == d[i] && s[at + 1 + i + 1] == d[i + 1];
    assert LooseMatchAt(s, at, at + 1 + i);
  }

  /** The form's check is looser: `a@b.c` passes it and the stored schema refuses it. */
  lemma FormLooserThanSchema()
    ensures LooseEmail("a@b.c") && !CustomerSchema.ValidEmail("a@b.c")
  {
    assert LooseMatchAt("a@b.c", 1, 3);
    assert "a" + "@" + "b" + "." + ['c'] == "a@b.c";
    CustomerSchema.OneCharacterEndRefused("a", "b", 'c');
  }

  // ---------------------------------------------------------------------------
  // Validation

  /** The error a field shows; `None` is a cleared (null) entry. */
  type Errors = map<string, Option<string>>

  /** `validate`: the errors object is built key by key; the form is valid iff it
      stays empty. */
  method Validate(form: FormData) returns (errors: Errors, valid: bool)
    ensures "name" in errors <==> Text.Blank(form.name)
    ensures "name" in errors ==> errors["name"] == Some("Name is required")
    ensures "email" in errors <==> Text.Blank(form.email) || !LooseEmail(form.email)
    ensures "email" in errors ==> errors["email"] == Some(if Text.Blank(form.email) then "Email is required" else "Email is invalid")
    ensures errors.Keys <= {"name", "email"}
    ensures valid <==> errors == map[]
    ensures valid <==> !Text.Blank(form.name) && !Text.Blank(form.email) && LooseEmail(form.email)
  {
    errors := map[];
    if Text.Trim(form.name) == "" {
      errors := errors["name" := Some("Name is required")];
    }
    if Text.Trim(form.email) == "" {
      errors := errors["email" := Some("Email is required")];
    } else if !LooseEmail(form.email) {
      errors := errors["email" := Some("Email is invalid")];
    }
    valid := |errors.Keys| == 0;
    if !valid {
      assert "name" in errors || "email" in errors;
    }
  }

  /** A name the form accepts is one the stored schema accepts. */
  lemma ValidFormName(form: FormData)
    requires !Text.Blank(form.name)
    ensures CustomerSchema.NameOk(Some(form.name))
  {
  }

  // ---------------------------------------------------------------------------
  // Editing

  datatype Editor = Editor(form: FormData, errors: Errors)

  /** `handleChange`: the named field takes the value; its error, when it shows one,
      is cleared to null. */
  function HandleChange(e: Editor, f: Field, value: string): (r: Editor)
    ensures Get(r.form, f) == value
    ensures forall g :: g != f ==> Get(r.form, g) == Get(e.form, g)
    ensures r.form.tags == e.form.tags
    ensures r.errors.Keys == e.errors.Keys
    ensures forall k :: k in e.errors && k != Key(f) ==> r.errors[k] == e.errors[k]
    ensures Key(f) in e.errors && e.errors[Key(f)].Some? && e.errors[Key(f)].value != "" ==> r.errors[Key(f)] == None
    ensures Key(f) in e.errors && !(e.errors[Key(f)].Some? && e.errors[Key(f)].value != "") ==> r.errors == e.errors
  {
    var form :=
      match f
      case Name => e.form.(name := value)
      case Email => e.form.(email := value)
      case Phone => e.form.(phone := value)
      case Segment => e.form.(segment := value)
      case Address => e.form.(address := value);
    var k := Key(f);
    var shown := k in e.errors && e.errors[k].Some? && e.errors[k].value != "";
    Editor(form, if shown then e.errors[k := None] else e.errors)
  }

  /** The tag list and the text of the tag box. */
  datatype TagEntry = TagEntry(tags: seq<string>, input: string)

  /** `handleAddTag`: the trimmed input is appended when it is non-empty and absent, and
      then the box is emptied; otherwise nothing changes. */
  function AddTag(e: TagEntry): (r: TagEntry)
    ensures Text.Blank(e.input) || Text.Trim(e.input) in e.tags ==> r == e
    ensures !Text.Blank(e.input) && Text.Trim(e.input) !in e.tags ==>
      r.tags == e.tags + [Text.Trim(e.input)] && r.input == ""
  {
    var t := Text.Trim(e.input);
    if t != "" && t !in e.tags then TagEntry(e.tags + [t], "") else e
  }

  /** Adding keeps the tags free of repeats and each tag trimmed. */
  lemma AddTagKeepsDistinct(e: TagEntry)
    requires Seqs.NoDup(e.tags)
    ensures Seqs.NoDup(AddTag(e).tags)
    ensures forall t :: t in AddTag(e).tags <==> t in e.tags || (!Text.Blank(e.input) && t == Text.Trim(e.input))
    ensures forall t :: t in AddTag(e).tags && t !in e.tags ==> Text.Trim(t) == t
  {
    var t := Text.Trim(e.input);
    Text.TrimIdempotent(e.input);
    Seqs.AppendIfAbsentFacts(e.tags, t);
    if t != "" && t !in e.tags {
      assert AddTag(e).tags == Seqs.AppendIfAbsent(e.tags, t);
    } else {
      assert AddTag(e) == e;
    }
  }

  /** `handleRemoveTag`: every occurrence goes, the rest keep their order. */
  function RemoveTag(form: FormData, tag: string): (r: FormData)
    ensures tag !in r.tags
    ensures forall t :: t != tag ==> (t in r.tags <==> t in form.tags)
    ensures Seqs.IsSubsequence(r.tags, form.tags)
    ensures r.(tags := form.tags) == form
  {
    form.(tags := Seqs.RemoveAll(form.tags, tag))
  }

  /** Removing a tag just added gives back the list it was added to. */
  lemma RemoveUndoesAdd(e: TagEntry)
    requires !Text.Blank(e.input) && Text.Trim(e.input) !in e.tags
    ensures Seqs.RemoveAll(AddTag(e).tags, Text.Trim(e.input)) == e.tags
  {
    Seqs.RemoveAppended(e.tags, Text.Trim(e.input));
  }

  /** `handleAddSegment`: a non-blank input becomes the segment, trimmed, and the box
      is emptied; a blank one changes nothing. */
  function AddSegment(form: FormData, input: string): (r: (FormData, string))
    ensures Text.Blank(input) ==> r == (form, input)
    ensures !Text.Blank(input) ==> r.0 == form.(segment := Text.Trim(input)) && r.1 == ""
  {
    var s := Text.Trim(input);
    if s != "" then (form.(segment := s), "") else (form, input)
  }
}
