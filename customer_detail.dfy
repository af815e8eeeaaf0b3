/** The customer detail page: the edit form is filled from the fetched customer, edited
    with the same tag handlers as the new-customer form, and reset on cancel. */
module CustomerDetail {
  import opened Common
  import Text
  import Seqs
  import CustomerForm

  /** The fetched customer's fields the form shows; `None` is a missing or falsy value.
      The segment arrives as the stored array. */
  datatype Fetched = Fetched(
    name: Option<string>, email: Option<string>, segment: Option<seq<string>>,
    tags: Option<seq<string>>, phone: Option<string>, address: Option<string>)

  /** The form's segment: the fetched array, or the empty string when there is none. */
  datatype SegmentValue = SegmentText(s: string) | SegmentArray(items: seq<string>)

  datatype DetailForm = DetailForm(
    name: string, email: string, segment: SegmentValue, tags: seq<string>, phone: string, address: string)

  /** `x || ''` on a fetched string. */
  function OrEmpty(s: Option<string>): (r: string)
    ensures s.None? ==> r == ""
    ensures s.Some? ==> r == s.value
  {
    match s
    case None => ""
    case Some(v) => v
  }

  /** The projection of a customer onto the form, used on load and on cancel. */
  function FormOf(c: Fetched): (r: DetailForm)
    ensures r.name == OrEmpty(c.name) && r.email == OrEmpty(c.email)
    ensures r.phone == OrEmpty(c.phone) && r.address == OrEmpty(c.address)
    ensures r.tags == c.tags.GetOr([])
    ensures c.segment.None? ==> r.segment == SegmentText("")
    ensures c.segment.Some? ==> r.segment == SegmentArray(c.segment.value)
  {
    DetailForm(
      OrEmpty(c.name), OrEmpty(c.email),
      if c.segment.Some? then SegmentArray(c.segment.value) else SegmentText(""),
      c.tags.GetOr([]), OrEmpty(c.phone), OrEmpty(c.address))
  }

  /** The page: the customer as fetched (or saved), the form, and the tag box. */
  datatype Page = Page(customer: Option<Fetched>, form: DetailForm, editing: bool, newTag: string)

  /** The inputs that `handleChange` serves. The segment input stores the typed text,
      replacing the fetched array. */
  datatype TextField = NameInput | EmailInput | SegmentInput | PhoneInput | AddressInput

  /** The edits a user makes while editing. */
  datatype Edit = Change(f: TextField, value: string) | TypeTag(text: string) | AddTag | RemoveTag(tag: string)

  function ApplyEdit(p: Page, e: Edit): (r: Page)
    ensures r.customer == p.customer && r.editing == p.editing
    ensures e.Change? ==> r.form.tags == p.form.tags && r.newTag == p.newTag
    ensures e.Change? && e.f == SegmentInput ==> r.form.segment == SegmentText(e.value)
  {
    match e
    case Change(f, v) =>
      var form := p.form;
      var changed :=
        match f
        case NameInput => form.(name := v)
        case EmailInput => form.(email := v)
        case SegmentInput => form.(segment := SegmentText(v))
        case PhoneInput => form.(phone := v)
        case AddressInput => form.(address := v);
      p.(form := changed)
    case TypeTag(t) => p.(newTag := t)
    case AddTag =>
      var entry := CustomerForm.AddTag(CustomerForm.TagEntry(p.form.tags, p.newTag));
      p.(form := p.form.(tags := entry.tags), newTag := entry.input)
    case RemoveTag(t) => p.(form := p.form.(tags := Seqs.RemoveAll(p.form.tags, t)))
  }

  function ApplyEdits(p: Page, edits: seq<Edit>): Page {
    if edits == [] then p else ApplyEdit(ApplyEdits(p, edits[..|edits| - 1]), edits[|edits| - 1])
  }

  /** Editing never touches the customer the page holds. */
  lemma {:induction false} EditsKeepCustomer(p: Page, edits: seq<Edit>)
    ensures ApplyEdits(p, edits).customer == p.customer
    ensures ApplyEdits(p, edits).editing == p.editing
  {
    if edits != [] {
      EditsKeepCustomer(p, edits[..|edits| - 1]);
    }
  }

  /** The fetch fills the form from the customer. */
  function Load(c: Fetched): (r: Page)
    ensures r.customer == Some(c) && r.form == FormOf(c) && !r.editing
  {
    Page(Some(c), FormOf(c), false, "")
  }

  /** Cancel leaves editing and resets the form to the customer's projection. */
  function Cancel(p: Page): (r: Page)
    requires p.customer.Some?
    ensures !r.editing && r.form == FormOf(p.customer.value) && r.customer == p.customer
  {
    p.(editing := false, form := FormOf(p.customer.value))
  }

  /** Whatever was edited, cancel brings back the form as it was loaded. */
  lemma CancelRestoresLoaded(c: Fetched, edits: seq<Edit>)
    ensures var p := ApplyEdits(Load(c).(editing := true), edits);
      p.customer == Some(c) && Cancel(p).form == Load(c).form
  {
    EditsKeepCustomer(Load(c).(editing := true), edits);
  }

  /** The page's tag entry keeps the tags free of repeats, as the form's does. */
  lemma EditsKeepTagsDistinct(p: Page, e: Edit)
    requires Seqs.NoDup(p.form.tags)
    ensures Seqs.NoDup(ApplyEdit(p, e).form.tags)
  {
    match e
    case AddTag => CustomerForm.AddTagKeepsDistinct(CustomerForm.TagEntry(p.form.tags, p.newTag));
    case RemoveTag(t) => RemoveAllKeepsNoDup(p.form.tags, t);
    case _ =>
  }

  lemma RemoveAllKeepsNoDup(s: seq<string>, x: string)
    requires Seqs.NoDup(s)
    ensures Seqs.NoDup(Seqs.RemoveAll(s, x))
  {
    Seqs.FilterKeepsNoDup(s, Seqs.Unequal(x));
  }
}
