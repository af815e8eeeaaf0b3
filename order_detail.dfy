/** The order detail page: the route parameter is checked against the ObjectId format
    before the order is fetched, the page shows one of four screens, and the status
    badge takes its colours from a table with a fallback entry. */
module OrderDetail {
  import opened Common
  import Text

  /** `/^[0-9a-fA-F]{24}$/.test(id)`. */
  predicate ValidObjectId(s: string) {
    |s| == 24 && forall i :: 0 <= i < |s| ==> Text.IsHexDigit(s[i])
  }

  /** The regular expression ignores case: an id and its lower-case form are valid
      together. */
  lemma ValidIgnoresCase(s: string)
    ensures ValidObjectId(s) <==> ValidObjectId(Text.Lower(s))
  {
    forall i | 0 <= i < |s| ensures Text.IsHexDigit(s[i]) <==> Text.IsHexDigit(Text.Lower(s)[i]) {
      LowerKeepsHex(s[i]);
    }
  }

  lemma LowerKeepsHex(c: char)
    ensures Text.IsHexDigit(c) <==> Text.IsHexDigit(Text.LowerChar(c))
  {
  }

  /** A valid id holds no character outside the hex digits, so an id with a `-` or a
      `g`, or of any length but 24, is refused. */
  lemma InvalidIds(s: string, i: int)
    requires 0 <= i < |s| && !Text.IsHexDigit(s[i])
    ensures !ValidObjectId(s)
  {
  }

  /** The effect: the order is fetched when the parameter is truthy and valid; otherwise
      the error is only logged. `.test(undefined)` matches against the text `undefined`. */
  function ShouldFetch(id: Option<string>): (r: bool)
    ensures r ==> id.Some? && |id.value| == 24
  {
    var arg := if id.Some? then id.value else "undefined";
    id.Some? && id.value != "" && ValidObjectId(arg)
  }

  /** The truthiness test adds nothing: the fetch happens exactly for a present, valid
      id. */
  lemma FetchIffValid(id: Option<string>)
    ensures ShouldFetch(id) <==> id.Some? && ValidObjectId(id.value)
  {
  }

  /** The screen the page renders, checked in this order. */
  datatype Screen = Spinner | ErrorBox(message: string) | NotFound | Details

  /** `error` and the loaded order as the orders slice holds them; an empty error text
      is falsy. */
  function Render(loading: bool, error: Option<string>, hasOrder: bool): (r: Screen)
    ensures loading <==> r == Spinner
    ensures r.ErrorBox? <==> !loading && error.Some? && error.value != ""
    ensures r.ErrorBox? ==> r.message == error.value
    ensures r == Details <==> !loading && !(error.Some? && error.value != "") && hasOrder
  {
    if loading then Spinner
    else if error.Some? && error.value != "" then ErrorBox(error.value)
    else if !hasOrder then NotFound
    else Details
  }

  /** The three colour classes of a badge. */
  datatype Style = Style(bg: string, text: string, dot: string)

  const Fallback := Style("bg-gray-100", "text-gray-800", "text-gray-400")

  /** The table's own entries, `default` among them. */
  function Configured(status: string): Option<Style> {
    match status
    case "delivered" => Some(Style("bg-green-100", "text-green-800", "text-green-400"))
    case "shipped" => Some(Style("bg-blue-100", "text-blue-800", "text-blue-400"))
    case "processing" => Some(Style("bg-purple-100", "text-purple-800", "text-purple-400"))
    case "pending" => Some(Style("bg-yellow-100", "text-yellow-800", "text-yellow-400"))
    case "cancelled" => Some(Style("bg-red-100", "text-red-800", "text-red-400"))
    case "default" => Some(Fallback)
    case _ => None
  }

  const Known: set<string> := {"delivered", "shipped", "processing", "pending", "cancelled", "default"}

  /** `statusConfig[status] || statusConfig.default`. */
  function Badge(status: string): (r: Style)
    ensures status !in Known ==> r == Fallback
  {
    Configured(status).GetOr(Fallback)
  }

  /** The five order statuses have colours of their own, all different from the
      fallback's and from each other. */
  lemma StatusesDistinct(a: string, b: string)
    requires a in Known - {"default"} && b in Known - {"default"}
    ensures Badge(a) != Fallback
    ensures a != b ==> Badge(a) != Badge(b)
  {
  }

  /** A status has the fallback style exactly when it is not one of the five. */
  lemma FallbackIffUnknown(status: string)
    ensures Badge(status) == Fallback <==> status !in Known - {"default"}
  {
    if status in Known - {"default"} {
      StatusesDistinct(status, status);
    }
  }

  /** ASCII `toUpperCase`. */
  function UpperChar(c: char): (d: char)
    ensures ('a' <= c <= 'z') ==> d as int == c as int - 32
    ensures !('a' <= c <= 'z') ==> d == c
  {
    if 'a' <= c <= 'z' then (c as int - 32) as char else c
  }

  /** The badge text: `status.charAt(0).toUpperCase() + status.slice(1)`. */
  function Label(status: string): (r: string)
    ensures |r| == |status|
    ensures |status| > 0 ==> r[0] == UpperChar(status[0]) && r[1..] == status[1..]
  {
    if status == "" then "" else [UpperChar(status[0])] + status[1..]
  }

  /** The label spells the status again, up to the case of its first letter. */
  lemma LabelLowersBack(status: string)
    requires forall i :: 0 <= i < |status| ==> 'a' <= status[i] <= 'z'
    ensures Text.Lower(Label(status)) == status
  {
    var r := Label(status);
    forall i | 0 <= i < |status| ensures Text.Lower(r)[i] == status[i] {
      if i > 0 {
        assert r[i] == status[1..][i - 1];
      }
    }
  }
}
