/** The message editor's preview: each `{{key}}` placeholder of the preview data is
    replaced, key by key in the data's own order, by the key's sample value. */
module MessageTemplate {
  import Text

  /** `s.replace(/pat/g, val)` for a pattern without special characters: the leftmost
      occurrences, scanning on after each replaced one, are replaced by `val`, and the
      inserted text is not scanned again. */
  function ReplaceAll(s: string, pat: string, val: string): string
    requires pat != []
    decreases |s|
  {
    if |s| < |pat| then s
    else if s[..|pat|] == pat then val + ReplaceAll(s[|pat|..], pat, val)
    else [s[0]] + ReplaceAll(s[1..], pat, val)
  }

  /** No non-empty proper prefix of `pat` is also a suffix of it, so two occurrences can
      never overlap. */
  predicate Unbordered(pat: string) {
    forall l :: 0 < l < |pat| ==> pat[..l] != pat[|pat| - l..]
  }

  /** Text without an occurrence of the pattern is left as it is. */
  lemma {:induction false} ReplaceAbsent(s: string, pat: string, val: string)
    requires pat != [] && !Text.Includes(s, pat)
    ensures ReplaceAll(s, pat, val) == s
    decreases |s|
  {
    if |s| >= |pat| {
      assert s[..|pat|] != pat by {
        if s[..|pat|] == pat {
          assert Text.OccursAt(s, pat, 0);
        }
      }
      assert !Text.Includes(s[1..], pat) by {
        forall i | 0 <= i <= |s[1..]| - |pat| ensures !Text.OccursAt(s[1..], pat, i) {
          assert s[1..][i..i + |pat|] == s[i + 1..i + 1 + |pat|];
          assert !Text.OccursAt(s, pat, i + 1);
        }
      }
      ReplaceAbsent(s[1..], pat, val);
    }
  }

  /** Every occurrence is replaced, not just the first: an occurrence between two texts
      becomes `val`, and each side is replaced on its own. */
  lemma {:induction false} ReplaceAround(a: string, pat: string, b: string, val: string)
    requires pat != [] && Unbordered(pat)
    ensures ReplaceAll(a + pat + b, pat, val) == ReplaceAll(a, pat, val) + val + ReplaceAll(b, pat, val)
    decreases |a|
  {
    if a == [] {
      var s := a + pat + b;
      assert s == pat + b && s[..|pat|] == pat && s[|pat|..] == b;
    } else if |a| >= |pat| && a[..|pat|] == pat {
      ReplaceAround(a[|pat|..], pat, b, val);
      AroundHit(a, pat, b, val);
    } else {
      if |a| < |pat| {
        NoStraddle(a, pat, b);
      }
      ReplaceAround(a[1..], pat, b, val);
      AroundMiss(a, pat, b, val);
    }
  }

  /** The step of `ReplaceAround` when the text starts with an occurrence. */
  lemma AroundHit(a: string, pat: string, b: string, val: string)
    requires pat != [] && |a| >= |pat| && a[..|pat|] == pat
    requires ReplaceAll(a[|pat|..] + pat + b, pat, val)
      == ReplaceAll(a[|pat|..], pat, val) + val + ReplaceAll(b, pat, val)
    ensures ReplaceAll(a + pat + b, pat, val) == ReplaceAll(a, pat, val) + val + ReplaceAll(b, pat, val)
  {
    HitStep(a, pat, b, val);
    var x, y := ReplaceAll(a[|pat|..], pat, val), ReplaceAll(b, pat, val);
    assert val + (x + val + y) == (val + x) + val + y;
  }

  /** An occurrence at the start of the text is also at the start of the text before it. */
  lemma HitStep(a: string, pat: string, b: string, val: string)
    requires pat != [] && |a| >= |pat| && a[..|pat|] == pat
    ensures ReplaceAll(a, pat, val) == val + ReplaceAll(a[|pat|..], pat, val)
    ensures ReplaceAll(a + pat + b, pat, val) == val + ReplaceAll(a[|pat|..] + pat + b, pat, val)
  {
    var s := a + pat + b;
    assert s[..|pat|] == pat && s[|pat|..] == a[|pat|..] + pat + b;
  }

  /** The step of `ReplaceAround` when the text does not start with an occurrence. */
  lemma AroundMiss(a: string, pat: string, b: string, val: string)
    requires pat != [] && a != []
    requires (a + pat + b)[..|pat|] != pat
    requires ReplaceAll(a[1..] + pat + b, pat, val)
      == ReplaceAll(a[1..], pat, val) + val + ReplaceAll(b, pat, val)
    ensures ReplaceAll(a + pat + b, pat, val) == ReplaceAll(a, pat, val) + val + ReplaceAll(b, pat, val)
  {
    MissStep(a, pat, b, val);
    ReplaceCons(a, pat, val);
    var x, y := ReplaceAll(a[1..], pat, val), ReplaceAll(b, pat, val);
    assert [a[0]] + (x + val + y) == ([a[0]] + x) + val + y;
  }

  /** The first character of a text that misses is also that of the text before it. */
  lemma MissStep(a: string, pat: string, b: string, val: string)
    requires pat != [] && a != []
    requires (a + pat + b)[..|pat|] != pat
    ensures |a| < |pat| || a[..|pat|] != pat
    ensures ReplaceAll(a + pat + b, pat, val) == [a[0]] + ReplaceAll(a[1..] + pat + b, pat, val)
  {
    var s := a + pat + b;
    assert s[1..] == a[1..] + pat + b && s[0] == a[0];
    if |a| >= |pat| {
      assert s[..|pat|] == a[..|pat|];
    }
    ReplaceCons(s, pat, val);
  }

  /** Text that does not start with an occurrence keeps its first character. */
  lemma ReplaceCons(t: string, pat: string, val: string)
    requires pat != [] && t != [] && (|t| < |pat| || t[..|pat|] != pat)
    ensures ReplaceAll(t, pat, val) == [t[0]] + ReplaceAll(t[1..], pat, val)
  {
    if |t| < |pat| {
      assert ReplaceAll(t[1..], pat, val) == t[1..];
      assert t == [t[0]] + t[1..];
    }
  }

  /** A pattern without a border cannot start inside a shorter text and run into a copy
      of itself that follows. */
  lemma NoStraddle(a: string, pat: string, b: string)
    requires Unbordered(pat) && 0 < |a| < |pat|
    ensures (a + pat + b)[..|pat|] != pat
  {
    var s := a + pat + b;
    if s[..|pat|] == pat {
      var l := |pat| - |a|;
      forall k | 0 <= k < l ensures pat[k] == pat[|pat| - l + k] {
        assert s[|a| + k] == pat[k];
        assert s[|pat| - l + k] == pat[|pat| - l + k];
      }
      BorderAt(pat, l);
    }
  }

  /** A prefix of length `l` that agrees with the suffix of that length is a border. */
  lemma BorderAt(pat: string, l: int)
    requires 0 < l < |pat|
    requires forall k :: 0 <= k < l ==> pat[k] == pat[|pat| - l + k]
    ensures !Unbordered(pat)
  {
    assert pat[..l] == pat[|pat| - l..];
  }

  /** The placeholder for a preview key. */
  function Placeholder(key: string): (p: string)
    ensures |p| == |key| + 4
  {
    "{{" + key + "}}"
  }

  predicate NoBraces(key: string) {
    forall i :: 0 <= i < |key| ==> key[i] != '{' && key[i] != '}'
  }

  /** A placeholder of a key without braces has no border. */
  lemma PlaceholderUnbordered(key: string)
    requires NoBraces(key)
    ensures Unbordered(Placeholder(key))
  {
    var p := Placeholder(key);
    forall l | 0 < l < |p| ensures p[..l] != p[|p| - l..] {
      var j := |p| - l;
      if p[..l] == p[j..] {
        assert p[j] == p[0] == '{';
        assert forall i :: 2 <= i < |p| ==> p[i] != '{' by {
          forall i | 2 <= i < |p| ensures p[i] != '{' {
            if i < |key| + 2 {
              assert p[i] == key[i - 2];
            }
          }
        }
        assert false;
      }
    }
  }

  /** A placeholder alone becomes its value. */
  lemma ReplacePlaceholder(key: string, val: string)
    requires NoBraces(key)
    ensures ReplaceAll(Placeholder(key), Placeholder(key), val) == val
  {
    PlaceholderUnbordered(key);
    var p := Placeholder(key);
    ReplaceAround([], p, [], val);
    assert [] + p + [] == p;
    assert ReplaceAll([], p, val) == [];
  }

  // ---------------------------------------------------------------------------
  // Preview data and the preview

  /** One preview field; the data keeps its keys in insertion order. */
  datatype Entry = Entry(key: string, value: string)

  const InitialPreviewData: seq<Entry> :=
    [Entry("firstName", "John"), Entry("lastName", "Doe"), Entry("email", "john.doe@example.com")]

  predicate DistinctKeys(data: seq<Entry>) {
    forall i, j :: 0 <= i < j < |data| ==> data[i].key != data[j].key
  }

  /** The preview after the replacements for the first entries, in order. */
  function Substitute(message: string, data: seq<Entry>): string
  {
    if data == [] then message
    else
      var last := data[|data| - 1];
      ReplaceAll(Substitute(message, data[..|data| - 1]), Placeholder(last.key), last.value)
  }

  /** `getPreviewMessage`: a loop over the keys that reassigns the preview each time. */
  method GetPreviewMessage(message: string, data: seq<Entry>) returns (preview: string)
    ensures preview == Substitute(message, data)
  {
    preview := message;
    for k := 0 to |data|
      invariant preview == Substitute(message, data[..k])
    {
      assert data[..k + 1][..k] == data[..k];
      preview := ReplaceAll(preview, Placeholder(data[k].key), data[k].value);
    }
    assert data[..|data|] == data;
  }

  /** A message with none of the placeholders comes back unchanged. */
  lemma {:induction false} NoPlaceholderUnchanged(message: string, data: seq<Entry>)
    requires forall i :: 0 <= i < |data| ==> !Text.Includes(message, Placeholder(data[i].key))
    ensures Substitute(message, data) == message
  {
    if data != [] {
      var init := data[..|data| - 1];
      assert forall i :: 0 <= i < |init| ==> init[i] == data[i];
      NoPlaceholderUnchanged(message, init);
      ReplaceAbsent(message, Placeholder(data[|data| - 1].key), data[|data| - 1].value);
    }
  }

  /** The keys are replaced in order, so a placeholder that an earlier value brings in is
      rewritten by a later step: `{{firstName}}` with first name `{{lastName}}` previews
      as the last name. */
  lemma LaterStepRewritesEarlierValue(k1: string, k2: string, v2: string)
    requires NoBraces(k1) && NoBraces(k2)
    ensures Substitute(Placeholder(k1), [Entry(k1, Placeholder(k2)), Entry(k2, v2)]) == v2
  {
    var data := [Entry(k1, Placeholder(k2)), Entry(k2, v2)];
    var first := data[..1];
    assert first[..0] == [] && first[0] == Entry(k1, Placeholder(k2));
    ReplacePlaceholder(k1, Placeholder(k2));
    assert Substitute(Placeholder(k1), first) == Placeholder(k2);
    ReplacePlaceholder(k2, v2);
    assert data[1] == Entry(k2, v2);
  }

  /** The position of the field named `name`, or -1. */
  function KeyIndex(data: seq<Entry>, name: string): (i: int)
    ensures -1 <= i < |data|
    ensures i == -1 <==> forall k :: 0 <= k < |data| ==> data[k].key != name
    ensures 0 <= i ==> data[i].key == name
  {
    if data == [] then -1
    else if data[|data| - 1].key == name then |data| - 1
    else KeyIndex(data[..|data| - 1], name)
  }

  /** `handlePreviewDataChange`: `{...prev, [name]: value}` sets the named field in
      place when it exists and adds it at the end otherwise. */
  function SetField(data: seq<Entry>, name: string, value: string): (r: seq<Entry>)
    ensures KeyIndex(data, name) == -1 ==> r == data + [Entry(name, value)]
    ensures KeyIndex(data, name) != -1 ==> |r| == |data|
    ensures forall k :: 0 <= k < |data| && data[k].key != name ==> r[k] == data[k]
    ensures forall k :: 0 <= k < |data| ==> r[k].key == data[k].key
    ensures Entry(name, value) in r
  {
    var i := KeyIndex(data, name);
    if i == -1 then data + [Entry(name, value)] else data[i := Entry(name, value)]
  }

  /** Changing a field keeps the keys distinct, and a key that was there keeps its
      place, so the preview substitutes in the same key order afterwards. */
  lemma SetFieldKeepsKeys(data: seq<Entry>, name: string, value: string)
    requires DistinctKeys(data)
    ensures DistinctKeys(SetField(data, name, value))
    ensures var r := SetField(data, name, value); forall k :: 0 <= k < |r| && r[k].key == name ==> r[k].value == value
  {
  }

  /** The preview data keeps its three keys in their order through edits of them. */
  lemma EditingKeepsKeyOrder(name: string, value: string)
    requires name in ["firstName", "lastName", "email"]
    ensures |SetField(InitialPreviewData, name, value)| == 3
    ensures forall k :: 0 <= k < 3 ==> SetField(InitialPreviewData, name, value)[k].key == InitialPreviewData[k].key
  {
    assert KeyIndex(InitialPreviewData, name) != -1 by {
      var d := InitialPreviewData;
      assert d[0].key == "firstName" && d[1].key == "lastName" && d[2].key == "email";
    }
  }
}
