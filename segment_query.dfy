/** The segment-rule compiler: an ordered list of rules becomes a query made of field
    comparisons grouped under `$and` and `$or`, together with an evaluator for those
    queries over customer records. */
module SegmentQuery {
  import opened Common
  import opened CampaignSchema
  import Text
  import Seqs

  /** The comparison a rule places on its field. */
  datatype Comparison =
    | Eq(v: Value)            // { field: value }
    | Ne(v: Value)            // { field: { $ne: value } }
    | Gt(v: Value)            // { field: { $gt: value } }
    | Lt(v: Value)            // { field: { $lt: value } }
    | Regex(v: Value)         // { field: { $regex: value, $options: 'i' } }
    | NotRegex(v: Value)      // { field: { $not: { $regex: value, $options: 'i' } } }
    | Range(lo: Atom, hi: Atom) // { field: { $gte: lo, $lte: hi } }
    | In(items: seq<Atom>)    // { field: { $in: items } }
    | Nin(items: seq<Atom>)   // { field: { $nin: items } }

  /** One compiled rule: either the empty object `{}` or a comparison on one field. */
  datatype Condition = Vacuous | Test(field: string, cmp: Comparison)

  /** A compiled query: a single condition, or the two buckets. An empty `orConds`
      stands for a query without an `$or` key. */
  datatype Query = Leaf(cond: Condition) | Groups(andConds: seq<Condition>, orConds: seq<Condition>)

  /** `rule.logicalOperator || 'AND'`: an absent or empty connective reads as `AND`. */
  function Connective(r: Rule): (c: string)
    ensures c != ""
  {
    if r.logicalOperator.None? || r.logicalOperator.value == "" then "AND" else r.logicalOperator.value
  }

  /** The connective reads as `AND` exactly for an absent, empty or `AND` value; it is
      case-sensitive, so `and` does not. */
  lemma ConnectiveIsAnd(r: Rule)
    ensures Connective(r) == "AND" <==> r.logicalOperator in {None, Some(""), Some("AND")}
    ensures r.logicalOperator == Some("and") ==> Connective(r) != "AND"
  {
  }

  /** `Array.isArray(value) ? value : [value]`. */
  function AsList(v: Value): (r: seq<Atom>)
    ensures v.Array? ==> r == v.items
    ensures v.Scalar? ==> r == [v.atom]
  {
    match v
    case Array(items) => items
    case Scalar(a) => [a]
  }

  /** The operator table. A `between` whose value is not a two-element array, and any
      operator outside the table, give the vacuous condition. */
  function RuleCondition(rule: Rule): (c: Condition)
    ensures c.Test? ==> c.field == rule.field
  {
    var f, op, v := rule.field, rule.operator, rule.value;
    if op == "equals" then Test(f, Eq(v))
    else if op == "not_equals" then Test(f, Ne(v))
    else if op == "greater_than" then Test(f, Gt(v))
    else if op == "less_than" then Test(f, Lt(v))
    else if op == "contains" then Test(f, Regex(v))
    else if op == "not_contains" then Test(f, NotRegex(v))
    else if op == "between" then
      if v.Array? && |v.items| == 2 then Test(f, Range(v.items[0], v.items[1])) else Vacuous
    else if op == "in" then Test(f, In(AsList(v)))
    else if op == "not_in" then Test(f, Nin(AsList(v)))
    else Vacuous
  }

  /** A rule compiles to `{}` exactly when its operator is unknown or it is a `between`
      without a two-element array value. */
  lemma VacuityIff(rule: Rule)
    ensures RuleCondition(rule) == Vacuous <==>
      rule.operator !in Operators
      || (rule.operator == "between" && !(rule.value.Array? && |rule.value.items| == 2))
  {
  }

  /** `rules.map(...)`. */
  function Conditions(rs: seq<Rule>): (cs: seq<Condition>)
    ensures |cs| == |rs| && forall k :: 0 <= k < |rs| ==> cs[k] == RuleCondition(rs[k])
  {
    seq(|rs|, k requires 0 <= k < |rs| => RuleCondition(rs[k]))
  }

  /** Rule `i` is placed in the AND bucket: it is the first rule, or the rule before
      it has connective `AND`. */
  predicate GoesToAnd(rs: seq<Rule>, i: nat)
    requires i < |rs|
  {
    i == 0 || Connective(rs[i - 1]) == "AND"
  }

  predicate Increasing(idx: seq<nat>) {
    forall a, b :: 0 <= a < b < |idx| ==> idx[a] < idx[b]
  }

  /** The indices below `n` of the rules placed in the AND bucket, in order. */
  function AndIndices(rs: seq<Rule>, n: nat): (idx: seq<nat>)
    requires n <= |rs|
    ensures forall k :: 0 <= k < |idx| ==> idx[k] < n
  {
    if n == 0 then []
    else
      var prev := AndIndices(rs, n - 1);
      prev + (if GoesToAnd(rs, n - 1) then [n - 1] else [])
  }

  /** The indices below `n` of the rules placed in the OR bucket, in order. */
  function OrIndices(rs: seq<Rule>, n: nat): (idx: seq<nat>)
    requires n <= |rs|
    ensures forall k :: 0 <= k < |idx| ==> idx[k] < n
  {
    if n == 0 then []
    else
      var prev := OrIndices(rs, n - 1);
      prev + (if GoesToAnd(rs, n - 1) then [] else [n - 1])
  }

  /** Rule `i < n` is listed among the AND indices exactly when it goes to AND. */
  lemma {:induction false} AndMember(rs: seq<Rule>, n: nat, i: nat)
    requires i < n <= |rs|
    ensures i in AndIndices(rs, n) <==> GoesToAnd(rs, i)
  {
    var prev := AndIndices(rs, n - 1);
    assert AndIndices(rs, n) == prev + (if GoesToAnd(rs, n - 1) then [n - 1] else []);
    if i < n - 1 {
      AndMember(rs, n - 1, i);
      assert n - 1 !in prev;
    }
  }

  /** Rule `i < n` is listed among the OR indices exactly when it does not go to AND. */
  lemma {:induction false} OrMember(rs: seq<Rule>, n: nat, i: nat)
    requires i < n <= |rs|
    ensures i in OrIndices(rs, n) <==> !GoesToAnd(rs, i)
  {
    var prev := OrIndices(rs, n - 1);
    assert OrIndices(rs, n) == prev + (if GoesToAnd(rs, n - 1) then [] else [n - 1]);
    if i < n - 1 {
      OrMember(rs, n - 1, i);
      assert n - 1 !in prev;
    }
  }

  /** Both index lists are strictly increasing: each bucket keeps the rules' order. */
  lemma {:induction false} IndicesIncreasing(rs: seq<Rule>, n: nat)
    requires n <= |rs|
    ensures Increasing(AndIndices(rs, n)) && Increasing(OrIndices(rs, n))
  {
    if n > 0 {
      IndicesIncreasing(rs, n - 1);
    }
  }

  /** The elements of `cs` at the given indices. */
  function Pick<T>(cs: seq<T>, idx: seq<nat>): (r: seq<T>)
    requires forall k :: 0 <= k < |idx| ==> idx[k] < |cs|
    ensures |r| == |idx| && forall k :: 0 <= k < |idx| ==> r[k] == cs[idx[k]]
  {
    seq(|idx|, k requires 0 <= k < |idx| => cs[idx[k]])
  }

  /** The query the compiler produces: `{}` for absent or empty rules, the one
      condition itself for a single rule, otherwise the two buckets. */
  function Compile(rules: Option<seq<Rule>>): Query {
    if rules.None? || |rules.value| == 0 then Leaf(Vacuous)
    else
      var rs := rules.value;
      if |rs| == 1 then Leaf(RuleCondition(rs[0]))
      else Groups(Pick(Conditions(rs), AndIndices(rs, |rs|)), Pick(Conditions(rs), OrIndices(rs, |rs|)))
  }

  /** The compiler as written: map every rule to its condition, then one pass that
      pushes each condition into the AND or the OR bucket. */
  method BuildQueryFromRules(rules: Option<seq<Rule>>) returns (q: Query)
    ensures q == Compile(rules)
  {
    if rules.None? || |rules.value| == 0 {
      return Leaf(Vacuous);
    }
    var rs := rules.value;
    var conditions := Conditions(rs);
    var logicalOperators := seq(|rs|, k requires 0 <= k < |rs| => Connective(rs[k]));
    if |conditions| == 1 {
      return Leaf(conditions[0]);
    }
    var andConditions: seq<Condition> := [];
    var orConditions: seq<Condition> := [];
    var index := 0;
    while index < |conditions|
      invariant 0 <= index <= |conditions|
      invariant andConditions == Pick(conditions, AndIndices(rs, index))
      invariant orConditions == Pick(conditions, OrIndices(rs, index))
    {
      ghost var ai, oi := AndIndices(rs, index), OrIndices(rs, index);
      IndicesStep(rs, index);
      assert index > 0 ==> logicalOperators[index - 1] == Connective(rs[index - 1]);
      if index == 0 || logicalOperators[index - 1] == "AND" {
        PickSnoc(conditions, ai, index);
        andConditions := andConditions + [conditions[index]];
        assert andConditions == Pick(conditions, AndIndices(rs, index + 1));
        assert orConditions == Pick(conditions, OrIndices(rs, index + 1));
      } else {
        PickSnoc(conditions, oi, index);
        orConditions := orConditions + [conditions[index]];
        assert andConditions == Pick(conditions, AndIndices(rs, index + 1));
        assert orConditions == Pick(conditions, OrIndices(rs, index + 1));
      }
      index := index + 1;
    }
    q := Groups(andConditions, orConditions);
  }

  /** One step of the bucket pass: rule `i` joins exactly one of the two index lists. */
  lemma IndicesStep(rs: seq<Rule>, i: nat)
    requires i < |rs|
    ensures GoesToAnd(rs, i) <==> i == 0 || Connective(rs[i - 1]) == "AND"
    ensures GoesToAnd(rs, i) ==> AndIndices(rs, i + 1) == AndIndices(rs, i) + [i] && OrIndices(rs, i + 1) == OrIndices(rs, i)
    ensures !GoesToAnd(rs, i) ==> OrIndices(rs, i + 1) == OrIndices(rs, i) + [i] && AndIndices(rs, i + 1) == AndIndices(rs, i)
  {
  }

  lemma PickSnoc<T>(cs: seq<T>, idx: seq<nat>, j: nat)
    requires j < |cs| && forall k :: 0 <= k < |idx| ==> idx[k] < |cs|
    ensures Pick(cs, idx + [j]) == Pick(cs, idx) + [cs[j]]
  {
  }

  // ---------------------------------------------------------------------------
  // Shape of the compiled query

  lemma {:induction false} BucketSizes(rs: seq<Rule>, n: nat)
    requires n <= |rs|
    ensures |AndIndices(rs, n)| + |OrIndices(rs, n)| == n
  {
    if n > 0 { BucketSizes(rs, n - 1); }
  }

  /** Absent and empty rule lists compile to `{}`; one rule compiles to its own
      condition with no `$and`/`$or` wrapper. */
  lemma CompileSmall(rules: Option<seq<Rule>>)
    ensures rules.None? || rules == Some([]) ==> Compile(rules) == Leaf(Vacuous)
    ensures rules.Some? && |rules.value| == 1 ==> Compile(rules) == Leaf(RuleCondition(rules.value[0]))
  {
  }

  /** With two or more rules: `$and` is present and starts with rule 0; every rule lands
      in exactly one bucket; `$or` is present iff some rule goes to OR. */
  lemma CompileGroups(rs: seq<Rule>)
    requires |rs| >= 2
    ensures Compile(Some(rs)).Groups?
    ensures var q := Compile(Some(rs));
      |q.andConds| >= 1 && q.andConds[0] == RuleCondition(rs[0])
      && |q.andConds| + |q.orConds| == |rs|
      && (q.orConds != [] <==> exists i :: 1 <= i < |rs| && !GoesToAnd(rs, i))
  {
    BucketSizes(rs, |rs|);
    FirstAndIndex(rs, |rs|);
    OrEmpty(rs);
    assert GoesToAnd(rs, 0);
  }

  lemma {:induction false} FirstAndIndex(rs: seq<Rule>, n: nat)
    requires 1 <= n <= |rs|
    ensures |AndIndices(rs, n)| >= 1 && AndIndices(rs, n)[0] == 0
  {
    if n > 1 {
      FirstAndIndex(rs, n - 1);
    } else {
      assert GoesToAnd(rs, 0);
    }
  }

  /** Bucket placement of one rule: rule `i >= 1` goes to AND exactly when rule `i - 1`
      has connective `AND` (absent or empty counts as `AND`); any other value, `or` or
      junk alike, sends it to OR. Rule 0 always goes to AND. */
  lemma Placement(rs: seq<Rule>, i: nat)
    requires i < |rs|
    ensures i == 0 ==> i in AndIndices(rs, |rs|) && i !in OrIndices(rs, |rs|)
    ensures i >= 1 ==> (i in AndIndices(rs, |rs|) <==> rs[i - 1].logicalOperator in {None, Some(""), Some("AND")})
    ensures i >= 1 ==> (i in OrIndices(rs, |rs|) <==> rs[i - 1].logicalOperator !in {None, Some(""), Some("AND")})
  {
    AndMember(rs, |rs|, i);
    OrMember(rs, |rs|, i);
    if i >= 1 { ConnectiveIsAnd(rs[i - 1]); }
  }

  /** Each bucket lists conditions in rule order: its `k`-th entry is the condition of the
      rule with the `k`-th smallest index in that bucket. */
  lemma BucketsKeepOrder(rs: seq<Rule>, a: nat, b: nat)
    requires |rs| >= 2
    requires a < b < |Compile(Some(rs)).andConds|
    ensures AndIndices(rs, |rs|)[a] < AndIndices(rs, |rs|)[b]
    ensures Compile(Some(rs)).andConds[a] == RuleCondition(rs[AndIndices(rs, |rs|)[a]])
    ensures Compile(Some(rs)).andConds[b] == RuleCondition(rs[AndIndices(rs, |rs|)[b]])
  {
    IndicesIncreasing(rs, |rs|);
  }

  /** The last rule's connective has no effect on the compiled query. */
  lemma {:induction false} LastConnectiveIgnored(rs: seq<Rule>, op: Option<string>)
    requires |rs| >= 1
    ensures var last := rs[|rs| - 1];
      Compile(Some(rs[|rs| - 1 := last.(logicalOperator := op)])) == Compile(Some(rs))
  {
    var rs' := rs[|rs| - 1 := rs[|rs| - 1].(logicalOperator := op)];
    assert Conditions(rs') == Conditions(rs);
    if |rs| >= 2 {
      SameConnectivesSameIndices(rs, rs', |rs|);
    }
  }

  lemma {:induction false} SameConnectivesSameIndices(rs: seq<Rule>, rs': seq<Rule>, n: nat)
    requires |rs| == |rs'| && n <= |rs|
    requires forall i :: 0 <= i < n - 1 ==> Connective(rs[i]) == Connective(rs'[i])
    ensures AndIndices(rs, n) == AndIndices(rs', n)
    ensures OrIndices(rs, n) == OrIndices(rs', n)
  {
    if n > 0 {
      SameConnectivesSameIndices(rs, rs', n - 1);
      assert GoesToAnd(rs, n - 1) == GoesToAnd(rs', n - 1);
    }
  }

  // ---------------------------------------------------------------------------
  // Evaluation over records

  /** A customer record: field name to value. A missing field reads as null. */
  type Record = map<string, Value>

  function Lookup(rec: Record, f: string): Value {
    if f in rec then rec[f] else Scalar(Null)
  }

  /** Order on atoms of the same type: numbers numerically, strings by code point.
      Atoms of different types are never ordered. */
  predicate AtomLess(a: Atom, b: Atom) {
    (a.Num? && b.Num? && a.n < b.n) || (a.Str? && b.Str? && Text.StrCmp(a.s, b.s) < 0)
  }

  predicate AtomLeq(a: Atom, b: Atom) {
    a == b || AtomLess(a, b)
  }

  /** The atoms a comparison is tried against: the elements of an array field, or the
      field itself. */
  function Candidates(fv: Value): seq<Atom> {
    AsList(fv)
  }

  /** The pattern of a `contains` rule read as a literal, case-insensitive substring. */
  predicate PatternHits(pattern: Value, a: Atom) {
    pattern.Scalar? && pattern.atom.Str? && a.Str? && Text.Includes(Text.Lower(a.s), Text.Lower(pattern.atom.s))
  }

  predicate EqHolds(fv: Value, v: Value) {
    fv == v || (v.Scalar? && v.atom in Candidates(fv))
  }

  predicate InHolds(fv: Value, items: seq<Atom>) {
    exists a :: a in Candidates(fv) && a in items
  }

  predicate Holds(c: Comparison, fv: Value) {
    match c
    case Eq(v) => EqHolds(fv, v)
    case Ne(v) => !EqHolds(fv, v)
    case Gt(v) => v.Scalar? && exists a :: a in Candidates(fv) && AtomLess(v.atom, a)
    case Lt(v) => v.Scalar? && exists a :: a in Candidates(fv) && AtomLess(a, v.atom)
    case Regex(v) => exists a :: a in Candidates(fv) && PatternHits(v, a)
    case NotRegex(v) => !exists a :: a in Candidates(fv) && PatternHits(v, a)
    case Range(lo, hi) => exists a :: a in Candidates(fv) && AtomLeq(lo, a) && AtomLeq(a, hi)
    case In(items) => InHolds(fv, items)
    case Nin(items) => !InHolds(fv, items)
  }

  predicate CondHolds(c: Condition, rec: Record) {
    match c
    case Vacuous => true
    case Test(f, cmp) => Holds(cmp, Lookup(rec, f))
  }

  predicate RuleHolds(r: Rule, rec: Record) {
    CondHolds(RuleCondition(r), rec)
  }

  /** A query holds when its conditions hold, each condition judged by `h`. */
  predicate MatchesWith(q: Query, h: Condition -> bool) {
    match q
    case Leaf(c) => h(c)
    case Groups(ands, ors) =>
      (forall k :: 0 <= k < |ands| ==> h(ands[k]))
      && (ors == [] || exists k :: 0 <= k < |ors| && h(ors[k]))
  }

  predicate Matches(q: Query, rec: Record) {
    MatchesWith(q, c => CondHolds(c, rec))
  }

  /** Absent or empty rules select every record. */
  lemma EmptyRulesMatchAll(rules: Option<seq<Rule>>, rec: Record)
    requires rules.None? || rules == Some([])
    ensures Matches(Compile(rules), rec)
  {
  }

  /** A vacuous rule holds of every record. */
  lemma VacuousRuleHolds(r: Rule, rec: Record)
    requires r.operator !in Operators || (r.operator == "between" && !(r.value.Array? && |r.value.items| == 2))
    ensures RuleHolds(r, rec)
  {
    VacuityIff(r);
  }

  /** What a compiled query with two or more rules means, rule by rule: every rule of
      the AND bucket holds, and, unless every rule went to AND, some rule of the OR
      bucket holds. */
  lemma CompileMeaning(rs: seq<Rule>, rec: Record)
    requires |rs| >= 2
    ensures Matches(Compile(Some(rs)), rec) <==>
      (forall i :: 0 <= i < |rs| && GoesToAnd(rs, i) ==> RuleHolds(rs[i], rec))
      && ((forall i :: 0 <= i < |rs| ==> GoesToAnd(rs, i))
          || exists i :: 0 <= i < |rs| && !GoesToAnd(rs, i) && RuleHolds(rs[i], rec))
  {
    var cs := Conditions(rs);
    var h := c => CondHolds(c, rec);
    CompileMeaningWith(rs, h);
    forall i | 0 <= i < |rs| ensures h(cs[i]) == RuleHolds(rs[i], rec) { }
  }

  /** `CompileMeaning` for any judgement `h` of single conditions. */
  lemma CompileMeaningWith(rs: seq<Rule>, h: Condition -> bool)
    requires |rs| >= 2
    ensures MatchesWith(Compile(Some(rs)), h) <==>
      (forall i :: 0 <= i < |rs| && GoesToAnd(rs, i) ==> h(Conditions(rs)[i]))
      && ((forall i :: 0 <= i < |rs| ==> GoesToAnd(rs, i))
          || exists i :: 0 <= i < |rs| && !GoesToAnd(rs, i) && h(Conditions(rs)[i]))
  {
    var cs := Conditions(rs);
    var ands, ors := Pick(cs, AndIndices(rs, |rs|)), Pick(cs, OrIndices(rs, |rs|));
    AndHalf(rs, h);
    OrHalf(rs, h);
    OrEmpty(rs);
    assert Compile(Some(rs)) == Groups(ands, ors);
  }

  lemma AndHalf(rs: seq<Rule>, h: Condition -> bool)
    ensures var ands := Pick(Conditions(rs), AndIndices(rs, |rs|));
      (forall k :: 0 <= k < |ands| ==> h(ands[k]))
      <==> (forall i :: 0 <= i < |rs| && GoesToAnd(rs, i) ==> h(Conditions(rs)[i]))
  {
    var cs, ai := Conditions(rs), AndIndices(rs, |rs|);
    var ands := Pick(cs, ai);
    if forall k :: 0 <= k < |ands| ==> h(ands[k]) {
      forall i | 0 <= i < |rs| && GoesToAnd(rs, i) ensures h(cs[i]) {
        AndMember(rs, |rs|, i);
        var k :| 0 <= k < |ai| && ai[k] == i;
        assert ands[k] == cs[i];
      }
    }
    if forall i :: 0 <= i < |rs| && GoesToAnd(rs, i) ==> h(cs[i]) {
      forall k | 0 <= k < |ands| ensures h(ands[k]) {
        var i := ai[k];
        assert i in ai;
        AndMember(rs, |rs|, i);
        assert h(cs[i]);
        assert ands[k] == cs[i];
      }
    }
  }

  lemma OrHalf(rs: seq<Rule>, h: Condition -> bool)
    ensures var ors := Pick(Conditions(rs), OrIndices(rs, |rs|));
      (exists k :: 0 <= k < |ors| && h(ors[k]))
      <==> (exists i :: 0 <= i < |rs| && !GoesToAnd(rs, i) && h(Conditions(rs)[i]))
  {
    var cs, oi := Conditions(rs), OrIndices(rs, |rs|);
    var ors := Pick(cs, oi);
    if exists k :: 0 <= k < |ors| && h(ors[k]) {
      var k :| 0 <= k < |ors| && h(ors[k]);
      OrMember(rs, |rs|, oi[k]);
      assert ors[k] == cs[oi[k]];
    }
    if exists i :: 0 <= i < |rs| && !GoesToAnd(rs, i) && h(cs[i]) {
      var i :| 0 <= i < |rs| && !GoesToAnd(rs, i) && h(cs[i]);
      OrMember(rs, |rs|, i);
      var k :| 0 <= k < |oi| && oi[k] == i;
      assert ors[k] == cs[i];
    }
  }

  lemma OrEmpty(rs: seq<Rule>)
    ensures OrIndices(rs, |rs|) == [] <==> forall i :: 0 <= i < |rs| ==> GoesToAnd(rs, i)
  {
    var oi := OrIndices(rs, |rs|);
    if oi != [] {
      OrMember(rs, |rs|, oi[0]);
    }
    if !forall i :: 0 <= i < |rs| ==> GoesToAnd(rs, i) {
      var i :| 0 <= i < |rs| && !GoesToAnd(rs, i);
      OrMember(rs, |rs|, i);
    }
  }

  /** When every connective that matters is `AND`, the query is the conjunction of all
      the rules. */
  lemma AllAndIsConjunction(rs: seq<Rule>, rec: Record)
    requires |rs| >= 1
    requires forall i :: 0 <= i < |rs| - 1 ==> Connective(rs[i]) == "AND"
    ensures Matches(Compile(Some(rs)), rec) <==> forall i :: 0 <= i < |rs| ==> RuleHolds(rs[i], rec)
  {
    if |rs| >= 2 {
      assert forall i :: 0 <= i < |rs| ==> GoesToAnd(rs, i) by {
        forall i | 0 <= i < |rs| ensures GoesToAnd(rs, i) {
          if i > 0 { assert Connective(rs[i - 1]) == "AND"; }
        }
      }
      CompileMeaning(rs, rec);
    }
  }

  /** The first rule is always required: an `OR` connective never makes it optional. */
  lemma FirstRuleRequired(rs: seq<Rule>, rec: Record)
    requires |rs| >= 1
    requires Matches(Compile(Some(rs)), rec)
    ensures RuleHolds(rs[0], rec)
  {
    if |rs| >= 2 { CompileMeaning(rs, rec); }
  }

  /** Two rules joined by `OR` compile to a query that requires both of them. */
  lemma TwoRulesJoinedByOr(rs: seq<Rule>, rec: Record)
    requires |rs| == 2 && Connective(rs[0]) != "AND"
    ensures Matches(Compile(Some(rs)), rec) <==> RuleHolds(rs[0], rec) && RuleHolds(rs[1], rec)
  {
    CompileMeaning(rs, rec);
    assert !GoesToAnd(rs, 1);
  }

  /** What reading the connectives left to right would give:
      `(((r0 c0 r1) c1 r2) ...)`. */
  predicate LeftFold(rs: seq<Rule>, rec: Record)
    requires |rs| >= 1
    decreases |rs|
  {
    if |rs| == 1 then RuleHolds(rs[0], rec)
    else
      var init := rs[..|rs| - 1];
      if Connective(rs[|rs| - 2]) == "AND" then LeftFold(init, rec) && RuleHolds(rs[|rs| - 1], rec)
      else LeftFold(init, rec) || RuleHolds(rs[|rs| - 1], rec)
  }

  /** The compiler does not fold left to right: for `a = 1 OR b = 1` with a record where
      only `b` is 1, the left fold accepts and the compiled query rejects. */
  lemma NotALeftFold()
    ensures var rs := [Rule("a", "equals", Scalar(Num(1)), Some("OR")), Rule("b", "equals", Scalar(Num(1)), None)];
      var rec := map["a" := Scalar(Num(0)), "b" := Scalar(Num(1))];
      LeftFold(rs, rec) && !Matches(Compile(Some(rs)), rec)
  {
    var rs := [Rule("a", "equals", Scalar(Num(1)), Some("OR")), Rule("b", "equals", Scalar(Num(1)), None)];
    var rec := map["a" := Scalar(Num(0)), "b" := Scalar(Num(1))];
    assert Candidates(Scalar(Num(0))) == [Num(0)];
    assert !RuleHolds(rs[0], rec);
    assert RuleHolds(rs[1], rec);
    assert rs[..1] == [rs[0]];
    TwoRulesJoinedByOr(rs, rec);
  }

  /** For `in` and `not_in` a scalar value is wrapped in a one-element list and an array
      is passed through; `not_in` holds exactly where `in` does not. */
  lemma MembershipRules(f: string, v: Value, rec: Record)
    ensures RuleCondition(Rule(f, "in", v, None)) == Test(f, In(if v.Array? then v.items else [v.atom]))
    ensures RuleCondition(Rule(f, "not_in", v, None)) == Test(f, Nin(if v.Array? then v.items else [v.atom]))
    ensures RuleHolds(Rule(f, "not_in", v, None), rec) == !RuleHolds(Rule(f, "in", v, None), rec)
  {
  }

  /** `not_equals` and `not_contains` hold exactly where `equals` and `contains` fail. */
  lemma NegatedRules(f: string, v: Value, rec: Record)
    ensures RuleHolds(Rule(f, "not_equals", v, None), rec) == !RuleHolds(Rule(f, "equals", v, None), rec)
    ensures RuleHolds(Rule(f, "not_contains", v, None), rec) == !RuleHolds(Rule(f, "contains", v, None), rec)
  {
    assert RuleCondition(Rule(f, "not_equals", v, None)) == Test(f, Ne(v));
    assert RuleCondition(Rule(f, "equals", v, None)) == Test(f, Eq(v));
    assert RuleCondition(Rule(f, "not_contains", v, None)) == Test(f, NotRegex(v));
    assert RuleCondition(Rule(f, "contains", v, None)) == Test(f, Regex(v));
  }

  /** `between` with a two-element array is the inclusive range between its elements. */
  lemma BetweenRule(f: string, lo: Atom, hi: Atom, rec: Record)
    ensures RuleCondition(Rule(f, "between", Array([lo, hi]), None)) == Test(f, Range(lo, hi))
    ensures RuleHolds(Rule(f, "between", Array([lo, hi]), None), rec) <==>
      exists a :: a in Candidates(Lookup(rec, f)) && AtomLeq(lo, a) && AtomLeq(a, hi)
  {
  }

  // ---------------------------------------------------------------------------
  // Audience size

  /** The number of customers a rule list selects. `customers` is `None` when the
      count failed; the failure is swallowed and reported as 0. */
  function AudienceSize(rules: Option<seq<Rule>>, customers: Option<seq<Record>>): (n: nat)
    ensures customers.None? ==> n == 0
    ensures customers.Some? ==> n <= |customers.value|
  {
    match customers
    case None => 0
    case Some(cs) => |Seqs.Filter(cs, rec => Matches(Compile(rules), rec))|
  }

  /** With no rules every customer is counted. */
  lemma AudienceOfNoRules(cs: seq<Record>)
    ensures AudienceSize(None, Some(cs)) == |cs|
  {
    forall rec | rec in cs ensures Matches(Compile(None), rec) { }
    Seqs.FilterAll(cs, rec => Matches(Compile(None), rec));
  }
}
