/** The segment-rule editor: the operators offered per field, and the edits of the rule
    list (add, remove, update a rule, set a connective). Each edit copies the list and
    changes the copy. */
module RuleBuilder {
  import opened Common
  import opened CampaignSchema
  import SegmentQuery

  const NumericOperators: seq<string> := ["equals", "not_equals", "greater_than", "less_than", "between"]
  const DateOperators: seq<string> := ["equals", "not_equals", "greater_than", "less_than", "between"]
  const ArrayOperators: seq<string> := ["contains", "not_contains", "in", "not_in"]
  const StringOperators: seq<string> := ["equals", "not_equals", "contains", "not_contains"]

  /** The first entry of the field menu, used for a new rule. */
  const FirstField := "firstName"

  /** `getOperatorOptions`: the operator menu for a field. Every operator offered is one
      the campaign schema accepts, and the menu is never empty. */
  function OperatorOptions(fieldName: string): (ops: seq<string>)
    ensures |ops| >= 1
    ensures forall k :: 0 <= k < |ops| ==> ops[k] in Operators
    ensures ops[0] == (if fieldName == "tags" || fieldName == "segment" then "contains" else "equals")
  {
    if fieldName == "totalSpend" || fieldName == "orderCount" then NumericOperators
    else if fieldName == "lastOrderDate" || fieldName == "createdAt" then DateOperators
    else if fieldName == "tags" || fieldName == "segment" then ArrayOperators
    else StringOperators
  }

  /** Which fields get which menu: `between` only for numeric and date fields, `in` and
      `not_in` only for the array fields. */
  lemma OperatorTable(fieldName: string)
    ensures "between" in OperatorOptions(fieldName) <==>
              fieldName in {"totalSpend", "orderCount", "lastOrderDate", "createdAt"}
    ensures "in" in OperatorOptions(fieldName) <==> fieldName in {"tags", "segment"}
    ensures "not_in" in OperatorOptions(fieldName) <==> fieldName in {"tags", "segment"}
    ensures "equals" in OperatorOptions(fieldName) <==> fieldName !in {"tags", "segment"}
    ensures "contains" in OperatorOptions(fieldName) <==>
              fieldName !in {"totalSpend", "orderCount", "lastOrderDate", "createdAt"}
  {
  }

  const EmptyValue := Scalar(Str(""))

  /** Appends one rule at the end: the first field, its first operator, an empty value,
      and connective `AND` unless it is the first rule. */
  method AddRule(rules: seq<Rule>) returns (newRules: seq<Rule>)
    ensures |newRules| == |rules| + 1 && newRules[..|rules|] == rules
    ensures newRules[|rules|] == Rule("firstName", "equals", EmptyValue, if |rules| > 0 then Some("AND") else None)
  {
    newRules := rules + [Rule(FirstField, OperatorOptions(FirstField)[0], EmptyValue,
                              if |rules| > 0 then Some("AND") else None)];
  }

  /** `splice(index, 1)` on a copy: exactly rule `index` goes, the others keep their order. */
  method RemoveRule(rules: seq<Rule>, index: nat) returns (newRules: seq<Rule>)
    requires index < |rules|
    ensures |newRules| == |rules| - 1
    ensures forall k :: 0 <= k < index ==> newRules[k] == rules[k]
    ensures forall k :: index <= k < |newRules| ==> newRules[k] == rules[k + 1]
  {
    newRules := rules;
    newRules := newRules[..index] + newRules[index + 1..];
  }

  /** The key `updateRule` sets, with its new value. */
  datatype RuleEdit = SetField(f: string) | SetOperator(op: string) | SetValue(v: Value)

  /** Sets one key of rule `index`. A new field also resets the operator to the field's
      first one and empties the value. */
  method UpdateRule(rules: seq<Rule>, index: nat, edit: RuleEdit) returns (newRules: seq<Rule>)
    requires index < |rules|
    ensures |newRules| == |rules|
    ensures forall k :: 0 <= k < |rules| && k != index ==> newRules[k] == rules[k]
    ensures newRules[index].logicalOperator == rules[index].logicalOperator
    ensures edit.SetField? ==> newRules[index] == Rule(edit.f, OperatorOptions(edit.f)[0], EmptyValue, rules[index].logicalOperator)
    ensures edit.SetOperator? ==> newRules[index] == rules[index].(operator := edit.op)
    ensures edit.SetValue? ==> newRules[index] == rules[index].(value := edit.v)
  {
    newRules := rules;
    var r := newRules[index];
    match edit {
      case SetField(f) => r := r.(field := f);
      case SetOperator(op) => r := r.(operator := op);
      case SetValue(v) => r := r.(value := v);
    }
    newRules := newRules[index := r];
    if edit.SetField? {
      newRules := newRules[index := newRules[index].(operator := OperatorOptions(edit.f)[0])];
      newRules := newRules[index := newRules[index].(value := EmptyValue)];
    }
  }

  /** Rule `index` with connective `v`. */
  function WithConnective(rules: seq<Rule>, index: nat, v: Option<string>): seq<Rule>
    requires index < |rules|
  {
    rules[index := rules[index].(logicalOperator := v)]
  }

  /** Only the connective of rule `index` changes. */
  method UpdateLogicalOperator(rules: seq<Rule>, index: nat, v: Option<string>) returns (newRules: seq<Rule>)
    requires index < |rules|
    ensures newRules == WithConnective(rules, index, v)
    ensures |newRules| == |rules| && forall k :: 0 <= k < |rules| && k != index ==> newRules[k] == rules[k]
    ensures newRules[index] == rules[index].(logicalOperator := v)
  {
    newRules := rules;
    newRules := newRules[index := newRules[index].(logicalOperator := v)];
  }

  /** The connective selector: shown from the second rule on, reading `AND` when unset. */
  function DisplayedConnective(rules: seq<Rule>, index: nat): (d: Option<string>)
    requires index < |rules|
    ensures d.Some? <==> index > 0
    ensures index > 0 && rules[index].logicalOperator in {None, Some("")} ==> d == Some("AND")
    ensures index > 0 && rules[index].logicalOperator.Some? && rules[index].logicalOperator.value != "" ==>
      d == rules[index].logicalOperator
  {
    if index > 0 then Some(SegmentQuery.Connective(rules[index])) else None
  }

  /** The selector on rule `i` reads "join i to i-1", but the compiler places rule `i` by
      the connective of rule `i-1`: changing the selector of rule `i` leaves rule `i`'s
      bucket as it was and decides the bucket of rule `i+1` instead. */
  lemma SelectorShift(rules: seq<Rule>, i: nat, v: Option<string>)
    requires 1 <= i < |rules|
    ensures SegmentQuery.GoesToAnd(WithConnective(rules, i, v), i) == SegmentQuery.GoesToAnd(rules, i)
    ensures i + 1 < |rules| ==>
              (SegmentQuery.GoesToAnd(WithConnective(rules, i, v), i + 1) <==> v in {None, Some(""), Some("AND")})
  {
    var r := WithConnective(rules, i, v);
    SegmentQuery.ConnectiveIsAnd(r[i]);
  }

  /** The first rule has no selector, yet its connective places the second rule; a list
      built with `addRule` leaves it unset, so the second rule always joins with AND. */
  lemma HiddenFirstConnective(rules: seq<Rule>)
    requires |rules| >= 2 && rules[0].logicalOperator.None?
    ensures DisplayedConnective(rules, 0).None?
    ensures SegmentQuery.GoesToAnd(rules, 1)
  {
  }
}
