/**
  Approval rules (internal/domain/approval/rule.go): a condition tree evaluated over a contract's
  facts, the limits a saved tree must respect, and the choice of the rule with the highest priority.
 */
module RuleEngine {
  import opened Wrappers
  import opened Text

  const MAX_GROUPS := 50
  const MAX_CONDITIONS := 50
  const MAX_DEPTH := 8
  const MIN_INT64: int := -0x8000_0000_0000_0000
  const MAX_INT64: int := 0x7fff_ffff_ffff_ffff

  /** The literal of a condition: whatever a JSON document or a Go caller may put there. */
  datatype Literal =
    | Whole(n: int) | Float(r: real) | Truth(b: bool) | Str(s: string)
    | Strings(strings: seq<string>) | List(items: seq<Literal>) | Other

  datatype Condition = Condition(field: string, operator: string, value: Literal)
  datatype Expression = Expression(logical: string, conditions: seq<Condition>, groups: seq<Expression>)
  datatype Facts = Facts(amountMinor: int, serviceType: string, customerCredit: string, contractType: string, termsIdentical: bool)
  datatype Rule = Rule(id: string, priority: int, enabled: bool, expression: Expression)

  // ----- Conditions -----

  /** A whole number, written as an integer or as a float without a fraction. */
  function Int64Of(value: Literal): Option<int> {
    match value
    case Whole(n) => Some(n)
    case Float(r) => if r.Floor as real == r && MIN_INT64 <= r.Floor <= MAX_INT64 then Some(r.Floor) else None
    case _ => None
  }

  /** The value is the whole number n. */
  predicate Denotes(value: Literal, n: int) {
    value == Whole(n) || (value.Float? && value.r == n as real && MIN_INT64 <= n <= MAX_INT64)
  }

  predicate TextField(field: string) {
    field in ["service_type", "customer_credit_level", "contract_type"]
  }

  /** The strings of an "in" list. */
  function StringsOf(value: Literal): Option<seq<string>> {
    match value
    case Strings(strings) => Some(strings)
    case List(items) =>
      if forall i :: 0 <= i < |items| ==> items[i].Str? then
        Some(seq(|items|, i requires 0 <= i < |items| && items[i].Str? => items[i].s))
      else None
    case _ => None
  }

  /** Whether a condition can be evaluated at all. The facts play no part in it. */
  predicate GoodCondition(c: Condition) {
    if c.field == "amount_minor" then
      Int64Of(c.value).Some? && c.operator in ["eq", "ne", "gt", "gte", "lt", "lte"]
    else if c.field == "terms_identical" then c.value.Truth? && c.operator in ["eq", "ne"]
    else TextField(c.field) && if c.operator == "in" then StringsOf(c.value).Some? else c.operator in ["eq", "ne"] && c.value.Str?
  }

  function FactText(field: string, f: Facts): string {
    if field == "service_type" then f.serviceType else if field == "customer_credit_level" then f.customerCredit else f.contractType
  }

  /** What a good condition says about the facts. */
  predicate ConditionHolds(c: Condition, f: Facts)
    requires GoodCondition(c)
  {
    if c.field == "amount_minor" then
      var n := Int64Of(c.value).value;
      match c.operator
      case "eq" => f.amountMinor == n
      case "ne" => f.amountMinor != n
      case "gt" => f.amountMinor > n
      case "gte" => f.amountMinor >= n
      case "lt" => f.amountMinor < n
      case _ => f.amountMinor <= n
    else if c.field == "terms_identical" then (f.termsIdentical == c.value.b) == (c.operator == "eq")
    else
      var actual := TrimSpace(FactText(c.field, f));
      if c.operator == "in" then exists s :: s in StringsOf(c.value).value && actual == TrimSpace(s)
      else (actual == TrimSpace(c.value.s)) == (c.operator == "eq")
  }

  method NumberToInt64(value: Literal) returns (r: Option<int>)
    ensures r == Int64Of(value)
    ensures r == None <==> forall n :: !Denotes(value, n)
    ensures r.Some? ==> Denotes(value, r.value)
  {
    match value
    case Whole(n) =>
      assert Denotes(value, n);
      return Some(n);
    case Float(x) =>
      var n := x.Floor;
      forall m | Denotes(value, m) ensures m == n {
        assert (m as real).Floor == m;
      }
      assert Denotes(value, n) <==> MIN_INT64 <= n <= MAX_INT64 && n as real == x;
      return if MIN_INT64 <= n <= MAX_INT64 && n as real == x then Some(n) else None;
    case _ => return None;
  }

  /** The signs of the difference that an operator admits. */
  function Signs(op: string): Option<set<int>> {
    match op
    case "eq" => Some({0})
    case "ne" => Some({-1, 1})
    case "gt" => Some({1})
    case "gte" => Some({0, 1})
    case "lt" => Some({-1})
    case "lte" => Some({-1, 0})
    case _ => None
  }

  function Sign(n: int): int {
    if n > 0 then 1 else if n < 0 then -1 else 0
  }

  /** Whether there is an answer depends on the operator alone, and the answer on the sign of the difference alone. */
  method CompareInt(actual: int, expected: int, op: string) returns (r: Option<bool>)
    ensures r.Some? <==> Signs(op).Some?
    ensures r.Some? ==> (r.value <==> Sign(actual - expected) in Signs(op).value)
  {
    match op
    case "eq" => return Some(actual == expected);
    case "ne" => return Some(actual != expected);
    case "gt" => return Some(actual > expected);
    case "gte" => return Some(actual >= expected);
    case "lt" => return Some(actual < expected);
    case "lte" => return Some(actual <= expected);
    case _ => return None;
  }

  method CompareString(actual: string, expected: Literal, op: string) returns (r: Option<bool>)
    ensures op in ["eq", "ne"] ==>
              r == if expected.Str? then Some((TrimSpace(actual) == TrimSpace(expected.s)) == (op == "eq")) else None
    ensures op == "in" ==>
              && (r.Some? <==> StringsOf(expected).Some?)
              && (r.Some? ==> (r.value <==> exists s :: s in StringsOf(expected).value && TrimSpace(actual) == TrimSpace(s)))
    ensures op !in ["eq", "ne", "in"] ==> r == None
  {
    hide TrimSpace;
    var trimmed := TrimSpace(actual);
    if op == "eq" || op == "ne" {
      if !expected.Str? {
        return None;
      }
      return Some((trimmed == TrimSpace(expected.s)) == (op == "eq"));
    }
    if op != "in" {
      return None;
    }
    var values := [];
    if expected.Strings? {
      values := expected.strings;
    } else if expected.List? {
      for i := 0 to |expected.items|
        invariant |values| == i
        invariant forall k :: 0 <= k < i ==> expected.items[k].Str? && values[k] == expected.items[k].s
      {
        if !expected.items[i].Str? {
          return None;
        }
        values := values + [expected.items[i].s];
      }
      assert values == StringsOf(expected).value;
    } else {
      return None;
    }
    for i := 0 to |values|
      invariant forall k :: 0 <= k < i ==> trimmed != TrimSpace(values[k])
    {
      if trimmed == TrimSpace(values[i]) {
        assert values[i] in values;
        return Some(true);
      }
    }
    return Some(false);
  }

  /** The operator that admits what this one does not. */
  function Opposite(op: string): string {
    match op
    case "eq" => "ne"
    case "ne" => "eq"
    case "gt" => "lte"
    case "lte" => "gt"
    case "lt" => "gte"
    case "gte" => "lt"
    case _ => op
  }

  /** The operator for the two sides exchanged. */
  function Mirrored(op: string): string {
    match op
    case "gt" => "lt"
    case "lt" => "gt"
    case "gte" => "lte"
    case "lte" => "gte"
    case _ => op
  }

  /** Amount conditions of opposite operators divide all facts between them; exchanging amount and bound mirrors the operator. */
  lemma AmountConditions(op: string, n: int, f: Facts)
    requires Signs(op).Some?
    ensures var c, d := Condition("amount_minor", op, Whole(n)), Condition("amount_minor", Opposite(op), Whole(n));
            && GoodCondition(c) && GoodCondition(d)
            && (ConditionHolds(c, f) <==> !ConditionHolds(d, f))
            && (ConditionHolds(c, f) <==>
                ConditionHolds(Condition("amount_minor", Mirrored(op), Whole(f.amountMinor)), f.(amountMinor := n)))
  {
  }

  method MatchCondition(c: Condition, f: Facts) returns (r: Option<bool>)
    ensures r.Some? <==> GoodCondition(c)
    ensures r.Some? ==> r.value == ConditionHolds(c, f)
  {
    hide TrimSpace, Int64Of, StringsOf;
    if c.field == "amount_minor" {
      var value := NumberToInt64(c.value);
      if value.None? {
        return None;
      }
      r := CompareInt(f.amountMinor, value.value, c.operator);
    } else if c.field == "terms_identical" {
      if !c.value.Truth? || (c.operator != "eq" && c.operator != "ne") {
        return None;
      }
      return Some((f.termsIdentical == c.value.b) == (c.operator == "eq"));
    } else if TextField(c.field) {
      r := CompareString(FactText(c.field, f), c.value, c.operator);
    } else {
      return None;
    }
  }

  // ----- Expressions -----

  /** Whether an expression can be evaluated at all; no facts involved. */
  predicate WellFormed(e: Expression) {
    && e.logical in ["", "and", "or"]
    && (e.conditions != [] || e.groups != [])
    && (forall i :: 0 <= i < |e.conditions| ==> GoodCondition(e.conditions[i]))
    && (forall i :: 0 <= i < |e.groups| ==> WellFormed(e.groups[i]))
  }

  /** All members hold, or some member holds; an empty operator reads as "and". */
  predicate Holds(e: Expression, f: Facts)
    requires WellFormed(e)
  {
    if e.logical == "or" then
      || (exists i :: 0 <= i < |e.conditions| && ConditionHolds(e.conditions[i], f))
      || (exists i :: 0 <= i < |e.groups| && Holds(e.groups[i], f))
    else
      && (forall i :: 0 <= i < |e.conditions| ==> ConditionHolds(e.conditions[i], f))
      && (forall i :: 0 <= i < |e.groups| ==> Holds(e.groups[i], f))
  }

  /** Evaluation fails on exactly the expressions that are not well formed, whatever the facts. */
  method Match(e: Expression, f: Facts) returns (r: Option<bool>)
    ensures r.Some? <==> WellFormed(e)
    ensures r.Some? ==> r.value == Holds(e, f)
    decreases e
  {
    hide GoodCondition, ConditionHolds;
    var logical := if e.logical == "" then "and" else e.logical;
    if logical != "and" && logical != "or" {
      return None;
    }
    var results: seq<bool> := [];
    for i := 0 to |e.conditions|
      invariant |results| == i
      invariant forall k :: 0 <= k < i ==> GoodCondition(e.conditions[k]) && results[k] == ConditionHolds(e.conditions[k], f)
    {
      var matched := MatchCondition(e.conditions[i], f);
      if matched.None? {
        return None;
      }
      results := results + [matched.value];
    }
    var n := |e.conditions|;
    for i := 0 to |e.groups|
      invariant |results| == n + i
      invariant forall k :: 0 <= k < n ==> GoodCondition(e.conditions[k]) && results[k] == ConditionHolds(e.conditions[k], f)
      invariant forall k :: 0 <= k < i ==> WellFormed(e.groups[k]) && results[n + k] == Holds(e.groups[k], f)
    {
      var matched := Match(e.groups[i], f);
      if matched.None? {
        return None;
      }
      results := results + [matched.value];
    }
    if |results| == 0 {
      return None;
    }
    ResultsDecide(e, f, results);
    if logical == "and" {
      for i := 0 to |results|
        invariant forall k :: 0 <= k < i ==> results[k]
      {
        if !results[i] {
          return Some(false);
        }
      }
      return Some(true);
    }
    for i := 0 to |results|
      invariant forall k :: 0 <= k < i ==> !results[k]
    {
      if results[i] {
        return Some(true);
      }
    }
    return Some(false);
  }

  lemma ResultsDecide(e: Expression, f: Facts, results: seq<bool>)
    requires WellFormed(e) && |results| == |e.conditions| + |e.groups|
    requires forall k :: 0 <= k < |e.conditions| ==> results[k] == ConditionHolds(e.conditions[k], f)
    requires forall k :: 0 <= k < |e.groups| ==> results[|e.conditions| + k] == Holds(e.groups[k], f)
    ensures e.logical == "or" ==> (Holds(e, f) <==> exists k :: 0 <= k < |results| && results[k])
    ensures e.logical != "or" ==> (Holds(e, f) <==> forall k :: 0 <= k < |results| ==> results[k])
  {
    hide GoodCondition, ConditionHolds;
    var n := |e.conditions|;
    if e.logical == "or" {
      if k :| 0 <= k < |results| && results[k] {
        if k >= n {
          assert Holds(e.groups[k - n], f);
        } else {
          assert ConditionHolds(e.conditions[k], f);
        }
      }
    } else if Holds(e, f) {
      forall k | 0 <= k < |results| ensures results[k] {
        if k >= n {
          assert Holds(e.groups[k - n], f);
        }
      }
    }
  }

  // ----- What conditions are about -----

  /** Which conditions can be evaluated, field by field; a condition on any other field cannot. */
  lemma {:induction false} ConditionExactly(op: string, value: Literal, field: string)
    ensures GoodCondition(Condition("amount_minor", op, value)) <==>
              Signs(op).Some? && (value.Whole? || (value.Float? && value.r == value.r.Floor as real
                                                   && -9223372036854775808 <= value.r.Floor <= 9223372036854775807))
    ensures GoodCondition(Condition("terms_identical", op, value)) <==> op in ["eq", "ne"] && value.Truth?
    ensures forall f :: f in ["service_type", "customer_credit_level", "contract_type"] ==>
              (GoodCondition(Condition(f, op, value)) <==>
                 || (op in ["eq", "ne"] && value.Str?)
                 || (op == "in" && (value.Strings? || (value.List? && forall i :: 0 <= i < |value.items| ==> value.items[i].Str?))))
    ensures GoodCondition(Condition(field, op, value)) ==>
              field in ["amount_minor", "terms_identical", "service_type", "customer_credit_level", "contract_type"]
  {
  }

  /** What each condition says of the fact it names. */
  lemma {:induction false} ConditionMeans(f: Facts, op: string, n: int, s: string, list: seq<string>, b: bool)
    ensures Signs(op).Some? ==> (ConditionHolds(Condition("amount_minor", op, Whole(n)), f) <==> Sign(f.amountMinor - n) in Signs(op).value)
    ensures ConditionHolds(Condition("terms_identical", "eq", Truth(b)), f) <==> f.termsIdentical == b
    ensures ConditionHolds(Condition("terms_identical", "ne", Truth(b)), f) <==> f.termsIdentical != b
    ensures forall field, text :: (field, text) in [("service_type", f.serviceType), ("customer_credit_level", f.customerCredit), ("contract_type", f.contractType)] ==>
              && (ConditionHolds(Condition(field, "eq", Str(s)), f) <==> TrimSpace(text) == TrimSpace(s))
              && (ConditionHolds(Condition(field, "ne", Str(s)), f) <==> TrimSpace(text) != TrimSpace(s))
              && (ConditionHolds(Condition(field, "in", Strings(list)), f) <==> exists t :: t in list && TrimSpace(text) == TrimSpace(t))
  {
    hide TrimSpace;
  }

  /** The facts agree on what the field names. */
  predicate SameFact(field: string, f: Facts, g: Facts) {
    match field
    case "amount_minor" => f.amountMinor == g.amountMinor
    case "terms_identical" => f.termsIdentical == g.termsIdentical
    case "service_type" => f.serviceType == g.serviceType
    case "customer_credit_level" => f.customerCredit == g.customerCredit
    case "contract_type" => f.contractType == g.contractType
    case _ => true
  }

  /** The facts agree on everything an expression names, at any depth. */
  predicate SameFacts(e: Expression, f: Facts, g: Facts) {
    && (forall i :: 0 <= i < |e.conditions| ==> SameFact(e.conditions[i].field, f, g))
    && (forall i :: 0 <= i < |e.groups| ==> SameFacts(e.groups[i], f, g))
  }

  lemma {:induction false} SameCondition(c: Condition, f: Facts, g: Facts)
    requires GoodCondition(c) && SameFact(c.field, f, g)
    ensures ConditionHolds(c, f) == ConditionHolds(c, g)
  {
    hide TrimSpace;
  }

  /** An expression depends on the facts it names and on no others. */
  lemma {:induction false} FactsNotNamed(e: Expression, f: Facts, g: Facts)
    requires WellFormed(e) && SameFacts(e, f, g)
    ensures Holds(e, f) == Holds(e, g)
  {
    hide GoodCondition, ConditionHolds, SameFact;
    forall i | 0 <= i < |e.conditions| ensures ConditionHolds(e.conditions[i], f) == ConditionHolds(e.conditions[i], g) {
      SameCondition(e.conditions[i], f, g);
    }
    forall i | 0 <= i < |e.groups| ensures Holds(e.groups[i], f) == Holds(e.groups[i], g) {
      FactsNotNamed(e.groups[i], f, g);
    }
  }

  // ----- Limits -----

  /** Groups, conditions and depth of the first i groups of e, in full. */
  function GroupsIn(e: Expression, i: nat): nat
    requires i <= |e.groups|
    decreases e, i
  {
    if i == 0 then 0 else GroupsIn(e, i - 1) + GroupCount(e.groups[i - 1])
  }

  function GroupCount(e: Expression): (n: nat)
    ensures n > 0
    decreases e, |e.groups| + 1
  {
    1 + GroupsIn(e, |e.groups|)
  }

  function ConditionsIn(e: Expression, i: nat): nat
    requires i <= |e.groups|
    decreases e, i
  {
    if i == 0 then 0 else ConditionsIn(e, i - 1) + ConditionCount(e.groups[i - 1])
  }

  function ConditionCount(e: Expression): nat
    decreases e, |e.groups| + 1
  {
    |e.conditions| + ConditionsIn(e, |e.groups|)
  }

  function DepthIn(e: Expression, i: nat): nat
    requires i <= |e.groups|
    decreases e, i
  {
    if i == 0 then 0
    else
      var d := Depth(e.groups[i - 1]);
      if DepthIn(e, i - 1) > d then DepthIn(e, i - 1) else d
  }

  function Depth(e: Expression): nat
    decreases e, |e.groups| + 1
  {
    1 + DepthIn(e, |e.groups|)
  }

  predicate InLimits(e: Expression) {
    GroupCount(e) <= MAX_GROUPS && ConditionCount(e) <= MAX_CONDITIONS && Depth(e) <= MAX_DEPTH
  }

  lemma {:induction false} CountsGrow(e: Expression, i: nat, j: nat)
    requires i <= j <= |e.groups|
    ensures GroupsIn(e, i) <= GroupsIn(e, j) && ConditionsIn(e, i) <= ConditionsIn(e, j) && DepthIn(e, i) <= DepthIn(e, j)
    decreases j
  {
    if i < j {
      CountsGrow(e, i, j - 1);
    }
  }

  // ----- What the limits come to -----

  /** n groups inside one another around one condition. */
  function Nested(n: nat, c: Condition): Expression
    requires n > 0
  {
    if n == 1 then Expression("and", [c], []) else Expression("and", [], [Nested(n - 1, c)])
  }

  /** Nesting is allowed eight deep. */
  lemma {:induction false} NestedLimit(n: nat, c: Condition)
    requires n > 0
    ensures Depth(Nested(n, c)) == n && GroupCount(Nested(n, c)) == n && ConditionCount(Nested(n, c)) == 1
    ensures InLimits(Nested(n, c)) <==> n <= 8
  {
    var e := Nested(n, c);
    if n > 1 {
      NestedLimit(n - 1, c);
      assert GroupsIn(e, 0) == 0 && ConditionsIn(e, 0) == 0 && DepthIn(e, 0) == 0;
      assert e.groups[0] == Nested(n - 1, c);
    }
  }

  /** Conditions are allowed up to fifty, in one group or spread over others. */
  lemma {:induction false} ConditionLimit(conditions: seq<Condition>, more: seq<Condition>)
    ensures var flat, spread := Expression("or", conditions, []), Expression("or", conditions, [Expression("and", more, [])]);
            && (InLimits(flat) <==> |conditions| <= 50) && (InLimits(spread) <==> |conditions| + |more| <= 50)
  {
    var inner := Expression("and", more, []);
    var flat := Expression("or", conditions, []);
    assert ConditionsIn(flat, 0) == 0 && GroupsIn(flat, 0) == 0 && DepthIn(flat, 0) == 0;
    assert ConditionCount(flat) == |conditions| && GroupCount(flat) == 1 && Depth(flat) == 1;
    assert ConditionsIn(inner, 0) == 0 && GroupsIn(inner, 0) == 0 && DepthIn(inner, 0) == 0;
    var spread := Expression("or", conditions, [inner]);
    assert ConditionsIn(spread, 0) == 0 && GroupsIn(spread, 0) == 0 && DepthIn(spread, 0) == 0;
    assert ConditionCount(inner) == |more| && GroupCount(inner) == 1 && Depth(inner) == 1;
    assert spread.groups[0] == inner;
    assert ConditionsIn(spread, 1) == |more| && GroupsIn(spread, 1) == 1 && DepthIn(spread, 1) == 1;
  }

  /** Groups are allowed up to fifty, the outermost included. */
  lemma {:induction false} GroupLimit(c: Condition, n: nat)
    requires n <= 49
    ensures var e := Expression("and", [c], seq(n, i => Expression("and", [], [])));
            GroupCount(e) == n + 1 && InLimits(e)
    ensures var e := Expression("and", [c], seq(50, i => Expression("and", [], []))); !InLimits(e)
  {
    LeafGroups(Expression("and", [c], seq(n, i => Expression("and", [], []))), n);
    LeafGroups(Expression("and", [c], seq(50, i => Expression("and", [], []))), 50);
  }

  lemma {:induction false} LeafGroups(e: Expression, n: nat)
    requires n <= |e.groups| && forall i :: 0 <= i < n ==> e.groups[i] == Expression("and", [], [])
    ensures GroupsIn(e, n) == n && ConditionsIn(e, n) == 0 && DepthIn(e, n) == if n == 0 then 0 else 1
    decreases n
  {
    if n > 0 {
      LeafGroups(e, n - 1);
      var leaf := e.groups[n - 1];
      assert GroupsIn(leaf, 0) == 0 && ConditionsIn(leaf, 0) == 0 && DepthIn(leaf, 0) == 0;
      assert GroupCount(leaf) == 1 && ConditionCount(leaf) == 0 && Depth(leaf) == 1;
    }
  }

  /** A group without members cannot be evaluated, nor one under an unknown operator; a blank operator reads as "and". */
  lemma {:induction false} GroupsExactly(e: Expression, f: Facts)
    ensures e.conditions == [] && e.groups == [] ==> !WellFormed(e)
    ensures e.logical !in ["", "and", "or"] ==> !WellFormed(e)
    ensures WellFormed(e.(logical := "")) <==> WellFormed(e.(logical := "and"))
    ensures WellFormed(e.(logical := "or")) <==> WellFormed(e.(logical := "and"))
    ensures WellFormed(e.(logical := "and")) ==> Holds(e.(logical := ""), f) == Holds(e.(logical := "and"), f)
  {
    hide GoodCondition, ConditionHolds;
  }

  /** The counters of the early-exit walk. */
  class LimitCounter {
    var groups: nat
    var conditions: nat

    constructor ()
      ensures groups == 0 && conditions == 0
    {
      groups, conditions := 0, 0;
    }

    /** Stopping at the first excess refuses exactly the trees whose full counts exceed the limits. */
    method Walk(e: Expression, depth: nat) returns (ok: bool)
      requires depth > 0
      modifies this
      ensures ok <==> && old(groups) + GroupCount(e) <= MAX_GROUPS
                      && old(conditions) + ConditionCount(e) <= MAX_CONDITIONS
                      && depth - 1 + Depth(e) <= MAX_DEPTH
      ensures ok ==> groups == old(groups) + GroupCount(e) && conditions == old(conditions) + ConditionCount(e)
      decreases e
    {
      if depth > MAX_DEPTH {
        return false;
      }
      groups := groups + 1;
      conditions := conditions + |e.conditions|;
      if groups > MAX_GROUPS || conditions > MAX_CONDITIONS {
        return false;
      }
      for i := 0 to |e.groups|
        invariant groups == old(groups) + 1 + GroupsIn(e, i) <= MAX_GROUPS
        invariant conditions == old(conditions) + |e.conditions| + ConditionsIn(e, i) <= MAX_CONDITIONS
        invariant depth + DepthIn(e, i) <= MAX_DEPTH
      {
        CountsGrow(e, i + 1, |e.groups|);
        var within := Walk(e.groups[i], depth + 1);
        if !within {
          return false;
        }
      }
      return true;
    }
  }

  method ValidateLimits(e: Expression) returns (ok: bool)
    ensures ok == InLimits(e)
  {
    var counts := new LimitCounter();
    ok := counts.Walk(e, 1);
  }

  /** The expression part of the check made when a rule is saved: limits, then a trial match on empty facts. */
  method ValidateExpression(e: Expression) returns (ok: bool)
    ensures ok <==> InLimits(e) && WellFormed(e)
  {
    var limits := ValidateLimits(e);
    if !limits {
      return false;
    }
    var trial := Match(e, Facts(0, "", "", "", false));
    return trial.Some?;
  }

  // ----- Choosing a rule -----

  /** Rule i is tried before rule j: higher priority first, and among equals the earlier one. */
  predicate Before(rules: seq<Rule>, i: nat, j: nat)
    requires i < |rules| && j < |rules|
  {
    rules[i].priority > rules[j].priority || (rules[i].priority == rules[j].priority && i < j)
  }

  /** The rule is tried and lets the search go on. */
  predicate Passes(rule: Rule, f: Facts) {
    rule.enabled ==> WellFormed(rule.expression) && !Holds(rule.expression, f)
  }

  ghost predicate Reached(rules: seq<Rule>, f: Facts, i: nat)
    requires i < |rules|
  {
    rules[i].enabled && forall j :: 0 <= j < |rules| && Before(rules, j, i) ==> Passes(rules[j], f)
  }

  /** All indices below n in the order the rules are tried. */
  ghost predicate TrialOrder(rules: seq<Rule>, order: seq<nat>, n: nat) {
    && n <= |rules| && |order| == n
    && (forall a :: 0 <= a < n ==> order[a] < n)
    && (forall i: nat :: i < n ==> i in order)
    && (forall a, b :: 0 <= a < b < n ==> Before(rules, order[a], order[b]))
  }

  lemma Inserted(rules: seq<Rule>, order: seq<nat>, n: nat, at: nat)
    requires n < |rules| && TrialOrder(rules, order, n) && at <= n
    requires forall a :: 0 <= a < at ==> rules[order[a]].priority >= rules[n].priority
    requires forall a :: at <= a < n ==> rules[order[a]].priority < rules[n].priority
    ensures TrialOrder(rules, order[..at] + [n] + order[at..], n + 1)
  {
    var next := order[..at] + [n] + order[at..];
    assert next[at] == n;
    forall i: nat | i < n + 1 ensures i in next {
      if i < n {
        assert i in order;
        var a :| 0 <= a < n && order[a] == i;
        assert next[if a < at then a else a + 1] == i;
      }
    }
  }

  /** A stable sort by falling priority. */
  method StableOrder(rules: seq<Rule>) returns (order: seq<nat>)
    ensures TrialOrder(rules, order, |rules|)
  {
    order := [];
    for n := 0 to |rules|
      invariant TrialOrder(rules, order, n)
    {
      var at := n;
      while at > 0 && rules[order[at - 1]].priority < rules[n].priority
        invariant 0 <= at <= n
        invariant forall a :: at <= a < n ==> rules[order[a]].priority < rules[n].priority
      {
        at := at - 1;
      }
      assert forall a :: 0 <= a < at ==> a == at - 1 || Before(rules, order[a], order[at - 1]);
      Inserted(rules, order, n, at);
      order := order[..at] + [n] + order[at..];
    }
  }

  /**
    The first enabled rule that matches, in stable priority order. Rules that passed the check at
    saving never make it fail.
   */
  method MatchHighest(rules: seq<Rule>, f: Facts) returns (r: Result<Option<nat>, ()>)
    ensures r.Ok? && r.value.Some? ==>
              var i := r.value.value; i < |rules| && Reached(rules, f, i) && WellFormed(rules[i].expression) && Holds(rules[i].expression, f)
    ensures r.Ok? && r.value.Some? ==> rules[r.value.value].enabled
    ensures r.Ok? && r.value.Some? ==>
              forall j :: 0 <= j < |rules| && rules[j].enabled && WellFormed(rules[j].expression) && Holds(rules[j].expression, f) ==>
                rules[j].priority < rules[r.value.value].priority || (rules[j].priority == rules[r.value.value].priority && j >= r.value.value)
    ensures r == Ok(None) <==> forall i :: 0 <= i < |rules| ==> Passes(rules[i], f)
    ensures r.Err? <==> exists i :: 0 <= i < |rules| && Reached(rules, f, i) && !WellFormed(rules[i].expression)
    ensures (forall i :: 0 <= i < |rules| && rules[i].enabled ==> WellFormed(rules[i].expression)) ==> r.Ok?
  {
    hide WellFormed, Holds;
    var order := StableOrder(rules);
    for a := 0 to |order|
      invariant forall b :: 0 <= b < a ==> Passes(rules[order[b]], f)
    {
      var i := order[a];
      if !rules[i].enabled {
        continue;
      }
      ReachedHere(rules, f, order, a);
      var matched := Match(rules[i].expression, f);
      if matched.None? {
        assert !Passes(rules[i], f);
        return Err(());
      }
      if matched.value {
        assert !Passes(rules[i], f);
        return Ok(Some(i));
      }
    }
    forall i | 0 <= i < |rules| ensures Passes(rules[i], f) {
      assert i in order;
    }
    return Ok(None);
  }

  lemma ReachedHere(rules: seq<Rule>, f: Facts, order: seq<nat>, a: nat)
    requires TrialOrder(rules, order, |rules|) && a < |order| && rules[order[a]].enabled
    requires forall b :: 0 <= b < a ==> Passes(rules[order[b]], f)
    ensures Reached(rules, f, order[a])
    ensures !Passes(rules[order[a]], f) ==> forall i :: 0 <= i < |rules| && Reached(rules, f, i) && !Passes(rules[i], f) ==> i == order[a]
  {
    hide Passes;
    forall j | 0 <= j < |rules| && Before(rules, j, order[a]) ensures Passes(rules[j], f) {
      assert j in order;
      var b :| 0 <= b < |order| && order[b] == j;
    }
    forall i | 0 <= i < |rules| && Reached(rules, f, i) && !Passes(rules[i], f) && !Passes(rules[order[a]], f)
      ensures i == order[a]
    {
      assert i in order;
      var b :| 0 <= b < |order| && order[b] == i;
    }
  }
}
