// Condition rows and their evaluator: src/models/condition.rs and
// src/services/condition_eval.rs. `Evaluate` is the one authority both sync paths ask.
module Conditions {
  import opened Wrappers
  import opened Text
  import opened Json
  import opened Order

  datatype Operator =
    | Eq | Neq | Contains | Regex | In | ContainsAll | ContainsAny | NotContains
    | Gt | Gte | Lt | Lte | Between | Before | After

  datatype Target = Question(questionId: string) | QuizTotalScore

  datatype Condition = Condition(target: Target, operator: Operator, value: Value, valueEnd: Option<Value>)

  // -------------------------------------------------------------------------
  // Stored form
  // -------------------------------------------------------------------------

  function OperatorKey(op: Operator): string {
    match op
    case Eq => "eq"
    case Neq => "neq"
    case Contains => "contains"
    case Regex => "regex"
    case In => "in"
    case ContainsAll => "contains_all"
    case ContainsAny => "contains_any"
    case NotContains => "not_contains"
    case Gt => "gt"
    case Gte => "gte"
    case Lt => "lt"
    case Lte => "lte"
    case Between => "between"
    case Before => "before"
    case After => "after"
  }

  function OperatorFromKey(k: string): Option<Operator> {
    if k == "eq" then Some(Eq)
    else if k == "neq" then Some(Neq)
    else if k == "contains" then Some(Contains)
    else if k == "regex" then Some(Regex)
    else if k == "in" then Some(In)
    else if k == "contains_all" then Some(ContainsAll)
    else if k == "contains_any" then Some(ContainsAny)
    else if k == "not_contains" then Some(NotContains)
    else if k == "gt" then Some(Gt)
    else if k == "gte" then Some(Gte)
    else if k == "lt" then Some(Lt)
    else if k == "lte" then Some(Lte)
    else if k == "between" then Some(Between)
    else if k == "before" then Some(Before)
    else if k == "after" then Some(After)
    else None
  }

  lemma KeysAreFaithful(op: Operator)
    ensures OperatorFromKey(OperatorKey(op)) == Some(op)
    ensures Trim(OperatorKey(op)) == OperatorKey(op)
  {
    KeysAreTrimmed(op);
  }

  lemma KeysAreTrimmed(op: Operator)
    ensures Trim(OperatorKey(op)) == OperatorKey(op)
  {
  }

  function TargetToJson(t: Target): Value {
    match t
    case Question(id) => Obj(map["kind" := Str("question"), "question_id" := Str(id)])
    case QuizTotalScore => Obj(map["kind" := Str("quiz_total_score")])
  }

  function TargetFromJson(v: Value): Option<Target> {
    match Get(v, "kind")
    case Some(Str("question")) =>
      (match Get(v, "question_id")
       case Some(Str(id)) => Some(Question(id))
       case _ => None)
    case Some(Str("quiz_total_score")) => Some(QuizTotalScore)
    case _ => None
  }

  /** The derived `Serialize`: an absent `value_end` is skipped. */
  function ToJson(c: Condition): Value {
    var fields := map[
      "target" := TargetToJson(c.target),
      "operator" := Str(OperatorKey(c.operator)),
      "value" := c.value];
    Obj(if c.valueEnd.Some? then fields["value_end" := c.valueEnd.value] else fields)
  }

  /** The derived `Deserialize`; a row that does not parse is dropped by the readers. */
  function FromJson(v: Value): Option<Condition> {
    match (Get(v, "target"), Get(v, "operator"), Get(v, "value"))
    case (Some(t), Some(Str(k)), Some(value)) =>
      (match (TargetFromJson(t), OperatorFromKey(k))
       case (Some(target), Some(op)) =>
         var end := Get(v, "value_end");
         Some(Condition(target, op, value, if end == Some(Null) then None else end))
       case _ => None)
    case _ => None
  }

  /** Both sync paths read `role_links.conditions` through this filter. */
  function ParseRows(rows: seq<Value>): seq<Condition> {
    if rows == [] then []
    else
      var head := FromJson(rows[0]);
      (if head.Some? then [head.value] else []) + ParseRows(rows[1..])
  }

  function RowsOf(cs: seq<Condition>): (rows: seq<Value>)
    ensures |rows| == |cs|
  {
    seq(|cs|, i requires 0 <= i < |cs| => ToJson(cs[i]))
  }

  lemma RowFields(c: Condition)
    ensures Get(ToJson(c), "target") == Some(TargetToJson(c.target))
    ensures Get(ToJson(c), "operator") == Some(Str(OperatorKey(c.operator)))
    ensures Get(ToJson(c), "value") == Some(c.value)
    ensures Get(ToJson(c), "value_end") == c.valueEnd
  {
  }

  lemma TargetRoundTrip(t: Target)
    ensures TargetFromJson(TargetToJson(t)) == Some(t)
  {
  }

  lemma ConditionRoundTrip(c: Condition)
    requires c.valueEnd != Some(Null)
    ensures FromJson(ToJson(c)) == Some(c)
  {
    RowFields(c);
    TargetRoundTrip(c.target);
    KeysAreFaithful(c.operator);
  }

  lemma ParseOne(rows: seq<Value>, c: Condition)
    requires rows != [] && FromJson(rows[0]) == Some(c)
    ensures ParseRows(rows) == [c] + ParseRows(rows[1..])
  {
  }

  /** Conditions written to the table are read back by the sync paths exactly as written. */
  lemma {:induction false} RowsRoundTrip(cs: seq<Condition>)
    requires forall c | c in cs :: c.valueEnd != Some(Null)
    ensures ParseRows(RowsOf(cs)) == cs
  {
    if cs != [] {
      var rows := RowsOf(cs);
      assert ParseRows(rows) == [cs[0]] + ParseRows(rows[1..]) by {
        ConditionRoundTrip(cs[0]);
        ParseOne(rows, cs[0]);
      }
      assert rows[1..] == RowsOf(cs[1..]) by {
        assert forall i | 0 <= i < |cs| - 1 :: rows[1..][i] == rows[i + 1] && cs[1..][i] == cs[i + 1];
      }
      RowsRoundTrip(cs[1..]);
    }
  }

  // -------------------------------------------------------------------------
  // Evaluation
  // -------------------------------------------------------------------------

  function StringValue(v: Value): Option<string> {
    match v
    case Str(s) => Some(s)
    case Int(_) => Some(NumberText(v))
    case Float(_) => Some(NumberText(v))
    case Bool(b) => Some(BoolText(b))
    case _ => None
  }

  /** An answer as the set of values it holds. */
  function Selections(v: Value): seq<string> {
    if v.Arr? then Strings(v.items)
    else
      var s := StringValue(v);
      if s.Some? then [s.value] else []
  }

  function EqMatches(actual: Value, expected: Value): Option<bool> {
    var e := StringValue(expected);
    if e.None? then None else Some(Selections(actual) == [e.value])
  }

  function NumericValue(v: Value): Option<Decimal> {
    if IsNumber(v) then Some(AsF64(v))
    else if v.Str? then ParseDecimal(v.s)
    else None
  }

  function Instant(h: Host, v: Value): Option<int> {
    if v.Str? then h.instant(v.s) else None
  }

  function Wanted(expected: Value): seq<string> {
    if expected.Arr? then Strings(expected.items) else []
  }

  predicate Test(h: Host, op: Operator, actual: Value, expected: Value, end: Option<Value>) {
    var chosen := Selections(actual);
    if actual.Null? && op != Neq && op != NotContains then false
    else
      match op
      case Eq => EqMatches(actual, expected) == Some(true)
      case Neq =>
        if actual.Null? then expected.Str? && expected.s != ""
        else EqMatches(actual, expected) == Some(false)
      case Contains =>
        var needle := StringValue(expected);
        needle.Some? && exists s | s in chosen :: HasSubstring(s, needle.value)
      case Regex =>
        expected.Str? && h.compiles(expected.s) && exists s | s in chosen :: h.isMatch(expected.s, s)
      case In => |chosen| == 1 && expected.Arr? && chosen[0] in Wanted(expected)
      case ContainsAll => expected.Arr? && forall s | s in Wanted(expected) :: s in chosen
      case ContainsAny => expected.Arr? && exists s | s in Wanted(expected) :: s in chosen
      case NotContains => expected.Arr? ==> !exists s | s in Wanted(expected) :: s in chosen
      case Gt => Compare(actual, expected, (a, e) => a > e)
      case Gte => Compare(actual, expected, (a, e) => a >= e)
      case Lt => Compare(actual, expected, (a, e) => a < e)
      case Lte => Compare(actual, expected, (a, e) => a <= e)
      case Between =>
        var top := if end.Some? then NumericValue(end.value) else None;
        Compare(actual, expected, (a, e) => e <= a <= if top.Some? then RealOf(top.value) else e)
      case Before =>
        var (a, e) := (Instant(h, actual), Instant(h, expected));
        a.Some? && e.Some? && a.value < e.value
      case After =>
        var (a, e) := (Instant(h, actual), Instant(h, expected));
        a.Some? && e.Some? && a.value > e.value
  }

  predicate Compare(actual: Value, expected: Value, relation: (real, real) -> bool) {
    var (a, e) := (NumericValue(actual), NumericValue(expected));
    a.Some? && e.Some? && relation(RealOf(a.value), RealOf(e.value))
  }

  /** The data a target selects from a response. */
  function Actual(t: Target, answers: Value, score: Option<int>): Value {
    match t
    case Question(id) =>
      var a := Get(answers, id);
      if a.Some? then a.value else Null
    case QuizTotalScore => if score.Some? then Int(score.value) else Null
  }

  predicate EvaluateSingle(h: Host, c: Condition, answers: Value, score: Option<int>) {
    Test(h, c.operator, Actual(c.target, answers, score), c.value, c.valueEnd)
  }

  /** Whether one response makes its author eligible. */
  predicate Evaluate(h: Host, grantAny: bool, conditions: seq<Condition>, answers: Value, score: Option<int>) {
    || grantAny
    || (conditions != [] && forall c | c in conditions :: EvaluateSingle(h, c, answers, score))
  }

  // -------------------------------------------------------------------------
  // Laws
  // -------------------------------------------------------------------------

  /** `neq` is the complement of `eq` exactly where a comparison makes sense: on an answered
      question whose expected value has a string form, or on an unanswered one whose expected
      value is a non-empty string. Elsewhere both are false. */
  lemma NeqComplementsEq(h: Host, actual: Value, expected: Value, end: Option<Value>)
    ensures (Test(h, Neq, actual, expected, end) == !Test(h, Eq, actual, expected, end))
      <==> if actual.Null? then expected.Str? && expected.s != "" else StringValue(expected).Some?
    ensures !(Test(h, Neq, actual, expected, end) && Test(h, Eq, actual, expected, end))
  {
  }

  /** The list operators and the substring and regex searches see an answer as a set: order
      and repetition of the selected options never matter. */
  lemma SelectionsAreASet(h: Host, op: Operator, a: Value, b: Value, expected: Value, end: Option<Value>)
    requires op in {Contains, Regex, ContainsAll, ContainsAny, NotContains}
    requires a.Null? <==> b.Null?
    requires Elems(Selections(a)) == Elems(Selections(b))
    ensures Test(h, op, a, expected, end) == Test(h, op, b, expected, end)
  {
    forall s ensures s in Selections(a) <==> s in Selections(b) {
      assert s in Elems(Selections(a)) <==> s in Elems(Selections(b));
    }
  }

  /** `between` is `gte` and `lte` at once; without a usable end it is equality. */
  lemma BetweenIsBothBounds(h: Host, actual: Value, expected: Value, end: Option<Value>)
    ensures var top := if end.Some? && NumericValue(end.value).Some? then end.value else expected;
      Test(h, Between, actual, expected, end)
      <==> Test(h, Gte, actual, expected, None) && Test(h, Lte, actual, top, None)
  {
  }

  predicate Related(op: Operator, a: real, e: real) {
    match op
    case Gt => a > e
    case Gte => a >= e
    case Lt => a < e
    case Lte => a <= e
    case _ => false
  }

  predicate Comparable(actual: Value, expected: Value) {
    NumericValue(actual).Some? && NumericValue(expected).Some?
  }

  lemma NumericTest(h: Host, op: Operator, actual: Value, expected: Value, end: Option<Value>)
    requires op in {Gt, Gte, Lt, Lte}
    ensures Test(h, op, actual, expected, end) <==>
      Comparable(actual, expected) && Related(op, RealOf(NumericValue(actual).value), RealOf(NumericValue(expected).value))
  {
  }

  /** On numbers, `gt` and `lte` complement each other, and so do `lt` and `gte`; where either
      side is no number all four fail. */
  lemma OrderingsComplement(h: Host, actual: Value, expected: Value, end: Option<Value>)
    ensures Test(h, Gt, actual, expected, end) <==> Comparable(actual, expected) && !Test(h, Lte, actual, expected, end)
    ensures Test(h, Lt, actual, expected, end) <==> Comparable(actual, expected) && !Test(h, Gte, actual, expected, end)
    ensures Test(h, Gt, actual, expected, end) <==> Test(h, Lt, expected, actual, end)
    ensures Test(h, Gt, actual, expected, end) ==> Test(h, Gte, actual, expected, end)
  {
    NumericTest(h, Gt, actual, expected, end);
    NumericTest(h, Gte, actual, expected, end);
    NumericTest(h, Lt, actual, expected, end);
    NumericTest(h, Lte, actual, expected, end);
    NumericTest(h, Lt, expected, actual, end);
  }

  lemma EqIsTheOneSelection(h: Host, actual: Value, s: string, end: Option<Value>)
    requires !actual.Null?
    ensures Test(h, Eq, actual, Str(s), end) <==> Selections(actual) == [s]
  {
  }

  /** `in` is `eq` with some member of the list. */
  lemma InIsSomeEq(h: Host, actual: Value, items: seq<Value>, end: Option<Value>)
    requires !actual.Null?
    ensures Test(h, In, actual, Arr(items), end) <==> exists s | s in Strings(items) :: Test(h, Eq, actual, Str(s), end)
  {
    var chosen := Selections(actual);
    forall s: string ensures Test(h, Eq, actual, Str(s), end) <==> chosen == [s] {
      EqIsTheOneSelection(h, actual, s, end);
    }
    if |chosen| == 1 {
      assert chosen == [chosen[0]];
    }
  }

  lemma ContainsOne(h: Host, actual: Value, s: string, end: Option<Value>)
    requires !actual.Null?
    ensures Test(h, ContainsAny, actual, Arr([Str(s)]), end) <==> s in Selections(actual)
  {
  }

  predicate Picks(actual: Value, s: string) {
    s in Selections(actual)
  }

  lemma ContainsAllMeans(h: Host, actual: Value, items: seq<Value>, end: Option<Value>)
    requires !actual.Null?
    ensures Test(h, ContainsAll, actual, Arr(items), end) <==> forall s | s in Strings(items) :: Picks(actual, s)
  {
    assert forall s: string :: Picks(actual, s) <==> s in Selections(actual);
  }

  lemma ContainsAnyMeans(h: Host, actual: Value, items: seq<Value>, end: Option<Value>)
    requires !actual.Null?
    ensures Test(h, ContainsAny, actual, Arr(items), end) <==> exists s | s in Strings(items) :: Picks(actual, s)
  {
    assert forall s: string :: Picks(actual, s) <==> s in Selections(actual);
  }

  /** `contains_all` is `contains_any` with each member, `contains_any` with some. */
  lemma ContainsUnfolds(h: Host, actual: Value, items: seq<Value>, end: Option<Value>)
    requires !actual.Null?
    ensures Test(h, ContainsAll, actual, Arr(items), end)
      <==> forall s | s in Strings(items) :: Test(h, ContainsAny, actual, Arr([Str(s)]), end)
    ensures Test(h, ContainsAny, actual, Arr(items), end)
      <==> exists s | s in Strings(items) :: Test(h, ContainsAny, actual, Arr([Str(s)]), end)
  {
    ContainsAllMeans(h, actual, items, end);
    ContainsAnyMeans(h, actual, items, end);
    forall s: string ensures Test(h, ContainsAny, actual, Arr([Str(s)]), end) <==> Picks(actual, s) {
      ContainsOne(h, actual, s, end);
    }
  }

  function AtLeast(threshold: int): Condition {
    Condition(QuizTotalScore, Gte, Int(threshold), None)
  }

  /** A "total score at least t" condition holds exactly of the responses scored t or more. */
  lemma ThresholdCondition(h: Host, t: int, answers: Value, score: Option<int>)
    ensures Evaluate(h, false, [AtLeast(t)], answers, score) <==> score.Some? && score.value >= t
  {
    var c := AtLeast(t);
    assert Evaluate(h, false, [c], answers, score) <==> EvaluateSingle(h, c, answers, score) by {
      assert forall x :: x in [c] <==> x == c;
    }
    WholeReal(t);
    if score.Some? {
      WholeReal(score.value);
      NumericTest(h, Gte, Int(score.value), Int(t), None);
    }
  }
}
