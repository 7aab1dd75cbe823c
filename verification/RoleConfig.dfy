// Role configs: what the rule builder posts, how it is validated and normalised
// (src/schema.rs), how it is stored, and how it is sent back to the builder
// (`role_config_data` and `role_config_save` in src/routes/admin.rs).
module RoleConfig {
  import opened Wrappers
  import opened Text
  import opened Json
  import opened Conditions
  import Forms

  const MAX_CONDITIONS: nat := 12
  const SCORE_TARGET: string := "__quiz_total_score__"

  /** One posted condition: everything still text or raw JSON. */
  datatype Input = Input(target: string, operator: string, value: Value, valueEnd: Option<Value>)

  datatype Body = Body(formId: Option<string>, mode: string, conditions: seq<Input>, viewPermission: Option<string>)

  datatype Parsed = Parsed(formId: Option<string>, grantAny: bool, conditions: seq<Condition>, viewPermission: Option<string>)

  datatype Fault =
    | NoTarget | UnknownOperator | NotAQuiz | NotNumericOperator | UnknownQuestion | NeedsListOperator
    | NumberNeeded | ListNeeded | DateNeeded | ValueNeeded | EndNeeded | BadPattern

  datatype ConfigError =
    | UnknownMode | UnknownViewPermission | NoConditions | TooManyConditions
    | BadCondition(number: nat, fault: Fault)

  // -------------------------------------------------------------------------
  // Values
  // -------------------------------------------------------------------------

  predicate IsNumericOperator(op: Operator) {
    op in {Gt, Gte, Lt, Lte, Between}
  }

  predicate IsListOperator(op: Operator) {
    op in {In, ContainsAll, ContainsAny, NotContains}
  }

  function AsI64(v: Value): Option<int> {
    match v
    case Int(i) => Some(ClampI64(i))
    case Float(d) => Some(ToI64(d))
    case Str(s) => ParseI64(Trim(s))
    case _ => None
  }

  /** `str::split(',')`. */
  function Split(s: string): (parts: seq<string>)
    ensures parts != []
  {
    if s == [] then [""]
    else
      var rest := Split(s[1..]);
      if s[0] == ',' then [""] + rest else [[s[0]] + rest[0]] + rest[1..]
  }

  function CommaJoined(parts: seq<string>): string
    requires parts != []
  {
    if |parts| == 1 then parts[0] else parts[0] + "," + CommaJoined(parts[1..])
  }

  /** Splitting loses nothing: the parts hold no comma and join to the text. */
  lemma {:induction false} SplitJoins(s: string)
    ensures CommaJoined(Split(s)) == s
    ensures forall part | part in Split(s) :: ',' !in part
  {
    if s != [] {
      var rest := Split(s[1..]);
      SplitJoins(s[1..]);
      assert s == [s[0]] + s[1..];
      assert rest[0] in rest;
      if s[0] == ',' {
        assert ([""] + rest)[1..] == rest;
      } else {
        var parts := [[s[0]] + rest[0]] + rest[1..];
        assert parts[1..] == rest[1..];
        forall part | part in parts ensures ',' !in part {
          assert part == parts[0] || part in rest;
        }
      }
    }
  }

  predicate Present(v: Value) {
    !v.Null? && v != Str("")
  }

  function Filled(vs: seq<Value>): (r: seq<Value>)
    ensures forall v :: v in r <==> v in vs && Present(v)
    ensures (forall v | v in vs :: Present(v)) ==> r == vs
  {
    if vs == [] then []
    else
      assert vs == [vs[0]] + vs[1..];
      (if Present(vs[0]) then [vs[0]] else []) + Filled(vs[1..])
  }

  function TrimmedParts(parts: seq<string>): (r: seq<Value>)
    ensures forall v | v in r :: v.Str? && v.s != ""
  {
    if parts == [] then []
    else (if Blank(parts[0]) then [] else [Str(Trim(parts[0]))]) + TrimmedParts(parts[1..])
  }

  function Listed(raw: Value): seq<Value> {
    match raw
    case Arr(items) => Filled(items)
    case Str(s) => TrimmedParts(Split(s))
    case Null => []
    case _ => [raw]
  }

  function Normalize(op: Operator, raw: Value): Result<Value, Fault> {
    if IsNumericOperator(op) then
      var n := AsI64(raw);
      if n.Some? then Ok(Int(n.value)) else Err(NumberNeeded)
    else if IsListOperator(op) then
      if Listed(raw) == [] then Err(ListNeeded) else Ok(Arr(Listed(raw)))
    else if op == Before || op == After then
      var s := if raw.Str? then Trim(raw.s) else "";
      if s == "" then Err(DateNeeded) else Ok(Str(s))
    else
      match raw
      case Str(s) => if Blank(s) then Err(ValueNeeded) else Ok(raw)
      case Int(_) => Ok(Str(NumberText(raw)))
      case Float(_) => Ok(Str(NumberText(raw)))
      case Null => Err(ValueNeeded)
      case _ => Ok(raw)
  }

  lemma NumberTextIsNotBlank(v: Value)
    requires IsNumber(v)
    ensures !Blank(NumberText(v))
  {
    var body := DecimalText(AsF64(v));
    NumbersAreTrimmed(AsF64(v));
    if v.Float? && IsWhole(v.d) {
      NumeralsAreNotSpace('0');
      assert NumberText(v)[|body| + 1] == '0';
      NotBlank(NumberText(v), |body| + 1);
    } else {
      assert NumberText(v) == body;
    }
  }

  /** Text with a visible character survives trimming. */
  lemma NotBlank(s: string, i: nat)
    requires i < |s| && !IsSpace(s[i])
    ensures !Blank(s)
  {
    var j := NotAllSpaceFront(s, i);
    NotAllSpaceBack(TrimStart(s), j);
  }

  lemma {:induction false} NotAllSpaceFront(s: string, i: nat) returns (j: nat)
    requires i < |s| && !IsSpace(s[i])
    ensures j < |TrimStart(s)| && !IsSpace(TrimStart(s)[j])
  {
    j := i;
    if IsSpace(s[0]) {
      j := NotAllSpaceFront(s[1..], i - 1);
    }
  }

  lemma {:induction false} NotAllSpaceBack(s: string, i: nat)
    requires i < |s| && !IsSpace(s[i])
    ensures TrimEnd(s) != []
  {
    if IsSpace(s[|s| - 1]) {
      NotAllSpaceBack(s[..|s| - 1], i);
    }
  }

  /** Normalising twice is normalising once, for every operator and value. */
  lemma NormalizeIsIdempotent(op: Operator, raw: Value)
    requires Normalize(op, raw).Ok?
    ensures Normalize(op, Normalize(op, raw).value) == Normalize(op, raw)
  {
    if IsNumericOperator(op) {
      assert IsI64(AsI64(raw).value);
    } else if IsListOperator(op) {
      assert forall v | v in Listed(raw) :: Present(v);
    } else if raw.Str? {
      TrimFacts(raw.s);
    } else if IsNumber(raw) {
      NumberTextIsNotBlank(raw);
    }
  }

  // -------------------------------------------------------------------------
  // Conditions
  // -------------------------------------------------------------------------

  function FindQuestion(qs: seq<Forms.Question>, id: string): Option<Forms.Question> {
    if qs == [] then None else if qs[0].id == id then Some(qs[0]) else FindQuestion(qs[1..], id)
  }

  predicate ComparesScores(op: Operator) {
    op == Eq || op == Neq || IsNumericOperator(op)
  }

  predicate SuitsCheckboxes(op: Operator) {
    op in {ContainsAll, ContainsAny, NotContains, Eq, Neq}
  }

  /** A condition's subject, judged against the bound form, if there is one. */
  function ResolveTarget(text: string, op: Operator, form: Option<Forms.Schema>, isQuiz: bool): Result<Target, Fault> {
    if text == SCORE_TARGET then
      if !isQuiz then Err(NotAQuiz) else if !ComparesScores(op) then Err(NotNumericOperator) else Ok(QuizTotalScore)
    else if form.Some? then
      var q := FindQuestion(Forms.Questions(form.value), text);
      if q.None? then Err(UnknownQuestion)
      else if q.value.kind.MultiChoice? && !SuitsCheckboxes(op) then Err(NeedsListOperator)
      else Ok(Question(text))
    else Ok(Question(text))
  }

  function NormalizeEnd(op: Operator, raw: Option<Value>): Result<Option<Value>, Fault> {
    if op != Between then Ok(None)
    else if raw.None? then Err(EndNeeded)
    else
      var end := Normalize(op, raw.value);
      if end.Ok? then Ok(Some(end.value)) else Err(end.error)
  }

  predicate PatternCompiles(h: Host, op: Operator, v: Value) {
    op == Regex ==> h.compiles(if v.Str? then v.s else "")
  }

  function ValidateCondition(h: Host, raw: Input, form: Option<Forms.Schema>, isQuiz: bool): Result<Condition, Fault> {
    if Blank(raw.target) then Err(NoTarget)
    else
      var op := OperatorFromKey(Trim(raw.operator));
      if op.None? then Err(UnknownOperator)
      else
        match (ResolveTarget(Trim(raw.target), op.value, form, isQuiz), Normalize(op.value, raw.value))
        case (Err(e), _) => Err(e)
        case (_, Err(e)) => Err(e)
        case (Ok(target), Ok(value)) =>
          var end := NormalizeEnd(op.value, raw.valueEnd);
          if end.Err? then Err(end.error)
          else if !PatternCompiles(h, op.value, value) then Err(BadPattern)
          else Ok(Condition(target, op.value, value, end.value))
  }

  function TargetText(t: Target): string {
    if t.QuizTotalScore? then SCORE_TARGET else t.questionId
  }

  /** A stored condition as the builder posts it back. */
  function InputOf(c: Condition): Input {
    Input(TargetText(c.target), OperatorKey(c.operator), c.value, c.valueEnd)
  }

  /** What the evaluator can rely on in a validated condition. */
  predicate Usable(h: Host, c: Condition) {
    && (IsNumericOperator(c.operator) ==> c.value.Int? && IsI64(c.value.i))
    && (IsListOperator(c.operator) ==> c.value.Arr? && c.value.items != [] && forall v | v in c.value.items :: Present(v))
    && (c.operator == Before || c.operator == After ==> c.value.Str? && Trimmed(c.value.s) && c.value.s != "")
    && (c.operator == Between <==> c.valueEnd.Some?)
    && (c.valueEnd.Some? ==> c.valueEnd.value.Int? && IsI64(c.valueEnd.value.i))
    && Present(c.value) && PatternCompiles(h, c.operator, c.value)
  }

  lemma TargetIsStable(text: string, op: Operator, form: Option<Forms.Schema>, isQuiz: bool)
    requires ResolveTarget(text, op, form, isQuiz).Ok?
    ensures TargetText(ResolveTarget(text, op, form, isQuiz).value) == text
  {
  }

  lemma EndIsStable(op: Operator, raw: Option<Value>)
    requires NormalizeEnd(op, raw).Ok?
    ensures var end := NormalizeEnd(op, raw).value;
      && NormalizeEnd(op, end) == Ok(end)
      && (op == Between <==> end.Some?)
      && (end.Some? ==> end.value.Int? && IsI64(end.value.i))
  {
  }

  /** A validated condition is usable, and validating it again as it is sent back to the
      builder, against the same form, changes nothing. */
  lemma ValidationIsStable(h: Host, raw: Input, form: Option<Forms.Schema>, isQuiz: bool)
    requires ValidateCondition(h, raw, form, isQuiz).Ok?
    ensures var c := ValidateCondition(h, raw, form, isQuiz).value;
      Usable(h, c) && ValidateCondition(h, InputOf(c), form, isQuiz) == Ok(c)
  {
    var c := ValidateCondition(h, raw, form, isQuiz).value;
    TrimFacts(raw.target);
    KeysAreFaithful(c.operator);
    TargetIsStable(Trim(raw.target), c.operator, form, isQuiz);
    NormalizeIsIdempotent(c.operator, raw.value);
    NormalizedIsUsable(c.operator, raw.value);
    EndIsStable(c.operator, raw.valueEnd);
    ValidationParts(h, raw, form, isQuiz, c);
    ValidationParts(h, InputOf(c), form, isQuiz, c);
  }

  /** What `ValidateCondition` checks, part by part. */
  lemma ValidationParts(h: Host, raw: Input, form: Option<Forms.Schema>, isQuiz: bool, c: Condition)
    ensures ValidateCondition(h, raw, form, isQuiz) == Ok(c) <==>
      && !Blank(raw.target) && OperatorFromKey(Trim(raw.operator)) == Some(c.operator)
      && ResolveTarget(Trim(raw.target), c.operator, form, isQuiz) == Ok(c.target)
      && Normalize(c.operator, raw.value) == Ok(c.value)
      && NormalizeEnd(c.operator, raw.valueEnd) == Ok(c.valueEnd)
      && PatternCompiles(h, c.operator, c.value)
  {
  }

  /** What a validated condition may be about: the score of a quiz, compared as a number, or,
      on a bound form, an answerable question of that form, with an operator that suits it. */
  lemma TargetsAreReal(h: Host, raw: Input, form: Option<Forms.Schema>, isQuiz: bool)
    requires ValidateCondition(h, raw, form, isQuiz).Ok?
    ensures var c := ValidateCondition(h, raw, form, isQuiz).value;
      && (c.target.QuizTotalScore? ==> isQuiz && (c.operator == Eq || c.operator == Neq || IsNumericOperator(c.operator)))
      && (c.target.Question? && form.Some? ==>
            exists q | q in Forms.Questions(form.value) :: q.id == c.target.questionId
              && (q.kind.MultiChoice? ==> SuitsCheckboxes(c.operator)))
  {
    if form.Some? {
      FoundIsThere(Forms.Questions(form.value), Trim(raw.target));
    }
  }

  lemma {:induction false} FoundIsThere(qs: seq<Forms.Question>, id: string)
    ensures FindQuestion(qs, id).Some? <==> exists q | q in qs :: q.id == id
    ensures FindQuestion(qs, id).Some? ==> FindQuestion(qs, id).value in qs && FindQuestion(qs, id).value.id == id
  {
    if qs != [] {
      FoundIsThere(qs[1..], id);
      assert qs == [qs[0]] + qs[1..];
    }
  }

  lemma NormalizedIsUsable(op: Operator, raw: Value)
    requires Normalize(op, raw).Ok?
    ensures var v := Normalize(op, raw).value;
      && Present(v)
      && (IsNumericOperator(op) ==> v.Int? && IsI64(v.i))
      && (IsListOperator(op) ==> v.Arr? && v.items != [] && forall x | x in v.items :: Present(x))
      && (op == Before || op == After ==> v.Str? && Trimmed(v.s) && v.s != "")
  {
    if IsNumericOperator(op) {
    } else if IsListOperator(op) {
      assert forall x | x in Listed(raw) :: Present(x);
    } else if raw.Str? {
      TrimFacts(raw.s);
    } else if IsNumber(raw) {
      NumberTextIsNotBlank(raw);
    }
  }

  // -------------------------------------------------------------------------
  // Configs
  // -------------------------------------------------------------------------

  function FormIdOf(posted: Option<string>): Option<string> {
    if posted.None? || Blank(posted.value) then None else Some(Trim(posted.value))
  }

  /** All conditions, or the first fault with its one-based position. */
  function Collected(rs: seq<Result<Condition, Fault>>): (r: Result<seq<Condition>, ConfigError>)
    ensures r.Ok? ==> |r.value| == |rs|
  {
    if rs == [] then Ok([])
    else
      var (before, last) := (Collected(rs[..|rs| - 1]), rs[|rs| - 1]);
      if before.Err? then before
      else if last.Err? then Err(BadCondition(|rs|, last.error))
      else Ok(before.value + [last.value])
  }

  function Checks(h: Host, raws: seq<Input>, form: Option<Forms.Schema>, isQuiz: bool): (rs: seq<Result<Condition, Fault>>)
    ensures |rs| == |raws|
  {
    seq(|raws|, i requires 0 <= i < |raws| => ValidateCondition(h, raws[i], form, isQuiz))
  }

  function ValidateAll(h: Host, raws: seq<Input>, form: Option<Forms.Schema>, isQuiz: bool): Result<seq<Condition>, ConfigError> {
    Collected(Checks(h, raws, form, isQuiz))
  }

  function ParseConfig(h: Host, body: Body, form: Option<Forms.Schema>, isQuiz: bool): Result<Parsed, ConfigError> {
    if body.mode != "any_submission" && body.mode != "conditions" then Err(UnknownMode)
    else if body.viewPermission.Some? && body.viewPermission.value !in {"", "members", "managers"} then Err(UnknownViewPermission)
    else
      var view := if body.viewPermission == Some("") then None else body.viewPermission;
      if body.mode == "any_submission" then Ok(Parsed(FormIdOf(body.formId), true, [], view))
      else if body.conditions == [] then Err(NoConditions)
      else if |body.conditions| > MAX_CONDITIONS then Err(TooManyConditions)
      else
        var cs := ValidateAll(h, body.conditions, form, isQuiz);
        if cs.Err? then Err(cs.error) else Ok(Parsed(FormIdOf(body.formId), false, cs.value, view))
  }

  method ParseRoleConfig(h: Host, body: Body, form: Option<Forms.Schema>, isQuiz: bool) returns (r: Result<Parsed, ConfigError>)
    ensures r == ParseConfig(h, body, form, isQuiz)
    ensures r.Ok? ==>
      if r.value.grantAny then r.value.conditions == [] else 1 <= |r.value.conditions| <= MAX_CONDITIONS
  {
    var formId := FormIdOf(body.formId);
    var grantAny;
    if body.mode == "any_submission" {
      grantAny := true;
    } else if body.mode == "conditions" {
      grantAny := false;
    } else {
      return Err(UnknownMode);
    }
    var view: Option<string>;
    match body.viewPermission {
      case None => view := None;
      case Some(v) =>
        if v == "" {
          view := None;
        } else if v == "members" || v == "managers" {
          view := Some(v);
        } else {
          return Err(UnknownViewPermission);
        }
    }
    if grantAny {
      return Ok(Parsed(formId, true, [], view));
    }
    if body.conditions == [] {
      return Err(NoConditions);
    }
    if |body.conditions| > MAX_CONDITIONS {
      return Err(TooManyConditions);
    }
    var conditions := ValidateConditions(h, body.conditions, form, isQuiz);
    if conditions.Err? {
      return Err(conditions.error);
    }
    return Ok(Parsed(formId, false, conditions.value, view));
  }

  /** Collects the conditions one by one and stops at the first fault. */
  method ValidateConditions(h: Host, raws: seq<Input>, form: Option<Forms.Schema>, isQuiz: bool)
    returns (r: Result<seq<Condition>, ConfigError>)
    ensures r == ValidateAll(h, raws, form, isQuiz)
  {
    ghost var rs := Checks(h, raws, form, isQuiz);
    var conditions: seq<Condition> := [];
    var i := 0;
    while i < |raws|
      invariant 0 <= i <= |raws|
      invariant Collected(rs[..i]) == Ok(conditions)
    {
      var c := ValidateCondition(h, raws[i], form, isQuiz);
      assert c == rs[i];
      CollectOneMore(rs, i, conditions);
      if c.Err? {
        return Err(BadCondition(i + 1, c.error));
      }
      conditions := conditions + [c.value];
      i := i + 1;
    }
    assert rs[..i] == rs;
    return Ok(conditions);
  }

  lemma CollectOneMore(rs: seq<Result<Condition, Fault>>, i: nat, before: seq<Condition>)
    requires i < |rs| && Collected(rs[..i]) == Ok(before)
    ensures rs[i].Ok? ==> Collected(rs[..i + 1]) == Ok(before + [rs[i].value])
    ensures rs[i].Err? ==> Collected(rs) == Err(BadCondition(i + 1, rs[i].error))
  {
    assert rs[..i + 1][..i] == rs[..i];
    if rs[i].Err? {
      FaultStays(rs, i + 1);
    }
  }

  lemma {:induction false} FaultStays(rs: seq<Result<Condition, Fault>>, n: nat)
    requires n <= |rs| && Collected(rs[..n]).Err?
    ensures Collected(rs) == Collected(rs[..n])
  {
    if n == |rs| {
      assert rs[..n] == rs;
    } else {
      assert rs[..|rs| - 1][..n] == rs[..n];
      FaultStays(rs[..|rs| - 1], n);
    }
  }

  lemma {:induction false} CollectedMeans(rs: seq<Result<Condition, Fault>>, cs: seq<Condition>)
    ensures Collected(rs) == Ok(cs) <==> |cs| == |rs| && forall i | 0 <= i < |rs| :: rs[i] == Ok(cs[i])
  {
    if rs != [] && cs != [] {
      var (m, n) := (|rs| - 1, |cs| - 1);
      CollectedMeans(rs[..m], cs[..n]);
      assert cs == cs[..n] + [cs[n]] && rs == rs[..m] + [rs[m]];
      if m == n && rs[m] == Ok(cs[n]) && Collected(rs[..m]) == Ok(cs[..n]) {
        assert forall i | 0 <= i < m :: rs[i] == rs[..m][i] && cs[i] == cs[..n][i];
      }
    }
  }

  // -------------------------------------------------------------------------
  // There and back
  // -------------------------------------------------------------------------

  /** The columns of `role_links` a save writes; `rows` is the stored JSON array. */
  datatype StoredConfig = StoredConfig(formId: Option<string>, grantAny: bool, rows: seq<Value>)

  function Store(p: Parsed): StoredConfig {
    StoredConfig(p.formId, p.grantAny, RowsOf(p.conditions))
  }

  function OrNull(v: Option<Value>): Value {
    if v.Some? then v.value else Null
  }

  /** One stored condition flattened for the builder. */
  function Flatten(row: Value): Value {
    var target := OrNull(Get(row, "target"));
    var id := Get(target, "question_id");
    var text :=
      if Get(target, "kind") == Some(Str("quiz_total_score")) then SCORE_TARGET
      else if id.Some? && id.value.Str? then id.value.s
      else "";
    Obj(map[
      "target" := Str(text),
      "operator" := OrNull(Get(row, "operator")),
      "value" := OrNull(Get(row, "value")),
      "value_end" := OrNull(Get(row, "value_end"))])
  }

  /** The derived `Deserialize` of a posted condition: absent and null ends are the same. */
  function ReadInput(v: Value): Option<Input> {
    match (Get(v, "target"), Get(v, "operator"))
    case (Some(Str(target)), Some(Str(operator))) =>
      var end := Get(v, "value_end");
      Some(Input(target, operator, OrNull(Get(v, "value")), if end == Some(Null) then None else end))
    case _ => None
  }

  function ReadInputs(vs: seq<Value>): Option<seq<Input>> {
    if vs == [] then Some([])
    else
      match (ReadInput(vs[0]), ReadInputs(vs[1..]))
      case (Some(head), Some(tail)) => Some([head] + tail)
      case _ => None
  }

  function FlattenAll(rows: seq<Value>): (r: seq<Value>)
    ensures |r| == |rows|
  {
    seq(|rows|, i requires 0 <= i < |rows| => Flatten(rows[i]))
  }

  /** What the builder is sent for a stored config and posts back untouched. */
  function SentBack(s: StoredConfig): Option<Body> {
    var inputs := ReadInputs(FlattenAll(s.rows));
    if inputs.None? then None
    else
      Some(Body(
        Some(if s.formId.Some? then s.formId.value else ""),
        if s.grantAny || s.rows == [] then "any_submission" else "conditions",
        inputs.value,
        None))
  }

  lemma FlattenReads(c: Condition)
    requires c.valueEnd != Some(Null)
    ensures ReadInput(Flatten(ToJson(c))) == Some(InputOf(c))
  {
  }

  lemma {:induction false} ReadInputsAll(vs: seq<Value>, inputs: seq<Input>)
    requires |vs| == |inputs| && forall i | 0 <= i < |vs| :: ReadInput(vs[i]) == Some(inputs[i])
    ensures ReadInputs(vs) == Some(inputs)
  {
    if vs != [] {
      assert ReadInput(vs[0]) == Some(inputs[0]);
      ReadInputsAll(vs[1..], inputs[1..]);
      assert inputs == [inputs[0]] + inputs[1..];
    }
  }

  lemma FlattenReadsAll(cs: seq<Condition>)
    requires forall c | c in cs :: c.valueEnd != Some(Null)
    ensures ReadInputs(FlattenAll(RowsOf(cs))) == Some(Inputs(cs))
  {
    forall i | 0 <= i < |cs| ensures ReadInput(FlattenAll(RowsOf(cs))[i]) == Some(Inputs(cs)[i]) {
      FlattenReads(cs[i]);
    }
    ReadInputsAll(FlattenAll(RowsOf(cs)), Inputs(cs));
  }

  function Inputs(cs: seq<Condition>): (r: seq<Input>)
    ensures |r| == |cs|
  {
    seq(|cs|, i requires 0 <= i < |cs| => InputOf(cs[i]))
  }

  lemma AllAreStable(h: Host, raws: seq<Input>, form: Option<Forms.Schema>, isQuiz: bool)
    requires ValidateAll(h, raws, form, isQuiz).Ok?
    ensures var cs := ValidateAll(h, raws, form, isQuiz).value;
      (forall c | c in cs :: Usable(h, c)) && ValidateAll(h, Inputs(cs), form, isQuiz) == Ok(cs)
  {
    var rs := Checks(h, raws, form, isQuiz);
    var cs := ValidateAll(h, raws, form, isQuiz).value;
    CollectedMeans(rs, cs);
    var again := Checks(h, Inputs(cs), form, isQuiz);
    forall i | 0 <= i < |cs| ensures Usable(h, cs[i]) && again[i] == Ok(cs[i]) {
      assert rs[i] == ValidateCondition(h, raws[i], form, isQuiz);
      ValidationIsStable(h, raws[i], form, isQuiz);
    }
    CollectedMeans(again, cs);
  }

  lemma ParsedIsUsable(h: Host, body: Body, form: Option<Forms.Schema>, isQuiz: bool)
    requires ParseConfig(h, body, form, isQuiz).Ok?
    ensures var p := ParseConfig(h, body, form, isQuiz).value;
      && (forall c | c in p.conditions :: Usable(h, c))
      && (if p.grantAny then p.conditions == [] else 1 <= |p.conditions| <= MAX_CONDITIONS)
      && ValidateAll(h, Inputs(p.conditions), form, isQuiz) == Ok(p.conditions)
      && FormIdOf(Some(if p.formId.Some? then p.formId.value else "")) == p.formId
  {
    if body.mode == "conditions" {
      AllAreStable(h, body.conditions, form, isQuiz);
    }
    TrimFacts("");
    if body.formId.Some? {
      TrimFacts(body.formId.value);
    }
  }

  /** The builder's copy of a config. */
  function BackOf(p: Parsed): Body {
    Body(
      Some(if p.formId.Some? then p.formId.value else ""),
      if p.grantAny then "any_submission" else "conditions",
      Inputs(p.conditions),
      None)
  }

  lemma SentBackIs(p: Parsed)
    requires forall c | c in p.conditions :: c.valueEnd != Some(Null)
    requires p.grantAny <==> p.conditions == []
    ensures SentBack(Store(p)) == Some(BackOf(p))
  {
    FlattenReadsAll(p.conditions);
  }

  lemma ParsesBack(h: Host, p: Parsed, form: Option<Forms.Schema>, isQuiz: bool)
    requires if p.grantAny then p.conditions == [] else 1 <= |p.conditions| <= MAX_CONDITIONS
    requires ValidateAll(h, Inputs(p.conditions), form, isQuiz) == Ok(p.conditions)
    requires FormIdOf(Some(if p.formId.Some? then p.formId.value else "")) == p.formId
    ensures ParseConfig(h, BackOf(p), form, isQuiz) == Ok(p.(viewPermission := None))
  {
  }

  /** Whatever is saved, opening the role page and saving again unchanged, against the same
      form, saves the same config; every stored condition is usable; and the rows are what the
      sync engine will read. */
  lemma SavingAgainChangesNothing(h: Host, body: Body, form: Option<Forms.Schema>, isQuiz: bool)
    requires ParseConfig(h, body, form, isQuiz).Ok?
    ensures var p := ParseConfig(h, body, form, isQuiz).value;
      && SentBack(Store(p)).Some?
      && ParseConfig(h, SentBack(Store(p)).value, form, isQuiz) == Ok(p.(viewPermission := None))
      && (forall c | c in p.conditions :: Usable(h, c))
      && ParseRows(Store(p).rows) == p.conditions
  {
    var p := ParseConfig(h, body, form, isQuiz).value;
    ParsedIsUsable(h, body, form, isQuiz);
    SentBackIs(p);
    ParsesBack(h, p, form, isQuiz);
    RowsRoundTrip(p.conditions);
  }

  /** The one stored config that does not survive: a link nobody has saved yet grants nobody, but
      the builder shows it as granting on any submission, and saving it makes that so. */
  lemma UnconditionedLinksSurviveExactly(h: Host, stored: StoredConfig, form: Option<Forms.Schema>, isQuiz: bool)
    requires stored.rows == [] && (stored.formId.Some? ==> Trimmed(stored.formId.value) && stored.formId.value != "")
    ensures SentBack(stored).Some? && ParseConfig(h, SentBack(stored).value, form, isQuiz).Ok?
    ensures var again := Store(ParseConfig(h, SentBack(stored).value, form, isQuiz).value);
      again == stored.(grantAny := true) && (again == stored <==> stored.grantAny)
  {
  }

  // -------------------------------------------------------------------------
  // What a saved condition can be evaluated on
  // -------------------------------------------------------------------------

  /** A usable numeric condition never fails for want of a number on its own side: it holds of
      an answer exactly when the answer is a number in the range it names. */
  lemma NumericConditionsMean(h: Host, c: Condition, actual: Value)
    requires Usable(h, c) && IsNumericOperator(c.operator)
    ensures Test(h, c.operator, actual, c.value, c.valueEnd) <==>
      NumericValue(actual).Some? && !actual.Null? &&
        var (a, e) := (RealOf(NumericValue(actual).value), c.value.i as real);
        match c.operator
        case Gt => a > e
        case Gte => a >= e
        case Lt => a < e
        case Lte => a <= e
        case Between => e <= a <= c.valueEnd.value.i as real
        case _ => false
  {
    WholeReal(c.value.i);
    if c.operator == Between {
      WholeReal(c.valueEnd.value.i);
    }
  }
}
