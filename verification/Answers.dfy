// Answer validation and normalisation: `validate` in src/services/form_validator.rs.
module Answers {
  import opened Wrappers
  import opened Text
  import opened Json
  import opened Forms
  import opened Conditions

  datatype AnswerIssue =
    | NotAnObject | Missing | NotText | TooLong(max: int) | NotANumber | BelowMin | AboveMax
    | NotAnOption | Misconfigured | NotAList | NotADate | NotAnEmail | NotAgreed

  datatype FieldError = FieldError(questionId: string, issue: AnswerIssue)

  /** `Ok(None)`: unanswered and not required. */
  type Check = Result<Option<Value>, AnswerIssue>

  predicate BlankAnswer(raw: Option<Value>) {
    match raw
    case None => true
    case Some(Null) => true
    case Some(Str(s)) => Blank(s)
    case Some(Arr(items)) => items == []
    case _ => false
  }

  function Require(q: Question): Check {
    if q.required then Err(Missing) else Ok(None)
  }

  /** An `i64` limit read `as usize`: a negative one wraps to no limit in practice. */
  function MaxLength(q: Question): int {
    if q.maxLength.Some? then
      if q.maxLength.value < 0 then q.maxLength.value + 0x1_0000_0000_0000_0000 else q.maxLength.value
    else if q.kind.LongText? then 4000
    else 100
  }

  function CheckText(q: Question, raw: Value): Check {
    if !raw.Str? then Err(NotText)
    else if |Trim(raw.s)| > MaxLength(q) then Err(TooLong(MaxLength(q)))
    else Ok(Some(Str(Trim(raw.s))))
  }

  function NumberIn(raw: Value): Option<Decimal> {
    if IsNumber(raw) then Some(AsF64(raw)) else if raw.Str? then ParseDecimal(Trim(raw.s)) else None
  }

  predicate TooSmall(q: Question, n: Decimal) {
    q.min.Some? && RealOf(n) < RealOf(q.min.value)
  }

  predicate TooLarge(q: Question, n: Decimal) {
    q.max.Some? && RealOf(n) > RealOf(q.max.value)
  }

  /** The number that is stored: a whole one passes through `i64`. */
  function StoredNumber(n: Decimal): Decimal {
    if IsWhole(n) then Decimal(ToI64(n), 0) else n
  }

  function CheckNumber(q: Question, raw: Value): Check {
    var n := NumberIn(raw);
    if n.None? then Err(NotANumber)
    else if TooSmall(q, n.value) then Err(BelowMin)
    else if TooLarge(q, n.value) then Err(AboveMax)
    else Ok(Some(Str(DecimalText(StoredNumber(n.value)))))
  }

  predicate IsOption(q: Question, id: string) {
    exists c | c in ChoicesOf(q) :: c.id == id
  }

  function CheckSingle(q: Question, raw: Value): Check {
    if !raw.Str? then Err(NotAnOption)
    else if q.options.None? then Err(Misconfigured)
    else if !IsOption(q, raw.s) then Err(NotAnOption)
    else Ok(Some(raw))
  }

  function CheckMulti(q: Question, raw: Value): Check {
    if !raw.Arr? then Err(NotAList)
    else if q.options.None? then Err(Misconfigured)
    else if forall v | v in raw.items :: v.Str? && IsOption(q, v.s) then Ok(Some(raw))
    else Err(NotAnOption)
  }

  /** The loop copies the selections one by one and stops at the first that is no option. */
  method ValidateMultiChoice(q: Question, raw: Value) returns (r: Check)
    ensures r == CheckMulti(q, raw)
  {
    if !raw.Arr? {
      return Err(NotAList);
    }
    if q.options.None? {
      return Err(Misconfigured);
    }
    var chosen: seq<Value> := [];
    var i := 0;
    while i < |raw.items|
      invariant 0 <= i <= |raw.items|
      invariant chosen == raw.items[..i]
      invariant forall v | v in chosen :: v.Str? && IsOption(q, v.s)
    {
      var v := raw.items[i];
      if !v.Str? || !IsOption(q, v.s) {
        return Err(NotAnOption);
      }
      chosen := chosen + [v];
      i := i + 1;
    }
    assert chosen == raw.items;
    return Ok(Some(Arr(chosen)));
  }

  function CheckDate(h: Host, raw: Value): Check {
    if !raw.Str? || h.instant(Trim(raw.s)).None? then Err(NotADate) else Ok(Some(Str(Trim(raw.s))))
  }

  predicate DomainChar(c: char) {
    IsDigit(c) || 'a' <= c <= 'z' || 'A' <= c <= 'Z' || c == '.' || c == '-'
  }

  predicate LooksLikeEmail(s: string) {
    var at := IndexOf(s, '@');
    && 0 < at < |s|
    && var domain := s[at + 1..];
      && '@' !in domain && |domain| >= 3 && '.' in domain && forall c | c in domain :: DomainChar(c)
  }

  function Utf8Size(s: string): nat {
    if s == [] then 0
    else
      (if s[0] < '\U{0080}' then 1 else if s[0] < '\U{0800}' then 2 else if s[0] < '\U{10000}' then 3 else 4)
        + Utf8Size(s[1..])
  }

  function CheckEmail(raw: Value): Check {
    if !raw.Str? then Err(NotAnEmail)
    else
      var s := Trim(raw.s);
      if !LooksLikeEmail(s) then Err(NotAnEmail)
      else if Utf8Size(s) > 320 then Err(TooLong(320))
      else Ok(Some(Str(s)))
  }

  predicate Agreed(raw: Option<Value>) {
    match raw
    case Some(Bool(b)) => b
    case Some(Str(s)) => s in {"true", "yes", "on", "1"}
    case Some(Int(i)) => IsI64(i) && i != 0
    case _ => false
  }

  function CheckAgreement(q: Question, raw: Option<Value>): Check {
    if Agreed(raw) then Ok(Some(Str("true"))) else if q.required then Err(NotAgreed) else Ok(None)
  }

  predicate IsNumeric(k: QuestionKind) {
    k.Number? || k.Scale?
  }

  function CheckQuestion(h: Host, q: Question, raw: Option<Value>): Check {
    if q.kind.Agreement? then CheckAgreement(q, raw)
    else if BlankAnswer(raw) then Require(q)
    else if q.kind.ShortText? || q.kind.LongText? then CheckText(q, raw.value)
    else if IsNumeric(q.kind) then CheckNumber(q, raw.value)
    else if q.kind.SingleChoice? || q.kind.Dropdown? then CheckSingle(q, raw.value)
    else if q.kind.MultiChoice? then CheckMulti(q, raw.value)
    else if q.kind.Date? then CheckDate(h, raw.value)
    else if q.kind.Email? then CheckEmail(raw.value)
    else Ok(None)
  }

  // -------------------------------------------------------------------------
  // The whole form
  // -------------------------------------------------------------------------

  function Lookup(answers: map<string, Value>, id: string): Option<Value> {
    if id in answers then Some(answers[id]) else None
  }

  predicate AllPass(h: Host, qs: seq<Question>, answers: map<string, Value>) {
    forall q | q in qs :: CheckQuestion(h, q, Lookup(answers, q.id)).Ok?
  }

  /** `out` holds exactly the normalised answers of `qs`. */
  ghost predicate Normalises(h: Host, qs: seq<Question>, answers: map<string, Value>, out: map<string, Value>) {
    && (forall q | q in qs :: CheckQuestion(h, q, Lookup(answers, q.id)) == Ok(Lookup(out, q.id)))
    && (forall id | id in out :: exists q | q in qs :: q.id == id)
  }

  /** The answers collected so far, question by question. */
  function Outputs(h: Host, qs: seq<Question>, answers: map<string, Value>): map<string, Value> {
    if qs == [] then map[]
    else
      var (before, q) := (qs[..|qs| - 1], qs[|qs| - 1]);
      var check := CheckQuestion(h, q, Lookup(answers, q.id));
      if check.Ok? && check.value.Some? then Outputs(h, before, answers)[q.id := check.value.value]
      else Outputs(h, before, answers)
  }

  function Errors(h: Host, qs: seq<Question>, answers: map<string, Value>): seq<FieldError> {
    if qs == [] then []
    else
      var (before, q) := (qs[..|qs| - 1], qs[|qs| - 1]);
      var check := CheckQuestion(h, q, Lookup(answers, q.id));
      Errors(h, before, answers) + if check.Err? then [FieldError(q.id, check.error)] else []
  }

  predicate Fails(h: Host, qs: seq<Question>, answers: map<string, Value>, e: FieldError) {
    exists q | q in qs :: q.id == e.questionId && CheckQuestion(h, q, Lookup(answers, q.id)) == Err(e.issue)
  }

  lemma {:induction false} ErrorsAreFailures(h: Host, qs: seq<Question>, answers: map<string, Value>)
    ensures forall e :: e in Errors(h, qs, answers) <==> Fails(h, qs, answers, e)
    ensures Errors(h, qs, answers) == [] <==> AllPass(h, qs, answers)
  {
    if qs != [] {
      var (before, q) := (qs[..|qs| - 1], qs[|qs| - 1]);
      ErrorsAreFailures(h, before, answers);
      assert qs == before + [q];
    }
  }

  lemma NormalisesOneMore(h: Host, before: seq<Question>, q: Question, answers: map<string, Value>, out: map<string, Value>)
    requires Normalises(h, before, answers, out) && forall x | x in before :: x.id != q.id
    requires CheckQuestion(h, q, Lookup(answers, q.id)).Ok?
    ensures var v := CheckQuestion(h, q, Lookup(answers, q.id)).value;
      Normalises(h, before + [q], answers, if v.Some? then out[q.id := v.value] else out)
  {
  }

  lemma {:induction false} OutputsNormalise(h: Host, qs: seq<Question>, answers: map<string, Value>)
    requires DistinctIds(qs) && AllPass(h, qs, answers)
    ensures Normalises(h, qs, answers, Outputs(h, qs, answers))
  {
    if qs != [] {
      var (before, q) := (qs[..|qs| - 1], qs[|qs| - 1]);
      assert qs == before + [q];
      assert q in qs && DistinctIds(before) && AllPass(h, before, answers);
      OutputsNormalise(h, before, answers);
      NormalisesOneMore(h, before, q, answers, Outputs(h, before, answers));
    }
  }

  lemma OneMoreAnswer(h: Host, qs: seq<Question>, i: nat, answers: map<string, Value>)
    requires i < |qs|
    ensures var check := CheckQuestion(h, qs[i], Lookup(answers, qs[i].id));
      && Outputs(h, qs[..i + 1], answers)
        == (var before := Outputs(h, qs[..i], answers);
            if check.Ok? && check.value.Some? then before[qs[i].id := check.value.value] else before)
      && Errors(h, qs[..i + 1], answers)
        == Errors(h, qs[..i], answers) + if check.Err? then [FieldError(qs[i].id, check.error)] else []
  {
    assert qs[..i + 1][..i] == qs[..i];
  }

  /** Accepts exactly when every question does, and then, with distinct question ids, returns
      exactly the normalised answers; otherwise it reports exactly the failing questions. */
  method Validate(h: Host, s: Schema, raw: Value) returns (r: Result<map<string, Value>, seq<FieldError>>)
    ensures r.Ok? <==> raw.Obj? && AllPass(h, Questions(s), raw.fields)
    ensures r.Ok? ==> r.value == Outputs(h, Questions(s), raw.fields)
    ensures r.Ok? && DistinctIds(Questions(s)) ==> Normalises(h, Questions(s), raw.fields, r.value)
    ensures r.Err? ==> r.error == if raw.Obj? then Errors(h, Questions(s), raw.fields) else [FieldError("", NotAnObject)]
    ensures r.Err? && raw.Obj? ==> forall e :: e in r.error <==> Fails(h, Questions(s), raw.fields, e)
  {
    if !raw.Obj? {
      return Err([FieldError("", NotAnObject)]);
    }
    var qs := Questions(s);
    var out: map<string, Value> := map[];
    var errors: seq<FieldError> := [];
    var i := 0;
    while i < |qs|
      invariant 0 <= i <= |qs|
      invariant out == Outputs(h, qs[..i], raw.fields)
      invariant errors == Errors(h, qs[..i], raw.fields)
    {
      var q := qs[i];
      OneMoreAnswer(h, qs, i, raw.fields);
      var check := CheckOne(h, q, Lookup(raw.fields, q.id));
      match check {
        case Ok(Some(v)) => out := out[q.id := v];
        case Ok(None) =>
        case Err(issue) => errors := errors + [FieldError(q.id, issue)];
      }
      i := i + 1;
    }
    assert qs[..i] == qs;
    ErrorsAreFailures(h, qs, raw.fields);
    if errors == [] {
      if DistinctIds(qs) {
        OutputsNormalise(h, qs, raw.fields);
      }
      return Ok(out);
    }
    return Err(errors);
  }

  /** One question, with the checkbox loop. */
  method CheckOne(h: Host, q: Question, raw: Option<Value>) returns (r: Check)
    ensures r == CheckQuestion(h, q, raw)
  {
    if q.kind.MultiChoice? && !BlankAnswer(raw) {
      r := ValidateMultiChoice(q, raw.value);
    } else {
      r := CheckQuestion(h, q, raw);
    }
  }

  // -------------------------------------------------------------------------
  // Laws
  // -------------------------------------------------------------------------

  lemma StoredIsSame(n: Decimal)
    ensures StoredNumber(n) == n <==> (IsWhole(n) ==> IsI64(n.units))
  {
    assert Pow10(0) == 1;
  }

  /** A stored number reads back in the condition evaluator as the submitted number, except a
      whole one beyond 64 bits, which reads back as the nearest `i64`. */
  lemma StoredNumberReadsBack(n: Decimal)
    ensures NumericValue(Str(DecimalText(StoredNumber(n)))) == Some(StoredNumber(n))
    ensures StoredNumber(n) == n <==> (IsWhole(n) ==> IsI64(n.units))
  {
    DecimalRoundTrip(StoredNumber(n));
    StoredIsSame(n);
  }

  lemma StoredIsStable(n: Decimal)
    ensures StoredNumber(StoredNumber(n)) == StoredNumber(n)
  {
  }

  lemma TrimKeepsBlankness(s: string)
    requires !Blank(s)
    ensures !Blank(Trim(s)) && Trim(Trim(s)) == Trim(s)
  {
    TrimFacts(s);
  }

  /** Every date answer that is stored can be compared by the before and after conditions. */
  lemma StoredDatesCompare(h: Host, q: Question, raw: Option<Value>)
    requires q.kind.Date? && CheckQuestion(h, q, raw).Ok? && CheckQuestion(h, q, raw).value.Some?
    ensures Instant(h, CheckQuestion(h, q, raw).value.value).Some?
  {
  }

  // What a stored answer looks like, kind by kind, independently of how it is computed.
  ghost predicate CanonicalAnswer(h: Host, q: Question, v: Value) {
    match q.kind
    case ShortText => v.Str? && Trimmed(v.s) && 0 < |v.s| <= MaxLength(q)
    case LongText => v.Str? && Trimmed(v.s) && 0 < |v.s| <= MaxLength(q)
    case Number => CanonicalNumber(q, v)
    case Scale => CanonicalNumber(q, v)
    case SingleChoice => v.Str? && !Blank(v.s) && IsOption(q, v.s)
    case Dropdown => v.Str? && !Blank(v.s) && IsOption(q, v.s)
    case MultiChoice => v.Arr? && v.items != [] && q.options.Some? && forall x | x in v.items :: x.Str? && IsOption(q, x.s)
    case Date => v.Str? && Trimmed(v.s) && v.s != "" && h.instant(v.s).Some?
    case Email => v.Str? && Trimmed(v.s) && LooksLikeEmail(v.s) && Utf8Size(v.s) <= 320
    case Agreement => v == Str("true")
    case _ => false
  }

  ghost predicate CanonicalNumber(q: Question, v: Value) {
    exists n: Decimal :: v == Str(DecimalText(n)) && (IsWhole(n) ==> IsI64(n.units)) && InRange(q, n)
  }

  lemma TrimmedExactly(s: string)
    ensures Trim(s) == s <==> Trimmed(s)
    ensures Trimmed(s) ==> (Blank(s) <==> s == "")
  {
    TrimFacts(s);
  }

  lemma EmailsAreNotEmpty(s: string)
    requires LooksLikeEmail(s)
    ensures s != ""
  {
  }

  lemma AcceptedInRange(q: Question, v: Value)
    requires CheckNumber(q, v).Ok?
    ensures NumberIn(v).Some? && InRange(q, NumberIn(v).value)
    ensures CheckNumber(q, v) == Ok(Some(Str(DecimalText(StoredNumber(NumberIn(v).value)))))
  {
  }

  lemma SettledNumbersAreCanonical(q: Question, v: Value)
    requires CheckNumber(q, v) == Ok(Some(v))
    ensures CanonicalNumber(q, v)
  {
    AcceptedInRange(q, v);
    var n := NumberIn(v).value;
    PrintedNumberReadsBack(StoredNumber(n));
    assert v == Str(DecimalText(n));
    StoredIsSame(n);
  }

  lemma CanonicalNumbersSettle(q: Question, n: Decimal)
    requires (IsWhole(n) ==> IsI64(n.units)) && InRange(q, n)
    ensures !BlankAnswer(Some(Str(DecimalText(n)))) && CheckNumber(q, Str(DecimalText(n))) == Ok(Some(Str(DecimalText(n))))
  {
    PrintedNumberReadsBack(n);
    StoredIsSame(n);
  }

  lemma NumbersSettleExactly(q: Question, v: Value)
    ensures !BlankAnswer(Some(v)) && CheckNumber(q, v) == Ok(Some(v)) <==> CanonicalNumber(q, v)
  {
    if CheckNumber(q, v) == Ok(Some(v)) {
      SettledNumbersAreCanonical(q, v);
    }
    if CanonicalNumber(q, v) {
      var n: Decimal :| v == Str(DecimalText(n)) && (IsWhole(n) ==> IsI64(n.units)) && InRange(q, n);
      CanonicalNumbersSettle(q, n);
    }
  }

  lemma TextsSettleExactly(h: Host, q: Question, s: string)
    ensures !Blank(s) && CheckText(q, Str(s)) == Ok(Some(Str(s))) <==> Trimmed(s) && 0 < |s| <= MaxLength(q)
    ensures !Blank(s) && CheckDate(h, Str(s)) == Ok(Some(Str(s))) <==> Trimmed(s) && s != "" && h.instant(s).Some?
    ensures !Blank(s) && CheckEmail(Str(s)) == Ok(Some(Str(s))) <==> Trimmed(s) && LooksLikeEmail(s) && Utf8Size(s) <= 320
  {
    TrimmedExactly(s);
    if LooksLikeEmail(s) {
      EmailsAreNotEmpty(s);
    }
  }

  lemma ChoicesSettleExactly(h: Host, q: Question, v: Value)
    requires q.kind.Agreement? || q.kind.SingleChoice? || q.kind.Dropdown? || q.kind.MultiChoice? || IsDisplay(q.kind)
    ensures CheckQuestion(h, q, Some(v)) == Ok(Some(v)) <==> CanonicalAnswer(h, q, v)
  {
  }

  /** The answers that pass validation unchanged are exactly the canonical ones. */
  lemma CanonicalAnswersSettle(h: Host, q: Question, v: Value)
    ensures CheckQuestion(h, q, Some(v)) == Ok(Some(v)) <==> CanonicalAnswer(h, q, v)
  {
    match q.kind
    case Number => NumbersSettleExactly(q, v);
    case Scale => NumbersSettleExactly(q, v);
    case ShortText => if v.Str? { TextsSettleExactly(h, q, v.s); }
    case LongText => if v.Str? { TextsSettleExactly(h, q, v.s); }
    case Date => if v.Str? { TextsSettleExactly(h, q, v.s); }
    case Email => if v.Str? { TextsSettleExactly(h, q, v.s); }
    case _ => ChoicesSettleExactly(h, q, v);
  }

  /** Whatever is submitted, what is stored of a choice, a text, a date, an e-mail address or an
      agreement is canonical; of a number it is canonical unless the 64-bit conversion pushed it
      out of its bounds. */
  lemma StoredAnswersAreCanonical(h: Host, q: Question, raw: Option<Value>)
    requires CheckQuestion(h, q, raw).Ok? && CheckQuestion(h, q, raw).value.Some?
    ensures CanonicalAnswer(h, q, CheckQuestion(h, q, raw).value.value)
      <==> (IsNumeric(q.kind) ==> InRange(q, StoredNumber(NumberIn(raw.value).value)))
  {
    AnswerIsStable(h, q, raw);
    CanonicalAnswersSettle(h, q, CheckQuestion(h, q, raw).value.value);
  }

  predicate InRange(q: Question, n: Decimal) {
    !TooSmall(q, n) && !TooLarge(q, n)
  }

  lemma PrintedNumberReadsBack(d: Decimal)
    ensures NumberIn(Str(DecimalText(d))) == Some(d) && !BlankAnswer(Some(Str(DecimalText(d))))
  {
    NumbersAreTrimmed(d);
    DecimalRoundTrip(d);
  }

  lemma PrintedNumberChecks(q: Question, d: Decimal)
    ensures var text := Str(DecimalText(d));
      CheckNumber(q, text) == Ok(Some(Str(DecimalText(StoredNumber(d))))) <==> InRange(q, d)
  {
    PrintedNumberReadsBack(d);
  }

  lemma NumberIsStable(q: Question, raw: Value)
    requires CheckNumber(q, raw).Ok?
    ensures var out := CheckNumber(q, raw).value;
      && out.Some? && !BlankAnswer(out)
      && (CheckNumber(q, out.value) == Ok(out) <==> InRange(q, StoredNumber(NumberIn(raw).value)))
  {
    var n := NumberIn(raw).value;
    assert CheckNumber(q, raw).value == Some(Str(DecimalText(StoredNumber(n))));
    PrintedNumberReadsBack(StoredNumber(n));
    PrintedNumberChecks(q, StoredNumber(n));
    StoredIsStable(n);
  }

  lemma TrimmedTextIsStable(h: Host, q: Question, s: string)
    requires !Blank(s)
    ensures !BlankAnswer(Some(Str(Trim(s))))
    ensures CheckText(q, Str(s)).Ok? ==> CheckText(q, Str(Trim(s))) == CheckText(q, Str(s))
    ensures CheckDate(h, Str(s)).Ok? ==> CheckDate(h, Str(Trim(s))) == CheckDate(h, Str(s))
    ensures CheckEmail(Str(s)).Ok? ==> CheckEmail(Str(Trim(s))) == CheckEmail(Str(s))
  {
    TrimKeepsBlankness(s);
  }

  /** Outer whitespace never decides a text, number, date or e-mail answer. */
  lemma OuterSpaceIsIrrelevant(h: Host, q: Question, s: string)
    requires IsNumeric(q.kind) || q.kind in {ShortText, LongText, Date, Email}
    ensures CheckQuestion(h, q, Some(Str(s))) == CheckQuestion(h, q, Some(Str(Trim(s))))
  {
    TrimFacts(s);
  }

  /** Normalisation is idempotent on one answer, except for a whole number beyond 64 bits whose
      nearest `i64` falls outside the question's bounds. */
  lemma AnswerIsStable(h: Host, q: Question, raw: Option<Value>)
    requires CheckQuestion(h, q, raw).Ok? && !IsDisplay(q.kind)
    ensures var out := CheckQuestion(h, q, raw).value;
      (CheckQuestion(h, q, out) == Ok(out))
      <==> (IsNumeric(q.kind) && out.Some? ==> InRange(q, StoredNumber(NumberIn(raw.value).value)))
  {
    if q.kind.Agreement? || BlankAnswer(raw) {
    } else if IsNumeric(q.kind) {
      NumberIsStable(q, raw.value);
    } else if q.kind.ShortText? || q.kind.LongText? || q.kind.Date? || q.kind.Email? {
      TrimmedTextIsStable(h, q, raw.value.s);
    }
  }

  /** Stored numbers of a form within their questions' bounds. */
  predicate NumbersSettle(h: Host, qs: seq<Question>, answers: map<string, Value>) {
    forall q | q in qs && IsNumeric(q.kind) :: !BlankAnswer(Lookup(answers, q.id)) && NumberIn(answers[q.id]).Some?
      ==> InRange(q, StoredNumber(NumberIn(answers[q.id]).value))
  }

  /** Validating an accepted form's own output returns that output, exactly when no number was
      pushed out of its bounds by the 64-bit conversion. */
  lemma ValidationIsIdempotent(h: Host, qs: seq<Question>, answers: map<string, Value>, out: map<string, Value>)
    requires forall q | q in qs :: !IsDisplay(q.kind)
    requires Normalises(h, qs, answers, out)
    ensures Normalises(h, qs, out, out) <==> NumbersSettle(h, qs, answers)
  {
    forall q | q in qs {
      AnswerIsStable(h, q, Lookup(answers, q.id));
    }
  }

  /** On a form that can be saved, what `validate` returns is accepted again and returned as it
      is, exactly when no number was pushed out of its bounds by the 64-bit conversion. */
  lemma AcceptedOutputIsAFixpoint(h: Host, s: Schema, answers: map<string, Value>)
    requires Sane(s) && AllPass(h, Questions(s), answers)
    ensures var (qs, out) := (Questions(s), Outputs(h, Questions(s), answers));
      AllPass(h, qs, out) && Outputs(h, qs, out) == out <==> NumbersSettle(h, qs, answers)
  {
    var (qs, out) := (Questions(s), Outputs(h, Questions(s), answers));
    SaneFormsAreIndexed(s);
    OutputsNormalise(h, qs, answers);
    ValidationIsIdempotent(h, qs, answers, out);
    if AllPass(h, qs, out) {
      OutputsNormalise(h, qs, out);
    }
    if NumbersSettle(h, qs, answers) {
      OutputIsUnique(h, qs, out, Outputs(h, qs, out), out);
    }
  }

  /** A required number question that asks for at least `least`. */
  function AtLeastQuestion(least: int): Question {
    Question.Question("q", Number, "How many?", true, None, Some(Decimal(least, 0)), None, None, None, None, "", "")
  }

  lemma WholeNumbersCompare(a: int, b: int)
    ensures RealOf(Decimal(a, 0)) < RealOf(Decimal(b, 0)) <==> a < b
  {
    WholeReal(a);
    WholeReal(b);
  }

  /** The least whole number an `f64` can hold above the one the largest 64-bit integer rounds to. */
  const PAST_I64: int := 0x8000_0000_0000_0800

  /** Answers that do not settle: any whole number from there on, such as ten to the nineteenth, is
      in the bounds of a question that asks for that many, is stored as the largest 64-bit integer,
      and is out of bounds when validated again. */
  lemma HugeAnswersDoNotSettle(h: Host, i: int)
    requires i >= PAST_I64
    ensures var (q, out) := (AtLeastQuestion(i), Str(DecimalText(StoredNumber(Decimal(i, 0)))));
      && StoredNumber(Decimal(i, 0)).units == I64_MAX
      && CheckQuestion(h, q, Some(Int(i))) == Ok(Some(out))
      && CheckQuestion(h, q, Some(out)) == Err(BelowMin)
      && !NumbersSettle(h, [q], map["q" := Int(i)])
  {
    var (q, n) := (AtLeastQuestion(i), Decimal(i, 0));
    var stored := StoredNumber(n);
    StoredIsClamped(i);
    WholeNumbersCompare(i, i);
    WholeNumbersCompare(stored.units, i);
    PrintedNumberReadsBack(stored);
    assert q in [q] && NumberIn(Int(i)) == Some(n) && TooSmall(q, stored);
  }

  lemma StoredIsClamped(i: int)
    ensures StoredNumber(Decimal(i, 0)) == Decimal(ClampI64(i), 0)
  {
    assert Pow10(0) == 1;
  }

  /** The output answers only questions of the form, and all of its required ones. */
  lemma OutputCoversRequired(h: Host, qs: seq<Question>, answers: map<string, Value>, out: map<string, Value>)
    requires forall q | q in qs :: !IsDisplay(q.kind)
    requires Normalises(h, qs, answers, out)
    ensures forall q | q in qs && q.required :: q.id in out
    ensures forall id | id in out :: exists q | q in qs :: q.id == id
  {
  }

  /** There is at most one normalised output. */
  lemma OutputIsUnique(h: Host, qs: seq<Question>, answers: map<string, Value>, a: map<string, Value>, b: map<string, Value>)
    requires Normalises(h, qs, answers, a) && Normalises(h, qs, answers, b)
    ensures a == b
  {
  }
}
