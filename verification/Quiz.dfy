// Quiz grading (`compute_quiz_score`, `validate_quiz_keys` in
// src/services/form_validator.rs) and the per-load shuffle of src/routes/form_render.rs.
module Quiz {
  import opened Wrappers
  import opened Text
  import opened Json
  import opened Order
  import opened Forms
  import opened Answers
  import opened Permutations

  const MAX_QUESTION_POINTS: int := 1_000_000

  // -------------------------------------------------------------------------
  // Answer keys
  // -------------------------------------------------------------------------

  function KeyTexts(items: seq<Value>): seq<string> {
    if items == [] then []
    else
      var v := items[0];
      (if v.Str? then [v.s] else if IsNumber(v) then [NumberText(v)] else []) + KeyTexts(items[1..])
  }

  function NonBlank(texts: seq<string>): (r: seq<string>)
    ensures forall t :: t in r <==> t in texts && !Blank(t)
  {
    if texts == [] then []
    else
      assert texts == [texts[0]] + texts[1..];
      (if Blank(texts[0]) then [] else [texts[0]]) + NonBlank(texts[1..])
  }

  function AcceptedAnswers(correct: Value): seq<string> {
    NonBlank(
      match correct
      case Str(s) => [s]
      case Int(_) => [NumberText(correct)]
      case Float(_) => [NumberText(correct)]
      case Bool(b) => [BoolText(b)]
      case Arr(items) => KeyTexts(items)
      case _ => [])
  }

  /** Awards positive points and has a usable key. */
  predicate IsGraded(q: Question) {
    q.points.Some? && q.points.value > 0 && q.correct.Some? && AcceptedAnswers(q.correct.value) != []
  }

  function TextOf(v: Value): string {
    if v.Str? then v.s else ""
  }

  function Abs(r: real): real {
    if r < 0.0 then -r else r
  }

  predicate SameNumber(text: string, got: Decimal) {
    var want := ParseDecimal(Trim(text));
    want.Some? && Abs(RealOf(want.value) - RealOf(got)) < 0.000_000_001
  }

  predicate Matches(h: Host, kind: QuestionKind, correct: Value, actual: Value) {
    var accepted := AcceptedAnswers(correct);
    match kind
    case MultiChoice =>
      accepted != [] && Elems(accepted) == if actual.Arr? then Elems(Strings(actual.items)) else {}
    case Number => MatchesNumber(accepted, actual)
    case Scale => MatchesNumber(accepted, actual)
    case ShortText => MatchesText(h, accepted, actual)
    case LongText => MatchesText(h, accepted, actual)
    case Email => MatchesText(h, accepted, actual)
    case _ =>
      var got := Trim(TextOf(actual));
      got != "" && exists want | want in accepted :: Trim(want) == got
  }

  predicate MatchesNumber(accepted: seq<string>, actual: Value) {
    var got := NumberIn(actual);
    got.Some? && exists want | want in accepted :: SameNumber(want, got.value)
  }

  predicate MatchesText(h: Host, accepted: seq<string>, actual: Value) {
    var got := h.lower(Trim(TextOf(actual)));
    got != "" && exists want | want in accepted :: h.lower(Trim(want)) == got
  }

  /** The points an answer set earns on one question. */
  function Earned(h: Host, q: Question, answers: map<string, Value>): (p: int)
    ensures 0 <= p <= Worth(q)
  {
    if q.points.Some? && q.points.value > 0 && q.correct.Some? && q.id in answers
      && Matches(h, q.kind, q.correct.value, answers[q.id])
    then
      UngradedNeverMatches(h, q.kind, q.correct.value, answers[q.id]);
      q.points.value
    else 0
  }

  lemma UngradedNeverMatches(h: Host, kind: QuestionKind, correct: Value, actual: Value)
    ensures Matches(h, kind, correct, actual) ==> AcceptedAnswers(correct) != []
  {
  }

  /** The points a question can award. */
  function Worth(q: Question): (p: int)
    ensures p >= 0
  {
    if IsGraded(q) then q.points.value else 0
  }

  function TotalEarned(h: Host, qs: seq<Question>, answers: map<string, Value>): int {
    if qs == [] then 0 else TotalEarned(h, qs[..|qs| - 1], answers) + Earned(h, qs[|qs| - 1], answers)
  }

  function TotalWorth(qs: seq<Question>): int {
    if qs == [] then 0 else TotalWorth(qs[..|qs| - 1]) + Worth(qs[|qs| - 1])
  }

  function Capped(total: int): int {
    if total > I32_MAX then I32_MAX else total
  }

  /** One turn of the grading loop: the points of a matched question, none for any other. */
  method ScoreQuestion(h: Host, q: Question, answers: map<string, Value>) returns (points: int)
    ensures points == Earned(h, q, answers)
  {
    if q.points.None? || q.points.value <= 0 {
      return 0;
    }
    if q.correct.None? || q.id !in answers {
      return 0;
    }
    if Matches(h, q.kind, q.correct.value, answers[q.id]) {
      return q.points.value;
    }
    return 0;
  }

  lemma OneMoreTotal(h: Host, qs: seq<Question>, i: nat, answers: map<string, Value>)
    requires i < |qs|
    ensures TotalEarned(h, qs[..i + 1], answers) == TotalEarned(h, qs[..i], answers) + Earned(h, qs[i], answers)
  {
    assert qs[..i + 1][..i] == qs[..i];
  }

  lemma CappedWithin(h: Host, qs: seq<Question>, answers: map<string, Value>)
    ensures 0 <= Capped(TotalEarned(h, qs, answers)) <= Capped(TotalWorth(qs))
  {
    EarnedWithinWorth(h, qs, answers);
  }

  /** The grading loop returns the sum of the points of the matched questions, held at the
      32-bit maximum; only graded questions contribute. */
  method ComputeQuizScore(h: Host, s: Schema, answers: map<string, Value>) returns (total: int)
    ensures total == Capped(TotalEarned(h, Questions(s), answers))
    ensures 0 <= total <= Capped(TotalWorth(Questions(s)))
  {
    var qs := Questions(s);
    total := 0;
    var i := 0;
    while i < |qs|
      invariant 0 <= i <= |qs|
      invariant total == Capped(TotalEarned(h, qs[..i], answers))
    {
      OneMoreTotal(h, qs, i, answers);
      var points := ScoreQuestion(h, qs[i], answers);
      total := Capped(total + points);
      i := i + 1;
    }
    assert qs[..i] == qs;
    CappedWithin(h, qs, answers);
  }

  // -------------------------------------------------------------------------
  // Key validation
  // -------------------------------------------------------------------------

  predicate SaneKey(q: Question) {
    && (q.points.Some? ==> 0 <= q.points.value <= MAX_QUESTION_POINTS)
    && (q.correct.Some? && IsChoice(q.kind) ==> forall id | id in AcceptedAnswers(q.correct.value) :: IsOption(q, id))
  }

  predicate SaneKeys(qs: seq<Question>) {
    forall q | q in qs :: SaneKey(q)
  }

  datatype KeyIssue = PointsOutOfRange(id: string) | UnknownOption(id: string)

  /** The check at save time accepts exactly the forms whose keys are sane. */
  method ValidateQuizKeys(s: Schema) returns (errors: seq<KeyIssue>)
    ensures errors == [] <==> SaneKeys(Questions(s))
  {
    errors := [];
    var qs := Questions(s);
    var i := 0;
    while i < |qs|
      invariant 0 <= i <= |qs|
      invariant errors == [] <==> SaneKeys(qs[..i])
    {
      var q := qs[i];
      assert qs[..i + 1] == qs[..i] + [q];
      SaneKeysSnoc(qs[..i], q);
      i := i + 1;
      if q.points.Some? && !(0 <= q.points.value <= MAX_QUESTION_POINTS) {
        errors := errors + [PointsOutOfRange(q.id)];
      }
      if q.correct.None? {
        continue;
      }
      var accepted := AcceptedAnswers(q.correct.value);
      if accepted == [] {
        continue;
      }
      if IsChoice(q.kind) {
        var ids := IdsOf(ChoicesOf(q));
        if exists id | id in accepted :: id !in ids {
          errors := errors + [UnknownOption(q.id)];
        }
      }
    }
    assert qs[..i] == qs;
  }

  function IdsOf(choices: seq<Choice>): set<string> {
    set c | c in choices :: c.id
  }

  lemma SaneKeysSnoc(qs: seq<Question>, q: Question)
    ensures SaneKeys(qs + [q]) <==> SaneKeys(qs) && SaneKey(q)
    ensures forall id :: id in IdsOf(ChoicesOf(q)) <==> IsOption(q, id)
  {
  }

  lemma {:induction false} WorthIsBounded(qs: seq<Question>)
    requires SaneKeys(qs)
    ensures 0 <= TotalWorth(qs) <= MAX_QUESTION_POINTS * |qs|
  {
    if qs != [] {
      assert qs[|qs| - 1] in qs;
      WorthIsBounded(qs[..|qs| - 1]);
    }
  }

  /** On every form that can be saved as a quiz the total stays far below the 32-bit maximum,
      so saturation never distorts a score. */
  lemma SavedQuizzesNeverSaturate(h: Host, s: Schema, answers: map<string, Value>)
    requires Sane(s) && SaneKeys(Questions(s))
    ensures 0 <= TotalEarned(h, Questions(s), answers) <= TotalWorth(Questions(s)) <= 50_000_000
    ensures Capped(TotalEarned(h, Questions(s), answers)) == TotalEarned(h, Questions(s), answers)
  {
    SaneFormsAreIndexed(s);
    WorthIsBounded(Questions(s));
    EarnedWithinWorth(h, Questions(s), answers);
  }

  lemma {:induction false} EarnedWithinWorth(h: Host, qs: seq<Question>, answers: map<string, Value>)
    ensures 0 <= TotalEarned(h, qs, answers) <= TotalWorth(qs)
  {
    if qs != [] {
      EarnedWithinWorth(h, qs[..|qs| - 1], answers);
    }
  }

  // -------------------------------------------------------------------------
  // Keys are answers, and matching is forgiving
  // -------------------------------------------------------------------------

  /** An answer taken from the question's own key. */
  predicate FromKey(h: Host, q: Question, v: Value)
    requires IsGraded(q)
  {
    var accepted := AcceptedAnswers(q.correct.value);
    match q.kind
    case MultiChoice => v.Arr? && Elems(Strings(v.items)) == Elems(accepted)
    case Number => v.Str? && v.s in accepted && ParseDecimal(Trim(v.s)).Some?
    case Scale => v.Str? && v.s in accepted && ParseDecimal(Trim(v.s)).Some?
    case ShortText => v.Str? && v.s in accepted && h.lower(Trim(v.s)) != ""
    case LongText => v.Str? && v.s in accepted && h.lower(Trim(v.s)) != ""
    case Email => v.Str? && v.s in accepted && h.lower(Trim(v.s)) != ""
    case _ => v.Str? && v.s in accepted
  }

  lemma KeyedAnswersMatch(h: Host, q: Question, v: Value)
    requires IsGraded(q) && FromKey(h, q, v)
    ensures Matches(h, q.kind, q.correct.value, v)
  {
  }

  /** Answering every graded question from its key scores everything there is to score. */
  lemma {:induction false} FullMarks(h: Host, qs: seq<Question>, answers: map<string, Value>)
    requires forall q | q in qs && IsGraded(q) :: q.id in answers && FromKey(h, q, answers[q.id])
    ensures TotalEarned(h, qs, answers) == TotalWorth(qs)
  {
    if qs != [] {
      var q := qs[|qs| - 1];
      assert q in qs;
      FullMarks(h, qs[..|qs| - 1], answers);
      if IsGraded(q) {
        KeyedAnswersMatch(h, q, answers[q.id]);
      }
    }
  }

  lemma SameTextMatches(h: Host, kind: QuestionKind, correct: Value, a: string, b: string)
    requires kind in {ShortText, LongText, Email} && h.lower(Trim(a)) == h.lower(Trim(b))
    ensures Matches(h, kind, correct, Str(a)) == Matches(h, kind, correct, Str(b))
  {
  }

  lemma SameNumberMatches(h: Host, kind: QuestionKind, correct: Value, a: string, b: string)
    requires IsNumeric(kind) && ParseDecimal(Trim(a)) == ParseDecimal(Trim(b))
    ensures Matches(h, kind, correct, Str(a)) == Matches(h, kind, correct, Str(b))
  {
    assert NumberIn(Str(a)) == NumberIn(Str(b));
  }

  /** What `str::to_lowercase` does with ASCII capitals. */
  ghost predicate FoldsCase(h: Host) {
    forall s :: h.lower(Upper(s)) == h.lower(s)
  }

  /** Typing a text answer in capitals, or with any whitespace around it, never decides whether
      it matches. */
  lemma TextMatchingIsForgiving(h: Host, kind: QuestionKind, correct: Value, lead: string, s: string, trail: string)
    requires kind in {ShortText, LongText, Email} && FoldsCase(h) && AllSpace(lead) && AllSpace(trail)
    ensures Matches(h, kind, correct, Str(lead + Upper(s) + trail)) == Matches(h, kind, correct, Str(s))
  {
    TrimPadding(lead, Upper(s), trail);
    UpperTrims(s);
    SameTextMatches(h, kind, correct, lead + Upper(s) + trail, s);
  }

  /** So it is with the key: its capitals and outer whitespace never decide either. */
  lemma KeysAreForgiving(h: Host, kind: QuestionKind, lead: string, key: string, trail: string, actual: Value)
    requires kind in {ShortText, LongText, Email} && FoldsCase(h) && AllSpace(lead) && AllSpace(trail)
    ensures Matches(h, kind, Str(lead + Upper(key) + trail), actual) == Matches(h, kind, Str(key), actual)
  {
    TrimPadding(lead, Upper(key), trail);
    UpperTrims(key);
    OneKey(lead + Upper(key) + trail);
    OneKey(key);
  }

  lemma OneKey(key: string)
    ensures AcceptedAnswers(Str(key)) == if Blank(key) then [] else [key]
  {
    assert [key][1..] == [] && NonBlank([]) == [];
    assert NonBlank([key]) == (if Blank(key) then [] else [key]) + NonBlank([key][1..]);
  }

  /** Zeros after the point, a bare point and whitespace never decide a number: 5, 5., 5.0 and
      5.00 match the same keys. */
  lemma NumberMatchingIsForgiving(h: Host, kind: QuestionKind, correct: Value, lead: string, minus: bool, whole: string,
                                  fraction: string, trail: string)
    requires IsNumeric(kind) && AllDigits(whole) && whole != [] && AllDigits(fraction) && AllSpace(lead) && AllSpace(trail)
    ensures var plain := Pointed(minus, whole, fraction);
      && Matches(h, kind, correct, Str(lead + Pointed(minus, whole, fraction + "0") + trail)) == Matches(h, kind, correct, Str(plain))
      && (fraction == "" ==> Matches(h, kind, correct, Str(plain)) == Matches(h, kind, correct, Str(Sign(minus) + whole)))
  {
    var (plain, padded) := (Pointed(minus, whole, fraction), Pointed(minus, whole, fraction + "0"));
    NumberTextTrimmed(minus, whole, fraction);
    NumberTextTrimmed(minus, whole, fraction + "0");
    TrimPadding(lead, padded, trail);
    TrailingZero(minus, whole, fraction);
    SameNumberMatches(h, kind, correct, lead + padded + trail, plain);
    if fraction == "" {
      NumeralEnds(minus, whole);
      BarePoint(minus, whole);
      SameNumberMatches(h, kind, correct, plain, Sign(minus) + whole);
    }
  }

  lemma NumberTextTrimmed(minus: bool, whole: string, fraction: string)
    requires AllDigits(whole) && whole != [] && AllDigits(fraction)
    ensures Trim(Pointed(minus, whole, fraction)) == Pointed(minus, whole, fraction)
  {
    var text := Pointed(minus, whole, fraction);
    assert whole[0] in whole && (fraction != "" ==> fraction[|fraction| - 1] in fraction);
    assert text[0] == if minus then '-' else whole[0];
    assert text[|text| - 1] == if fraction == "" then '.' else fraction[|fraction| - 1];
    TrimFacts(text);
  }

  lemma NumeralEnds(minus: bool, whole: string)
    requires AllDigits(whole) && whole != []
    ensures Trim(Sign(minus) + whole) == Sign(minus) + whole
  {
    var text := Sign(minus) + whole;
    assert whole[0] in whole && whole[|whole| - 1] in whole;
    assert text[0] == if minus then '-' else whole[0];
    assert text[|text| - 1] == whole[|whole| - 1];
    TrimFacts(text);
  }

  predicate Close(a: real, b: real) {
    -0.000_000_001 < a - b < 0.000_000_001
  }

  lemma PrintedKeyMatches(key: Decimal, got: Decimal)
    ensures SameNumber(DecimalText(key), got) <==> Close(RealOf(key), RealOf(got))
    ensures AcceptedAnswers(Str(DecimalText(key))) == [DecimalText(key)]
  {
    NumbersAreTrimmed(key);
    DecimalRoundTrip(key);
    OneKey(DecimalText(key));
  }

  lemma OneKeyDecides(accepted: seq<string>, key: string, actual: Value)
    requires accepted == [key]
    ensures MatchesNumber(accepted, actual) <==> NumberIn(actual).Some? && SameNumber(key, NumberIn(actual).value)
  {
    assert forall want :: want in accepted <==> want == key;
  }

  /** With a number for its key, a numeric question gives the points to exactly the numbers less
      than a billionth away. */
  lemma NumbersMatchWithinTolerance(h: Host, kind: QuestionKind, key: Decimal, answer: Decimal)
    requires IsNumeric(kind)
    ensures Matches(h, kind, Str(DecimalText(key)), Str(DecimalText(answer))) <==> Close(RealOf(key), RealOf(answer))
  {
    PrintedNumberReadsBack(answer);
    PrintedKeyMatches(key, answer);
    OneKeyDecides([DecimalText(key)], DecimalText(key), Str(DecimalText(answer)));
  }

  // -------------------------------------------------------------------------
  // Order never matters
  // -------------------------------------------------------------------------

  /** Two answers that differ at most in the order and repetition of checkbox selections. */
  predicate SameSelections(q: Question, a: Value, b: Value) {
    a == b || (q.kind.MultiChoice? && a.Arr? && b.Arr? && Elems(Strings(a.items)) == Elems(Strings(b.items)))
  }

  /** Checkbox selections score as a set. */
  lemma {:induction false} SelectionOrderIsIrrelevant(h: Host, qs: seq<Question>, a: map<string, Value>, b: map<string, Value>)
    requires forall q | q in qs :: (q.id in a <==> q.id in b) && (q.id in a ==> SameSelections(q, a[q.id], b[q.id]))
    ensures TotalEarned(h, qs, a) == TotalEarned(h, qs, b)
  {
    if qs != [] {
      assert qs[|qs| - 1] in qs;
      SelectionOrderIsIrrelevant(h, qs[..|qs| - 1], a, b);
    }
  }

  /** What grading and validation see of a question: everything but the order of its options. */
  datatype Face = Face(bare: Question, optionIds: Option<set<string>>)

  function FaceOf(q: Question): Face {
    Face(q.(options := None), if q.options.None? then None else Some(IdsOf(q.options.value)))
  }

  function Faces(qs: seq<Question>): seq<Face> {
    Map(FaceOf, qs)
  }

  lemma SameFaces(p: Question, q: Question)
    requires FaceOf(p) == FaceOf(q)
    ensures p == q.(options := p.options) && (p.options.Some? <==> q.options.Some?)
    ensures forall id :: IsOption(p, id) <==> IsOption(q, id)
  {
    assert p.(options := None) == q.(options := None);
    if p.options.Some? {
      SaneKeysSnoc([], p);
      SaneKeysSnoc([], q);
    }
  }

  lemma FaceDecidesCheck(h: Host, p: Question, q: Question, raw: Option<Value>)
    requires p == q.(options := p.options) && (p.options.Some? <==> q.options.Some?)
    requires forall id :: IsOption(p, id) <==> IsOption(q, id)
    ensures CheckQuestion(h, p, raw) == CheckQuestion(h, q, raw)
  {
  }

  lemma FaceDecides(h: Host, p: Question, q: Question, answers: map<string, Value>, raw: Option<Value>)
    requires FaceOf(p) == FaceOf(q)
    ensures p.id == q.id && Earned(h, p, answers) == Earned(h, q, answers)
    ensures CheckQuestion(h, p, raw) == CheckQuestion(h, q, raw)
  {
    SameFaces(p, q);
    FaceDecidesCheck(h, p, q, raw);
  }

  lemma {:induction false} EarnedWithout(h: Host, qs: seq<Question>, i: nat, answers: map<string, Value>)
    requires i < |qs|
    ensures TotalEarned(h, qs, answers) == TotalEarned(h, Without(qs, i), answers) + Earned(h, qs[i], answers)
    decreases |qs|
  {
    var rest := Without(qs, i);
    var before := qs[..|qs| - 1];
    if i == |qs| - 1 {
      assert rest == before;
    } else {
      EarnedWithout(h, before, i, answers);
      assert rest[..|rest| - 1] == Without(before, i);
      assert rest[|rest| - 1] == qs[|qs| - 1];
    }
  }

  /** The score is blind to the order of the questions and of their options. */
  lemma {:induction false} OrderIsIrrelevant(h: Host, ps: seq<Question>, qs: seq<Question>, answers: map<string, Value>)
    requires multiset(Faces(ps)) == multiset(Faces(qs))
    ensures TotalEarned(h, ps, answers) == TotalEarned(h, qs, answers)
    decreases |ps|
  {
    SameLength(Faces(ps), Faces(qs));
    if ps != [] {
      var i := Matching(Faces(ps), Faces(qs));
      assert Faces(ps)[1..] == Faces(Without(ps, 0));
      assert Without(Faces(qs), i) == Faces(Without(qs, i));
      OrderIsIrrelevant(h, Without(ps, 0), Without(qs, i), answers);
      EarnedWithout(h, ps, 0, answers);
      EarnedWithout(h, qs, i, answers);
      FaceDecides(h, ps[0], qs[i], answers, None);
    }
  }

  /** Nor does order matter to what is accepted, and to what is stored of it. */
  lemma OrderIsIrrelevantToValidation(h: Host, ps: seq<Question>, qs: seq<Question>,
                                      answers: map<string, Value>, out: map<string, Value>)
    requires multiset(Faces(ps)) == multiset(Faces(qs))
    requires AllPass(h, ps, answers) && Normalises(h, ps, answers, out)
    ensures AllPass(h, qs, answers) && Normalises(h, qs, answers, out)
  {
    forall q | q in qs ensures CheckQuestion(h, q, Lookup(answers, q.id)) == Ok(Lookup(out, q.id)) {
      var p := Twin(qs, ps, q);
      FaceDecides(h, p, q, answers, Lookup(answers, q.id));
    }
    forall id | id in out ensures exists q | q in qs :: q.id == id {
      var p :| p in ps && p.id == id;
      var q := Twin(ps, qs, p);
      FaceDecides(h, p, q, answers, None);
    }
  }

  lemma Twin(ps: seq<Question>, qs: seq<Question>, p: Question) returns (q: Question)
    requires multiset(Faces(ps)) == multiset(Faces(qs)) && p in ps
    ensures q in qs && FaceOf(p) == FaceOf(q)
  {
    SameLength(Faces(ps), Faces(qs));
    var i :| 0 <= i < |ps| && ps[i] == p;
    assert Faces(ps)[i] in Faces(qs);
    var j :| 0 <= j < |qs| && Faces(qs)[j] == FaceOf(p);
    q := qs[j];
  }

  // -------------------------------------------------------------------------
  // The shuffled form
  // -------------------------------------------------------------------------

  /** A random permutation: from the last position down, each swaps with one not after it. */
  method Shuffle<T>(s: seq<T>) returns (r: seq<T>)
    ensures multiset(r) == multiset(s)
  {
    r := s;
    var i := |r|;
    while i > 1
      invariant i <= |r| == |s|
      invariant multiset(r) == multiset(s)
    {
      i := i - 1;
      var j :| 0 <= j <= i;
      r := r[i := r[j]][j := r[i]];
    }
  }

  lemma SameFace(q: Question, options: seq<Choice>)
    requires q.options.Some? && multiset(q.options.value) == multiset(options)
    ensures FaceOf(q.(options := Some(options))) == FaceOf(q)
  {
    SameLength(q.options.value, options);
    assert IdsOf(options) == IdsOf(q.options.value);
  }

  /** A page as the browser gets it: same questions in any order, same options in any order. */
  method ShufflePage(page: Page, shuffleOptions: bool) returns (r: Page)
    ensures r.id == page.id
    ensures multiset(Faces(r.questions)) == multiset(Faces(page.questions))
  {
    var qs := Shuffle(page.questions);
    MapPermutes(FaceOf, qs, page.questions);
    ghost var faces := Faces(qs);
    if shuffleOptions {
      var i := 0;
      while i < |qs|
        invariant 0 <= i <= |qs|
        invariant Faces(qs) == faces
      {
        if IsChoice(qs[i].kind) && qs[i].options.Some? {
          var options := Shuffle(qs[i].options.value);
          var q := qs[i].(options := Some(options));
          SameFace(qs[i], options);
          assert FaceOf(q) == Faces(qs)[i];
          qs := qs[i := q];
          assert forall k | 0 <= k < |qs| :: Faces(qs)[k] == faces[k];
        }
        i := i + 1;
      }
    }
    r := Page(page.id, qs);
  }

  /** `b` is `a` with the questions of each page, and the options of each question, reordered. */
  predicate Reordered(a: Schema, b: Schema) {
    && a.title == b.title && a.description == b.description && ReorderedPages(a.pages, b.pages)
  }

  predicate ReorderedPages(a: seq<Page>, b: seq<Page>) {
    && |a| == |b|
    && forall i | 0 <= i < |a| :: a[i].id == b[i].id && multiset(Faces(a[i].questions)) == multiset(Faces(b[i].questions))
  }

  method ShuffleSchema(s: Schema, shuffleOptions: bool) returns (r: Schema)
    ensures Reordered(s, r)
  {
    var pages: seq<Page> := [];
    var i := 0;
    while i < |s.pages|
      invariant 0 <= i <= |s.pages|
      invariant ReorderedPages(s.pages[..i], pages)
    {
      var page := ShufflePage(s.pages[i], shuffleOptions);
      pages := pages + [page];
      i := i + 1;
    }
    assert s.pages[..i] == s.pages;
    r := s.(pages := pages);
  }

  lemma FacesAppend(a: seq<Question>, b: seq<Question>)
    ensures Faces(a + b) == Faces(a) + Faces(b)
  {
  }

  lemma {:induction false} PagesReorder(a: seq<Page>, b: seq<Page>)
    requires ReorderedPages(a, b)
    ensures multiset(Faces(AllQuestions(a))) == multiset(Faces(AllQuestions(b)))
  {
    if a != [] {
      PagesReorder(a[1..], b[1..]);
      FacesAppend(a[0].questions, AllQuestions(a[1..]));
      FacesAppend(b[0].questions, AllQuestions(b[1..]));
    }
  }

  lemma ConsFaces(q: Question, rest: seq<Question>, f: Face)
    ensures multiset(Faces([q] + rest))[f] == (if FaceOf(q) == f then 1 else 0) + multiset(Faces(rest))[f]
  {
    assert Faces([q] + rest) == [FaceOf(q)] + Faces(rest);
    ConsCount(FaceOf(q), Faces(rest), f);
  }

  lemma {:induction false} AnswerableFaces(qs: seq<Question>, f: Face)
    ensures multiset(Faces(Answerable(qs)))[f] == if IsDisplay(f.bare.kind) then 0 else multiset(Faces(qs))[f]
  {
    if qs != [] {
      var (q, rest) := (qs[0], qs[1..]);
      AnswerableFaces(rest, f);
      assert qs == [q] + rest;
      ConsFaces(q, rest, f);
      if IsDisplay(q.kind) {
        assert Answerable(qs) == Answerable(rest);
      } else {
        assert Answerable(qs) == [q] + Answerable(rest);
        ConsFaces(q, Answerable(rest), f);
      }
    }
  }

  /** However a form was shuffled for its reader, the same answers are accepted, are stored
      alike and score alike as on the form that was saved. */
  lemma ShuffledFormsGradeAlike(h: Host, a: Schema, b: Schema, answers: map<string, Value>, out: map<string, Value>)
    requires Reordered(a, b)
    ensures TotalEarned(h, Questions(a), answers) == TotalEarned(h, Questions(b), answers)
    ensures AllPass(h, Questions(a), answers) && Normalises(h, Questions(a), answers, out)
      ==> AllPass(h, Questions(b), answers) && Normalises(h, Questions(b), answers, out)
  {
    PagesReorder(a.pages, b.pages);
    assert multiset(Faces(Questions(a))) == multiset(Faces(Questions(b))) by {
      forall f: Face ensures multiset(Faces(Questions(a)))[f] == multiset(Faces(Questions(b)))[f] {
        AnswerableFaces(AllQuestions(a.pages), f);
        AnswerableFaces(AllQuestions(b.pages), f);
      }
    }
    OrderIsIrrelevant(h, Questions(a), Questions(b), answers);
    if AllPass(h, Questions(a), answers) && Normalises(h, Questions(a), answers, out) {
      OrderIsIrrelevantToValidation(h, Questions(a), Questions(b), answers, out);
    }
  }
}
