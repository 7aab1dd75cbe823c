// Form definitions (src/models/form.rs) and their save-time check (`sanity_check` in
// src/services/form_validator.rs).
module Forms {
  import opened Wrappers
  import opened Text
  import opened Json

  datatype QuestionKind =
    | ShortText | LongText | Number | SingleChoice | MultiChoice | Dropdown | Scale
    | Date | Email | Agreement | Info | Image | Video

  datatype Choice = Choice(id: string, caption: string)

  datatype Question = Question(
    id: string,
    kind: QuestionKind,
    title: string,
    required: bool,
    maxLength: Option<int>,
    min: Option<Decimal>,
    max: Option<Decimal>,
    options: Option<seq<Choice>>,
    correct: Option<Value>,
    points: Option<int>,
    mediaUrl: string,
    altText: string)

  datatype Page = Page(id: string, questions: seq<Question>)

  datatype Schema = Schema(title: string, description: string, pages: seq<Page>)

  const MAX_QUESTIONS: nat := 50
  const MAX_PAGES: nat := 10
  const MAX_OPTIONS: nat := 50

  predicate IsDisplay(k: QuestionKind) {
    k.Info? || k.Image? || k.Video?
  }

  predicate IsChoice(k: QuestionKind) {
    k.SingleChoice? || k.MultiChoice? || k.Dropdown?
  }

  function AllQuestions(pages: seq<Page>): seq<Question> {
    if pages == [] then [] else pages[0].questions + AllQuestions(pages[1..])
  }

  function Answerable(qs: seq<Question>): (r: seq<Question>)
    ensures forall q :: q in r <==> q in qs && !IsDisplay(q.kind)
    ensures |r| <= |qs|
  {
    if qs == [] then []
    else
      assert qs == [qs[0]] + qs[1..];
      (if IsDisplay(qs[0].kind) then [] else [qs[0]]) + Answerable(qs[1..])
  }

  /** `iter_questions`. */
  function Questions(s: Schema): seq<Question> {
    Answerable(AllQuestions(s.pages))
  }

  predicate DistinctIds(qs: seq<Question>) {
    forall i, j | 0 <= i < j < |qs| :: qs[i].id != qs[j].id
  }

  function ChoicesOf(q: Question): seq<Choice> {
    if q.options.Some? then q.options.value else []
  }

  // -------------------------------------------------------------------------
  // Sanity
  // -------------------------------------------------------------------------

  function AsciiLower(s: string): string {
    seq(|s|, i requires 0 <= i < |s| => if 'A' <= s[i] <= 'Z' then (s[i] as int + 32) as char else s[i])
  }

  predicate SafeMediaUrl(url: string) {
    var lower := AsciiLower(Trim(url));
    && !("javascript:" <= lower || "data:" <= lower || "vbscript:" <= lower || "file:" <= lower)
    && ("http://" <= lower || "https://" <= lower)
  }

  predicate SaneChoices(cs: seq<Choice>) {
    && 0 < |cs| <= MAX_OPTIONS
    && (forall c | c in cs :: !Blank(c.id) && |c.caption| <= 200)
    && (forall i, j | 0 <= i < j < |cs| :: cs[i].id != cs[j].id)
  }

  predicate SaneKind(q: Question) {
    match q.kind
    case SingleChoice => SaneChoices(ChoicesOf(q))
    case MultiChoice => SaneChoices(ChoicesOf(q))
    case Dropdown => SaneChoices(ChoicesOf(q))
    case Scale => SaneRange(q)
    case Number => SaneRange(q)
    case Agreement => q.required
    case Image => SaneMedia(q.mediaUrl) && |q.altText| <= 200
    case Video => SaneMedia(q.mediaUrl)
    case _ => true
  }

  predicate SaneRange(q: Question) {
    q.min.Some? && q.max.Some? ==> RealOf(q.min.value) <= RealOf(q.max.value)
  }

  predicate SaneMedia(url: string) {
    !Blank(url) && SafeMediaUrl(Trim(url)) && |Trim(url)| <= 2048
  }

  predicate SaneQuestion(q: Question) {
    !Blank(q.id) && (Blank(q.title) ==> IsDisplay(q.kind)) && SaneKind(q)
  }

  predicate SaneQuestions(qs: seq<Question>) {
    (forall q | q in qs :: SaneQuestion(q)) && DistinctIds(qs)
  }

  predicate SanePages(pages: seq<Page>) {
    && (forall p | p in pages :: !Blank(p.id))
    && (forall i, j | 0 <= i < j < |pages| :: pages[i].id != pages[j].id)
  }

  predicate SaneHeader(s: Schema) {
    !Blank(s.title) && |s.title| <= 200 && |s.description| <= 2000 && 0 < |s.pages| <= MAX_PAGES
  }

  predicate Sane(s: Schema) {
    && SaneHeader(s) && SanePages(s.pages)
    && SaneQuestions(AllQuestions(s.pages)) && |AllQuestions(s.pages)| <= MAX_QUESTIONS
  }

  datatype FormIssue = BadHeader | BadPage(page: nat) | BadQuestion(id: string) | DuplicateQuestion(id: string) | TooManyQuestions

  lemma {:induction false} AllQuestionsSnoc(pages: seq<Page>, p: Page)
    ensures AllQuestions(pages + [p]) == AllQuestions(pages) + p.questions
  {
    if pages == [] {
      assert AllQuestions([p]) == p.questions + [];
    } else {
      assert (pages + [p])[1..] == pages[1..] + [p];
      AllQuestionsSnoc(pages[1..], p);
    }
  }

  function NonBlankIds(qs: seq<Question>): set<string> {
    set q | q in qs && !Blank(q.id) :: q.id
  }

  lemma SaneSnoc(qs: seq<Question>, q: Question)
    ensures SaneQuestions(qs + [q]) <==> SaneQuestions(qs) && SaneQuestion(q) && q.id !in NonBlankIds(qs)
    ensures NonBlankIds(qs + [q]) == NonBlankIds(qs) + if Blank(q.id) then {} else {q.id}
  {
    var all := qs + [q];
    assert forall x :: x in all <==> x in qs || x == q;
    if SaneQuestions(all) {
      assert forall i | 0 <= i < |qs| :: all[i] == qs[i];
      assert all[|qs|] == q;
      assert q in all;
    }
  }

  lemma OneMoreQuestion(walked: seq<Question>, qs: seq<Question>, i: nat)
    requires i < |qs|
    ensures SaneQuestions(walked + qs[..i + 1])
      <==> SaneQuestions(walked + qs[..i]) && SaneQuestion(qs[i]) && qs[i].id !in NonBlankIds(walked + qs[..i])
    ensures NonBlankIds(walked + qs[..i + 1]) == NonBlankIds(walked + qs[..i]) + if Blank(qs[i].id) then {} else {qs[i].id}
  {
    assert walked + qs[..i + 1] == walked + qs[..i] + [qs[i]];
    SaneSnoc(walked + qs[..i], qs[i]);
  }

  /** Checks the questions of one page against those walked before it. */
  method CheckQuestions(qs: seq<Question>, before: set<string>, ghost walked: seq<Question>)
    returns (found: seq<FormIssue>, seen: set<string>)
    requires before == NonBlankIds(walked)
    ensures seen == NonBlankIds(walked + qs)
    ensures SaneQuestions(walked + qs) <==> SaneQuestions(walked) && found == []
  {
    found, seen := [], before;
    var i := 0;
    assert walked + qs[..0] == walked;
    while i < |qs|
      invariant 0 <= i <= |qs|
      invariant seen == NonBlankIds(walked + qs[..i])
      invariant SaneQuestions(walked + qs[..i]) <==> SaneQuestions(walked) && found == []
    {
      var q := qs[i];
      OneMoreQuestion(walked, qs, i);
      if q.id in seen {
        found := found + [DuplicateQuestion(q.id)];
      }
      if !SaneQuestion(q) {
        found := found + [BadQuestion(q.id)];
      }
      if !Blank(q.id) {
        seen := seen + {q.id};
      }
      i := i + 1;
    }
    assert walked + qs[..i] == walked + qs;
  }

  lemma OneMorePage(pages: seq<Page>, i: nat)
    requires i < |pages|
    ensures AllQuestions(pages[..i + 1]) == AllQuestions(pages[..i]) + pages[i].questions
    ensures SanePages(pages[..i + 1])
      <==> SanePages(pages[..i]) && !Blank(pages[i].id) && pages[i].id !in NonBlankPageIds(pages[..i])
    ensures NonBlankPageIds(pages[..i + 1])
      == NonBlankPageIds(pages[..i]) + if Blank(pages[i].id) then {} else {pages[i].id}
  {
    assert pages[..i + 1] == pages[..i] + [pages[i]];
    AllQuestionsSnoc(pages[..i], pages[i]);
    SanePagesSnoc(pages[..i], pages[i]);
  }

  /** The save-time walk reports no error exactly for sane schemas. */
  method SanityCheck(s: Schema) returns (errors: seq<FormIssue>)
    ensures errors == [] <==> Sane(s)
  {
    errors := [];
    if !SaneHeader(s) {
      errors := errors + [BadHeader];
    }
    var seenPages: set<string> := {};
    var seen: set<string> := {};
    ghost var walked: seq<Question> := [];
    var total := 0;
    var pi := 0;
    while pi < |s.pages|
      invariant 0 <= pi <= |s.pages|
      invariant seenPages == NonBlankPageIds(s.pages[..pi])
      invariant walked == AllQuestions(s.pages[..pi]) && total == |walked|
      invariant seen == NonBlankIds(walked)
      invariant errors == [] <==> SaneHeader(s) && SanePages(s.pages[..pi]) && SaneQuestions(walked)
    {
      var page := s.pages[pi];
      OneMorePage(s.pages, pi);
      if Blank(page.id) || page.id in seenPages {
        errors := errors + [BadPage(pi)];
      }
      if !Blank(page.id) {
        seenPages := seenPages + {page.id};
      }
      var found;
      found, seen := CheckQuestions(page.questions, seen, walked);
      errors := errors + found;
      total := total + |page.questions|;
      walked := walked + page.questions;
      pi := pi + 1;
    }
    assert s.pages[..pi] == s.pages;
    if total > MAX_QUESTIONS {
      errors := errors + [TooManyQuestions];
    }
  }

  function NonBlankPageIds(pages: seq<Page>): set<string> {
    set p | p in pages && !Blank(p.id) :: p.id
  }

  lemma SanePagesSnoc(pages: seq<Page>, p: Page)
    ensures SanePages(pages + [p])
      <==> SanePages(pages) && !Blank(p.id) && p.id !in NonBlankPageIds(pages)
    ensures NonBlankPageIds(pages + [p]) == NonBlankPageIds(pages) + if Blank(p.id) then {} else {p.id}
  {
    var all := pages + [p];
    assert forall x :: x in all <==> x in pages || x == p;
    if SanePages(all) {
      assert forall i | 0 <= i < |pages| :: all[i] == pages[i];
      assert all[|pages|] == p;
    }
  }

  lemma {:induction false} AnswerableDistinct(qs: seq<Question>)
    requires DistinctIds(qs)
    ensures DistinctIds(Answerable(qs))
  {
    if qs != [] {
      var rest := Answerable(qs[1..]);
      AnswerableDistinct(qs[1..]);
      forall q | q in rest ensures q.id != qs[0].id {
        assert q in qs[1..];
      }
      assert DistinctIds([qs[0]] + rest);
    }
  }

  /** A sane form has at most fifty answerable questions, with distinct ids. */
  lemma SaneFormsAreIndexed(s: Schema)
    requires Sane(s)
    ensures DistinctIds(Questions(s)) && |Questions(s)| <= MAX_QUESTIONS
    ensures forall q | q in Questions(s) :: SaneQuestion(q) && !IsDisplay(q.kind)
  {
    AnswerableDistinct(AllQuestions(s.pages));
  }
}
