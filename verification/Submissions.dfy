// The submit handler (`post_submit` in src/routes/form_render.rs): its gates, what it stores
// and what it tells the member.
module Submissions {
  import opened Wrappers
  import opened Json
  import opened Forms
  import opened Retry
  import A = Answers
  import Quiz
  import Text

  type AnswerMap = map<string, Value>

  /** The columns of `forms` the handler reads. */
  datatype Form = Form(
    id: string,
    guild: string,
    schema: Schema,
    version: int,
    isQuiz: bool,
    singleSubmission: bool,
    allowEdits: bool,
    passing: Option<int>,
    openAt: Option<int>,
    closeAt: Option<int>,
    requireVerified: bool,
    minAgeDays: int,
    archived: bool,
    webhook: Option<string>,
    config: Config)

  datatype Mode = Unlimited | Editable | Governed

  /** A quiz always keeps one response and never takes edits, whatever its columns say. */
  function ModeOf(f: Form): Mode {
    if !(f.singleSubmission || f.isQuiz) then Unlimited
    else if f.allowEdits && !f.isQuiz then Editable
    else Governed
  }

  /** A request by a signed-in member. `stamp` is when its transaction began, `now` the clock
      the handler reads next; `ageDays` and `guilds` are what could be learnt of the account. */
  datatype Request = Request(
    user: string,
    answers: Value,
    version: int,
    stamp: int,
    now: int,
    ageDays: Option<int>,
    guilds: Option<set<string>>)

  datatype Refusal =
    | FormNotFound | StaleVersion | FormClosed | TooYoung | GatewayFailed | NotAMember
    | ValidationFailed(errors: seq<A.FieldError>)
    | PassedAlready | DuplicateSubmission | OutOfAttempts(max: int) | RetryCooldown(seconds: int)

  datatype Receipt = Receipt(
    responseId: Option<nat>,
    passed: Option<bool>,
    retriesEnabled: bool,
    attemptsLeft: Option<int>,
    nextAt: Option<int>)

  // -------------------------------------------------------------------------
  // Gates and grading
  // -------------------------------------------------------------------------

  predicate Open(f: Form, now: int) {
    (f.openAt.Some? ==> f.openAt.value <= now) && (f.closeAt.Some? ==> now <= f.closeAt.value)
  }

  function Gate(f: Form, r: Request): Option<Refusal> {
    if f.archived then Some(FormNotFound)
    else if f.version != r.version then Some(StaleVersion)
    else if !Open(f, r.now) then Some(FormClosed)
    else if f.minAgeDays > 0 && (if r.ageDays.Some? then r.ageDays.value else 0) < f.minAgeDays then Some(TooYoung)
    else if f.requireVerified && r.guilds.None? then Some(GatewayFailed)
    else if f.requireVerified && f.guild !in r.guilds.value then Some(NotAMember)
    else None
  }

  predicate Acceptable(h: Host, f: Form, r: Request) {
    r.answers.Obj? && A.AllPass(h, Questions(f.schema), r.answers.fields)
  }

  /** What an acceptable request submits: the normalised answers, graded if the form is a quiz
      and judged if it has a passing score. */
  function Grade(h: Host, f: Form, r: Request): Submission<AnswerMap>
    requires Acceptable(h, f, r)
  {
    var out := A.Outputs(h, Questions(f.schema), r.answers.fields);
    var score := if f.isQuiz then Some(Quiz.Capped(Quiz.TotalEarned(h, Questions(f.schema), out))) else None;
    Submission(r.now, r.stamp, out, f.version, score, PassedBy(f, score))
  }

  /** The stored verdict: only a quiz with a passing score has one. */
  function PassedBy(f: Form, score: Option<int>): Option<bool> {
    if f.isQuiz && score.Some? && f.passing.Some? then Some(score.value >= f.passing.value) else None
  }

  /** The verdict the member of a quiz is told: without a threshold everyone passes. */
  function Told(f: Form, score: Option<int>): Option<bool> {
    if !f.isQuiz then None
    else Some(score.Some? && (f.passing.None? || score.value >= f.passing.value))
  }

  // -------------------------------------------------------------------------
  // Storing
  // -------------------------------------------------------------------------

  datatype Entrant = Entrant(form: string, user: string)

  /** A row of `form_responses`. */
  datatype ResponseRow = ResponseRow(key: Entrant, guild: string, kept: Canonical<AnswerMap>)

  type Rows = map<nat, ResponseRow>

  predicate Owns(rows: Rows, key: Entrant, id: nat) {
    id in rows && rows[id].key == key
  }

  /** The newest row of a key, by last edit, if it has any. */
  ghost predicate Finds(rows: Rows, key: Entrant, found: Option<nat>) {
    match found
    case None => forall id | id in rows :: rows[id].key != key
    case Some(id) => Owns(rows, key, id) && forall other | Owns(rows, key, other) :: rows[other].kept.lastAt <= rows[id].kept.lastAt
  }

  function FirstAttempt(s: Submission<AnswerMap>): Canonical<AnswerMap> {
    Canonical(s.answers, s.version, s.score, s.passed, 1, s.stamp)
  }

  /** The row a submission leaves behind, given the row of its key before. */
  function Decision(f: Form, row: Option<Canonical<AnswerMap>>, s: Submission<AnswerMap>)
    : Result<Canonical<AnswerMap>, DenyReason>
  {
    match ModeOf(f)
    case Unlimited => Ok(FirstAttempt(s))
    case Editable =>
      Ok(if row.Some? then FirstAttempt(s).(attempts := row.value.attempts) else FirstAttempt(s))
    case Governed =>
      var verdict := Verdict(f.config, row, s);
      if verdict.Err? then Err(verdict.error) else Ok(Apply(f.config, row, s).value)
  }

  /** The columns the handler writes, from the row it read earlier, `seen`, onto the row as it
      is when the update lands, `now`. */
  function Update(f: Form, seen: Canonical<AnswerMap>, now: Canonical<AnswerMap>, s: Submission<AnswerMap>): Canonical<AnswerMap> {
    if ModeOf(f).Editable? then
      now.(answers := s.answers, score := s.score, passed := s.passed, version := s.version, lastAt := s.stamp)
    else
      var verdict := Verdict(f.config, Some(seen), s);
      if verdict.Err? then now
      else
        var a := verdict.value;
        if a.overwrite then Canonical(s.answers, s.version, a.score, a.passed, a.attempts, s.stamp)
        else now.(score := a.score, passed := a.passed, attempts := a.attempts, lastAt := s.stamp)
  }

  /** Writing onto the row that was read is the serial outcome; onto a row that moved since it
      would not be. */
  lemma UpdateIsOutcome(f: Form, row: Canonical<AnswerMap>, s: Submission<AnswerMap>)
    requires !ModeOf(f).Unlimited? && Decision(f, Some(row), s).Ok?
    ensures Update(f, row, row, s) == Decision(f, Some(row), s).value
  {
  }

  function DenialOf(d: DenyReason): Refusal {
    match d
    case AlreadyPassed => PassedAlready
    case AttemptsExhausted(max) => if max <= 1 then DuplicateSubmission else OutOfAttempts(max)
    case Cooldown(seconds, _) => RetryCooldown(seconds)
  }

  function ReceiptOf(f: Form, id: nat, s: Submission<AnswerMap>, kept: Canonical<AnswerMap>): Receipt {
    var governed := ModeOf(f).Governed?;
    Receipt(
      if f.isQuiz then None else Some(id),
      Told(f, s.score),
      governed && (f.config.maxAttempts != 1 || f.config.cooldownSeconds > 0),
      if governed && f.config.maxAttempts > 0 then Some(if f.config.maxAttempts < kept.attempts then 0 else f.config.maxAttempts - kept.attempts)
      else None,
      if governed && f.config.cooldownSeconds > 0 then Some(s.now + f.config.cooldownSeconds * 1000) else None)
  }

  /** Everything the handler may change. */
  datatype Store = Store(rows: Rows, nextRow: nat, syncs: seq<string>, hooks: seq<nat>)

  function SeenOf(rows: Rows, f: Form, found: Option<nat>): Option<Canonical<AnswerMap>> {
    if found.Some? && found.value in rows && !ModeOf(f).Unlimited? then Some(rows[found.value].kept) else None
  }

  /** The store after a graded submission to the form `f`, whose newest row was `found`, and
      the reply. */
  function Recorded(f: Form, user: string, found: Option<nat>, s: Submission<AnswerMap>, store: Store)
    : (Store, Result<Receipt, Refusal>)
  {
    var seen := SeenOf(store.rows, f, found);
    match Decision(f, seen, s)
    case Err(d) => (store, Err(DenialOf(d)))
    case Ok(kept) =>
      var id := if seen.Some? then found.value else store.nextRow;
      var row := if seen.Some? then store.rows[id].(kept := kept) else ResponseRow(Entrant(f.id, user), f.guild, kept);
      (Store(
         store.rows[id := row],
         if seen.Some? then store.nextRow else store.nextRow + 1,
         store.syncs + [user],
         if f.webhook.Some? && !Text.Blank(f.webhook.value) then store.hooks + [id] else store.hooks),
       Ok(ReceiptOf(f, id, s, kept)))
  }

  function Verified(h: Host, f: Form, r: Request): Result<Submission<AnswerMap>, Refusal> {
    if Acceptable(h, f, r) then Ok(Grade(h, f, r))
    else if r.answers.Obj? then Err(ValidationFailed(A.Errors(h, Questions(f.schema), r.answers.fields)))
    else Err(ValidationFailed([A.FieldError("", A.NotAnObject)]))
  }

  /** The store after a request, and the reply. */
  function Submitted(h: Host, f: Form, r: Request, found: Option<nat>, store: Store): (Store, Result<Receipt, Refusal>) {
    if Gate(f, r).Some? then (store, Err(Gate(f, r).value))
    else if Verified(h, f, r).Err? then (store, Err(Verified(h, f, r).error))
    else Recorded(f, r.user, found, Verified(h, f, r).value, store)
  }

  class Desk {
    var forms: map<string, Form>
    var rows: Rows
    var nextRow: nat
    var syncs: seq<string>
    var hooks: seq<nat>

    ghost function State(): Store
      reads this
    {
      Store(rows, nextRow, syncs, hooks)
    }

    method Newest(key: Entrant) returns (found: Option<nat>)
      ensures Finds(rows, key, found)
    {
      var rest := set id | id in rows && rows[id].key == key;
      found := None;
      while rest != {}
        invariant rest <= set id | id in rows && rows[id].key == key
        invariant found.Some? ==> Owns(rows, key, found.value)
        invariant forall other | Owns(rows, key, other) && other !in rest ::
          found.Some? && rows[other].kept.lastAt <= rows[found.value].kept.lastAt
        decreases rest
      {
        var id :| id in rest;
        rest := rest - {id};
        if found.None? || rows[id].kept.lastAt > rows[found.value].kept.lastAt {
          found := Some(id);
        }
      }
    }

    /** The checks before the answers are read. */
    static method Admit(f: Form, r: Request) returns (refusal: Option<Refusal>)
      ensures refusal == Gate(f, r)
    {
      if f.archived {
        return Some(FormNotFound);
      }
      if f.version != r.version {
        return Some(StaleVersion);
      }
      if (f.openAt.Some? && f.openAt.value > r.now) || (f.closeAt.Some? && f.closeAt.value < r.now) {
        return Some(FormClosed);
      }
      if f.minAgeDays > 0 {
        var age := if r.ageDays.Some? then r.ageDays.value else 0;
        if age < f.minAgeDays {
          return Some(TooYoung);
        }
      }
      if f.requireVerified {
        if r.guilds.None? {
          return Some(GatewayFailed);
        }
        if f.guild !in r.guilds.value {
          return Some(NotAMember);
        }
      }
      return None;
    }

    static method Verify(h: Host, f: Form, r: Request) returns (s: Result<Submission<AnswerMap>, Refusal>)
      ensures s == Verified(h, f, r)
    {
      var verified := A.Validate(h, f.schema, r.answers);
      if verified.Err? {
        return Err(ValidationFailed(verified.error));
      }
      var score: Option<int> := None;
      if f.isQuiz {
        var total := Quiz.ComputeQuizScore(h, f.schema, verified.value);
        score := Some(total);
      }
      return Ok(Submission(r.now, r.stamp, verified.value, f.version, score, PassedBy(f, score)));
    }

    /** Reads the newest row, decides, and writes. */
    method Record(f: Form, user: string, s: Submission<AnswerMap>) returns (reply: Result<Receipt, Refusal>, ghost found: Option<nat>)
      modifies `rows, `nextRow, `syncs, `hooks
      ensures Finds(old(rows), Entrant(f.id, user), found)
      ensures (State(), reply) == Recorded(f, user, found, s, old(State()))
    {
      var key := Entrant(f.id, user);
      var newest := Newest(key);
      found := newest;
      var id := nextRow;
      if ModeOf(f).Unlimited? || newest.None? {
        // The first response of its kind: an insert, which no retry rule refuses.
        rows := rows[id := ResponseRow(key, f.guild, FirstAttempt(s))];
        nextRow := nextRow + 1;
      } else {
        id := newest.value;
        var seen := rows[id].kept;
        if ModeOf(f).Governed? {
          var verdict := Decide(s.now, f.config, ExistingOf(Some(seen)), s.score, s.passed);
          if verdict.Err? {
            return Err(DenialOf(verdict.error)), newest;
          }
        }
        UpdateIsOutcome(f, seen, s);
        rows := rows[id := rows[id].(kept := Update(f, seen, rows[id].kept, s))];
      }
      syncs := syncs + [user];
      if f.webhook.Some? && !Text.Blank(f.webhook.value) {
        hooks := hooks + [id];
      }
      reply := Ok(ReceiptOf(f, id, s, rows[id].kept));
    }

    method PostSubmit(h: Host, slug: string, r: Request) returns (reply: Result<Receipt, Refusal>, ghost found: Option<nat>)
      modifies `rows, `nextRow, `syncs, `hooks
      ensures slug !in forms ==> reply == Err(FormNotFound) && State() == old(State())
      ensures slug in forms ==>
        && (found.Some? || reply.Ok? ==> Finds(old(rows), Entrant(forms[slug].id, r.user), found))
        && (State(), reply) == Submitted(h, forms[slug], r, found, old(State()))
    {
      found := None;
      if slug !in forms {
        return Err(FormNotFound), None;
      }
      var f := forms[slug];
      var refusal := Admit(f, r);
      if refusal.Some? {
        return Err(refusal.value), None;
      }
      var verified := Verify(h, f, r);
      if verified.Err? {
        return Err(verified.error), None;
      }
      reply, found := Record(f, r.user, verified.value);
    }

    /** An admin deletes one response of a form. */
    method DeleteResponse(form: string, id: nat) returns (ok: bool)
      modifies `rows, `syncs
      ensures ok <==> id in old(rows) && old(rows)[id].key.form == form
      ensures rows == if ok then old(rows) - {id} else old(rows)
      ensures syncs == if ok then old(syncs) + [old(rows)[id].key.user] else old(syncs)
    {
      ok := id in rows && rows[id].key.form == form;
      if ok {
        syncs := syncs + [rows[id].key.user];
        rows := rows - {id};
      }
    }
  }

  // -------------------------------------------------------------------------
  // What a request can and cannot do
  // -------------------------------------------------------------------------

  /** A request touches at most one row, which is the member's own on that form and, on a form
      that keeps one response, the only one if there was at most one. */
  lemma OneRowIsTouched(h: Host, f: Form, r: Request, found: Option<nat>, store: Store)
    requires Finds(store.rows, Entrant(f.id, r.user), found) && forall id | id in store.rows :: id < store.nextRow
    ensures var (after, reply) := Submitted(h, f, r, found, store);
      && (reply.Err? ==> after == store)
      && (reply.Ok? ==> after.syncs == store.syncs + [r.user])
      && (forall id | id in after.rows && (id !in store.rows || after.rows[id] != store.rows[id]) :: Owns(after.rows, Entrant(f.id, r.user), id))
      && (forall id | id in store.rows :: id in after.rows && after.rows[id].guild == store.rows[id].guild)
      && (!ModeOf(f).Unlimited? && found.Some? ==> after.rows.Keys == store.rows.Keys)
      && (reply.Ok? && (ModeOf(f).Unlimited? || found.None?) ==> after.rows.Keys == store.rows.Keys + {store.nextRow})
  {
  }

  /** What the receipt says matches what the form page would show from then on: the same number
      of attempts left, and a next time that is late by exactly the time between the start of
      the transaction and the handler's clock, so that waiting for it always suffices. */
  lemma ReceiptMatchesPage(f: Form, id: nat, s: Submission<AnswerMap>, row: Option<Canonical<AnswerMap>>, later: int)
    requires ModeOf(f).Governed? && Decision(f, row, s).Ok?
    ensures var kept := Decision(f, row, s).value;
      var (receipt, page) := (ReceiptOf(f, id, s, kept), StatusOf(f.config, ExistingOf(Some(kept)), later));
      && receipt.attemptsLeft == page.attemptsLeft
      && page.passed == kept.passed
      && (page.nextAt.Some? ==> receipt.nextAt == Some(page.nextAt.value + s.now - s.stamp))
      && (receipt.nextAt.Some? && s.stamp <= s.now && later >= receipt.nextAt.value ==> page.nextAt.None?)
  {
  }

  /** The stored verdict and the told one agree wherever there is a threshold; the score told
      of is the attempt's own, not the best one's. */
  lemma VerdictsAgree(h: Host, f: Form, r: Request)
    requires Acceptable(h, f, r)
    ensures var s := Grade(h, f, r);
      && (f.isQuiz <==> s.score.Some?)
      && (s.score.Some? ==> 0 <= s.score.value <= Text.I32_MAX)
      && (s.passed.Some? <==> f.isQuiz && f.passing.Some?)
      && (s.passed.Some? ==> Told(f, s.score) == s.passed)
      && (f.isQuiz && f.passing.None? ==> Told(f, s.score) == Some(true))
  {
    Quiz.EarnedWithinWorth(h, Questions(f.schema), A.Outputs(h, Questions(f.schema), r.answers.fields));
  }

  /** Who is let in: a live form, answered at the version it has now, inside its opening hours,
      by an account known to be old enough and, if the form asks, known to be in its guild. What
      could not be learnt of the account never counts in its favour. */
  lemma AdmissionMeans(f: Form, r: Request)
    ensures Gate(f, r).None? <==>
      && !f.archived && r.version == f.version
      && (f.openAt == None || f.openAt.value <= r.now) && (f.closeAt == None || r.now <= f.closeAt.value)
      && (f.minAgeDays <= 0 || (r.ageDays.Some? && f.minAgeDays <= r.ageDays.value))
      && (!f.requireVerified || (r.guilds.Some? && f.guild in r.guilds.value))
    ensures Gate(f, r) == Some(GatewayFailed) ==> r.guilds.None? && f.requireVerified
  {
  }

  /** A form lets a member in during one stretch of time: never in, out and in again. */
  lemma AdmissionIsOneStretch(f: Form, r: Request, early: int, late: int)
    requires Gate(f, r.(now := early)).None? && Gate(f, r.(now := late)).None? && early <= r.now <= late
    ensures Gate(f, r).None?
  {
  }

  /** Nothing is stored of anyone who is not let in, and every answer that is stored was given
      to the version of the form it is filed under. */
  lemma OnlyTheAdmittedAreStored(h: Host, f: Form, r: Request, found: Option<nat>, store: Store)
    requires Finds(store.rows, Entrant(f.id, r.user), found) && forall id | id in store.rows :: id < store.nextRow
    ensures var (after, reply) := Submitted(h, f, r, found, store);
      && (after != store ==> Gate(f, r).None? && Acceptable(h, f, r) && reply.Ok?)
      && forall id | id in after.rows && !(id in store.rows && after.rows[id].kept.answers == store.rows[id].kept.answers) ::
           after.rows[id].kept.version == r.version && after.rows[id].kept.answers == Grade(h, f, r).answers
  {
  }

  /** On a form that keeps one response and takes no edits, a member who answered before is
      never given a second row, and on a one-shot form never a second try: the repeat is a
      duplicate, or, where passing locks and they passed, already passed. */
  lemma OneShotFormsAnswerOnce(h: Host, f: Form, r: Request, found: Option<nat>, store: Store)
    requires Finds(store.rows, Entrant(f.id, r.user), found) && found.Some?
    requires ModeOf(f).Governed? && f.config.maxAttempts == 1
    requires store.rows[found.value].kept.attempts >= 1
    ensures Submitted(h, f, r, found, store).0 == store
    ensures Gate(f, r).None? && Acceptable(h, f, r) ==>
      Submitted(h, f, r, found, store).1
      == Err(if f.config.lockOnPass && store.rows[found.value].kept.passed == Some(true) then PassedAlready else DuplicateSubmission)
  {
  }
}
