// Concurrent submit transactions (`post_submit` in src/routes/form_render.rs) as a state
// machine: the shared lock on the form row, the advisory lock on (form, member), the row lock
// of SELECT … FOR UPDATE, and the deletions and form edits that run beside them.
module SubmitRuns {
  import opened Wrappers
  import opened Json
  import opened Retry
  import opened Submissions
  import Text

  /** `Begun` has read the form row `FOR SHARE` and graded the request; `Locked` holds the
      advisory lock; `Looked` has read and locked the newest row of its key, if any. */
  datatype Phase = Begun | Locked | Looked(found: Option<nat>, seen: Option<Canonical<AnswerMap>>)

  datatype Txn = Txn(form: Form, user: string, sub: Submission<AnswerMap>, phase: Phase)

  /** What became of a key, in commit order. */
  datatype LogEntry = Decided(form: Form, sub: Submission<AnswerMap>) | Removed

  /** `log` records the decisions taken and the removals made; no step reads it. */
  datatype Db = Db(
    host: Host,
    forms: map<string, Form>,
    rows: Rows,
    nextRow: nat,
    txns: map<nat, Txn>,
    log: map<Entrant, seq<LogEntry>>)

  datatype Step =
    | Begin(t: nat, formId: string, request: Request)
    | Acquire(a: nat)
    | Look(l: nat, newest: Option<nat>)
    | Commit(c: nat)
    | Rollback(r: nat)
    | Delete(id: nat)
    | SaveForm(form: Form)

  function KeyOf(x: Txn): Entrant {
    Entrant(x.form.id, x.user)
  }

  function LogOf(db: Db, key: Entrant): seq<LogEntry> {
    if key in db.log then db.log[key] else []
  }

  predicate HoldsKey(x: Txn, key: Entrant) {
    KeyOf(x) == key && !x.phase.Begun?
  }

  /** Blocking is not being enabled: a second holder of the advisory lock, a deletion of a
      locked row and an edit of a form being submitted to all wait. */
  ghost predicate Enabled(db: Db, step: Step) {
    match step
    case Begin(t, formId, request) =>
      && t !in db.txns && formId in db.forms
      && Gate(db.forms[formId], request).None? && Acceptable(db.host, db.forms[formId], request)
    case Acquire(t) =>
      && t in db.txns && db.txns[t].phase.Begun? && !ModeOf(db.txns[t].form).Unlimited?
      && forall other | other in db.txns :: !HoldsKey(db.txns[other], KeyOf(db.txns[t]))
    case Look(t, newest) =>
      t in db.txns && db.txns[t].phase.Locked? && Finds(db.rows, KeyOf(db.txns[t]), newest)
    case Commit(t) =>
      t in db.txns && if ModeOf(db.txns[t].form).Unlimited? then db.txns[t].phase.Begun? else db.txns[t].phase.Looked?
    case Rollback(t) => t in db.txns
    case Delete(id) =>
      id in db.rows && forall t | t in db.txns && db.txns[t].phase.Looked? :: db.txns[t].phase.found != Some(id)
    case SaveForm(form) => forall t | t in db.txns :: db.txns[t].form.id != form.id
  }

  function Append(db: Db, key: Entrant, entry: LogEntry): map<Entrant, seq<LogEntry>> {
    db.log[key := LogOf(db, key) + [entry]]
  }

  /** The insert or update of a commit: an update writes the columns computed from what was
      read onto whatever the row holds by then. */
  function Written(db: Db, x: Txn): (Rows, nat) {
    var seen := if x.phase.Looked? then x.phase.seen else None;
    var next := Decision(x.form, seen, x.sub);
    if next.Err? then (db.rows, db.nextRow)
    else if seen.None? || x.phase.found.None? then
      (db.rows[db.nextRow := ResponseRow(KeyOf(x), x.form.guild, next.value)], db.nextRow + 1)
    else if x.phase.found.value in db.rows then
      var (id, row) := (x.phase.found.value, db.rows[x.phase.found.value]);
      (db.rows[id := row.(kept := Update(x.form, seen.value, row.kept, x.sub))], db.nextRow)
    else (db.rows, db.nextRow)
  }

  function Next(db: Db, step: Step): Db {
    match step
    case Begin(t, formId, request) =>
      if formId in db.forms && Acceptable(db.host, db.forms[formId], request) then
        var f := db.forms[formId];
        db.(txns := db.txns[t := Txn(f, request.user, Grade(db.host, f, request), Begun)])
      else db
    case Acquire(t) =>
      if t in db.txns then db.(txns := db.txns[t := db.txns[t].(phase := Locked)]) else db
    case Look(t, newest) =>
      if t in db.txns then
        var seen := if newest.Some? && newest.value in db.rows then Some(db.rows[newest.value].kept) else None;
        db.(txns := db.txns[t := db.txns[t].(phase := Looked(newest, seen))])
      else db
    case Commit(t) =>
      if t in db.txns then
        var x := db.txns[t];
        var (rows, nextRow) := Written(db, x);
        db.(rows := rows, nextRow := nextRow, txns := db.txns - {t}, log := Append(db, KeyOf(x), Decided(x.form, x.sub)))
      else db
    case Rollback(t) => db.(txns := db.txns - {t})
    case Delete(id) =>
      if id in db.rows then db.(rows := db.rows - {id}, log := Append(db, db.rows[id].key, Removed)) else db
    case SaveForm(form) => db.(forms := db.forms[form.id := form])
  }

  // -------------------------------------------------------------------------
  // The serial meaning of a log
  // -------------------------------------------------------------------------

  /** The row a key has if its entries happen one after another, none overlapping. */
  function Serial(log: seq<LogEntry>): Option<Canonical<AnswerMap>> {
    if log == [] then None
    else
      var before := Serial(log[..|log| - 1]);
      match log[|log| - 1]
      case Removed => None
      case Decided(form, sub) =>
        var next := Decision(form, before, sub);
        if next.Ok? then Some(next.value) else before
  }

  lemma SerialSnoc(log: seq<LogEntry>, entry: LogEntry)
    ensures Serial(log + [entry]) == match entry
      case Removed => None
      case Decided(form, sub) => if Decision(form, Serial(log), sub).Ok? then Some(Decision(form, Serial(log), sub).value) else Serial(log)
  {
  }

  // -------------------------------------------------------------------------
  // Invariant, for one form that keeps one response per member
  // -------------------------------------------------------------------------

  predicate Single(f: Form) {
    !ModeOf(f).Unlimited?
  }

  /** Open transactions see the form as it is. */
  ghost predicate FormFrozen(db: Db, form: string) {
    && (forall f | f in db.forms :: db.forms[f].id == f)
    && (form in db.forms ==> Single(db.forms[form]))
    && forall t | t in db.txns && db.txns[t].form.id == form :: form in db.forms && db.txns[t].form == db.forms[form]
  }

  /** Row ids are not reused, and a locked row stays and stays its key's, on every form. */
  ghost predicate Rooted(db: Db) {
    && (forall id | id in db.rows :: id < db.nextRow)
    && forall t | t in db.txns && db.txns[t].phase.Looked? :: HoldsItsRow(db.rows, db.txns[t])
  }

  predicate HoldsItsRow(rows: Rows, x: Txn)
    requires x.phase.Looked?
  {
    && (x.phase.seen.Some? <==> x.phase.found.Some?)
    && (x.phase.found.Some? ==> Owns(rows, KeyOf(x), x.phase.found.value))
  }

  ghost predicate OneHolder(db: Db, key: Entrant) {
    forall t, u | t in db.txns && u in db.txns && HoldsKey(db.txns[t], key) && HoldsKey(db.txns[u], key) :: t == u
  }

  ghost predicate OneRow(rows: Rows, key: Entrant) {
    forall i, j | Owns(rows, key, i) && Owns(rows, key, j) :: i == j
  }

  /** A transaction that has read its row still sees what the table holds. */
  ghost predicate ReadsCurrent(db: Db, key: Entrant) {
    forall t | t in db.txns && KeyOf(db.txns[t]) == key && db.txns[t].phase.Looked? ::
      Current(db.rows, key, db.txns[t].phase.found, db.txns[t].phase.seen)
  }

  ghost predicate Current(rows: Rows, key: Entrant, found: Option<nat>, seen: Option<Canonical<AnswerMap>>) {
    match found
    case None => seen == None && forall id :: !Owns(rows, key, id)
    case Some(id) => Owns(rows, key, id) && seen == Some(rows[id].kept)
  }

  /** The table holds what the log of the key means. */
  ghost predicate Means(rows: Rows, key: Entrant, log: seq<LogEntry>) {
    match Serial(log)
    case None => forall id :: !Owns(rows, key, id)
    case Some(kept) => exists id :: Owns(rows, key, id) && rows[id].kept == kept
  }

  ghost predicate KeySound(db: Db, key: Entrant) {
    OneHolder(db, key) && OneRow(db.rows, key) && ReadsCurrent(db, key) && Means(db.rows, key, LogOf(db, key))
  }

  ghost predicate Inv(db: Db, form: string) {
    FormFrozen(db, form) && Rooted(db) && forall key: Entrant | key.form == form :: KeySound(db, key)
  }

  /** The form is saved only as one that keeps a single response. */
  predicate KeepsSingle(step: Step, form: string) {
    step.SaveForm? && step.form.id == form ==> Single(step.form)
  }

  ghost predicate SameRows(rows: Rows, rows': Rows, key: Entrant) {
    forall id :: (Owns(rows, key, id) <==> Owns(rows', key, id)) && (Owns(rows, key, id) ==> rows[id] == rows'[id])
  }

  /** Nothing a key's soundness rests on but its own rows, holders and log. */
  lemma KeyFrame(db: Db, after: Db, key: Entrant)
    requires KeySound(db, key) && SameRows(db.rows, after.rows, key) && LogOf(after, key) == LogOf(db, key)
    requires forall t | t in after.txns && HoldsKey(after.txns[t], key) :: t in db.txns && db.txns[t] == after.txns[t]
    ensures KeySound(after, key)
  {
  }

  lemma FirstIsNeverRefused(f: Form, s: Submission<AnswerMap>)
    ensures Decision(f, None, s).Ok?
  {
  }

  /** What the one row of a key holds, if it has one. */
  lemma OnlyRow(db: Db, key: Entrant, id: nat)
    requires KeySound(db, key) && Owns(db.rows, key, id)
    ensures Serial(LogOf(db, key)) == Some(db.rows[id].kept)
  {
  }

  /** What a commit writes is the serial outcome on the row it read. */
  lemma CommitWrites(db: Db, t: nat)
    requires Enabled(db, Commit(t)) && KeySound(db, KeyOf(db.txns[t])) && Rooted(db) && Single(db.txns[t].form)
    ensures var (x, rows, key) := (db.txns[t], Next(db, Commit(t)).rows, KeyOf(db.txns[t]));
      && Means(rows, key, LogOf(db, key) + [Decided(x.form, x.sub)])
      && OneRow(rows, key)
  {
    var (x, key) := (db.txns[t], KeyOf(db.txns[t]));
    var (rows, _) := Written(db, x);
    SerialSnoc(LogOf(db, key), Decided(x.form, x.sub));
    assert Current(db.rows, key, x.phase.found, x.phase.seen);
    match x.phase.found {
      case None =>
        FirstIsNeverRefused(x.form, x.sub);
        assert Owns(rows, key, db.nextRow);
        assert forall id | Owns(rows, key, id) && id != db.nextRow :: Owns(db.rows, key, id);
      case Some(id) =>
        OnlyRow(db, key, id);
        if Decision(x.form, x.phase.seen, x.sub).Ok? {
          UpdateIsOutcome(x.form, x.phase.seen.value, x.sub);
        }
        assert Owns(rows, key, id);
        assert forall i | Owns(rows, key, i) :: Owns(db.rows, key, i);
    }
  }

  lemma CommitSparesOthers(db: Db, t: nat, key: Entrant)
    requires Enabled(db, Commit(t)) && KeyOf(db.txns[t]) != key && Rooted(db)
    ensures SameRows(db.rows, Next(db, Commit(t)).rows, key)
  {
  }

  lemma CommitKeepsKey(db: Db, t: nat, key: Entrant)
    requires Enabled(db, Commit(t)) && Rooted(db) && KeySound(db, key)
    requires KeyOf(db.txns[t]) == key ==> Single(db.txns[t].form)
    ensures KeySound(Next(db, Commit(t)), key)
  {
    var after := Next(db, Commit(t));
    if KeyOf(db.txns[t]) == key {
      CommitWrites(db, t);
      assert HoldsKey(db.txns[t], key);
      assert forall u | u in after.txns :: !HoldsKey(after.txns[u], key);
    } else {
      CommitSparesOthers(db, t, key);
      KeyFrame(db, after, key);
    }
  }

  lemma LockedRowsStay(db: Db, id: nat, t: nat)
    requires Enabled(db, Delete(id)) && KeySound(db, db.rows[id].key) && t in db.txns && KeyOf(db.txns[t]) == db.rows[id].key
    ensures !db.txns[t].phase.Looked?
  {
    assert Owns(db.rows, db.rows[id].key, id);
  }

  lemma DeleteEmptiesKey(db: Db, id: nat)
    requires Enabled(db, Delete(id)) && KeySound(db, db.rows[id].key)
    ensures var (after, key) := (Next(db, Delete(id)), db.rows[id].key);
      && (forall i :: !Owns(after.rows, key, i))
      && Means(after.rows, key, LogOf(after, key))
  {
    var (after, key) := (Next(db, Delete(id)), db.rows[id].key);
    assert Owns(db.rows, key, id);
    forall i: nat ensures !Owns(after.rows, key, i) {
      if Owns(after.rows, key, i) {
        assert Owns(db.rows, key, i);
      }
    }
    SerialSnoc(LogOf(db, key), Removed);
    assert LogOf(after, key) == LogOf(db, key) + [Removed];
  }

  lemma DeleteKeepsKey(db: Db, id: nat, key: Entrant)
    requires Enabled(db, Delete(id)) && KeySound(db, key)
    ensures KeySound(Next(db, Delete(id)), key)
  {
    var after := Next(db, Delete(id));
    if db.rows[id].key == key {
      DeleteEmptiesKey(db, id);
      assert OneRow(after.rows, key) && OneHolder(after, key);
      forall t | t in after.txns && KeyOf(after.txns[t]) == key ensures !after.txns[t].phase.Looked? {
        LockedRowsStay(db, id, t);
      }
      assert ReadsCurrent(after, key);
    } else {
      KeyFrame(db, after, key);
    }
  }

  lemma AcquireKeepsKey(db: Db, t: nat, key: Entrant)
    requires Enabled(db, Acquire(t)) && KeySound(db, key)
    ensures KeySound(Next(db, Acquire(t)), key)
  {
  }

  lemma LookKeepsKey(db: Db, t: nat, newest: Option<nat>, key: Entrant)
    requires Enabled(db, Look(t, newest)) && KeySound(db, key)
    ensures KeySound(Next(db, Look(t, newest)), key)
  {
  }

  lemma StepKeepsRoots(db: Db, step: Step)
    requires Enabled(db, step) && Rooted(db)
    ensures Rooted(Next(db, step))
  {
  }

  lemma StepKeepsFrozen(db: Db, step: Step, form: string)
    requires Enabled(db, step) && FormFrozen(db, form) && KeepsSingle(step, form)
    ensures FormFrozen(Next(db, step), form)
  {
  }

  lemma StepKeepsInv(db: Db, step: Step, form: string)
    requires Inv(db, form) && Enabled(db, step) && KeepsSingle(step, form)
    ensures Inv(Next(db, step), form)
  {
    StepKeepsRoots(db, step);
    StepKeepsFrozen(db, step, form);
    forall key: Entrant | key.form == form ensures KeySound(Next(db, step), key) {
      match step
      case Commit(t) => CommitKeepsKey(db, t, key);
      case Delete(id) => DeleteKeepsKey(db, id, key);
      case Acquire(t) => AcquireKeepsKey(db, t, key);
      case Look(t, newest) => LookKeepsKey(db, t, newest, key);
      case _ => KeyFrame(db, Next(db, step), key);
    }
  }

  // -------------------------------------------------------------------------
  // Whole runs
  // -------------------------------------------------------------------------

  function Run(db: Db, steps: seq<Step>): Db
    decreases |steps|
  {
    if steps == [] then db else Run(Next(db, steps[0]), steps[1..])
  }

  /** Any interleaving of any number of transactions, deletions and edits during which the form
      keeps a single response per member. */
  ghost predicate Possible(db: Db, steps: seq<Step>, form: string)
    decreases |steps|
  {
    steps != [] ==>
      Enabled(db, steps[0]) && KeepsSingle(steps[0], form) && Possible(Next(db, steps[0]), steps[1..], form)
  }

  predicate Fresh(db: Db, form: string) {
    && db.rows == map[] && db.txns == map[] && db.log == map[]
    && (forall f | f in db.forms :: db.forms[f].id == f)
    && (form in db.forms ==> Single(db.forms[form]))
  }

  lemma {:induction false} RunKeepsInv(db: Db, steps: seq<Step>, form: string)
    requires Inv(db, form) && Possible(db, steps, form)
    ensures Inv(Run(db, steps), form)
    decreases |steps|
  {
    if steps != [] {
      StepKeepsInv(db, steps[0], form);
      RunKeepsInv(Next(db, steps[0]), steps[1..], form);
    }
  }

  /** Whatever the interleaving, a key has at most one row, and that row is exactly what its
      committed decisions and removals give one after another. */
  lemma InterleavingsAreSerial(db: Db, steps: seq<Step>, key: Entrant)
    requires Fresh(db, key.form) && Possible(db, steps, key.form)
    ensures var after := Run(db, steps);
      && OneRow(after.rows, key)
      && (forall id | Owns(after.rows, key, id) :: Serial(LogOf(after, key)) == Some(after.rows[id].kept))
      && (Serial(LogOf(after, key)).Some? ==> exists id :: Owns(after.rows, key, id))
  {
    forall k: Entrant | k.form == key.form ensures KeySound(db, k) {
      assert LogOf(db, k) == [];
    }
    assert Inv(db, key.form);
    RunKeepsInv(db, steps, key.form);
    assert KeySound(Run(db, steps), key);
  }

  /** A member is refused or let through exactly as in that serial order. */
  lemma RepliesAreSerial(db: Db, t: nat, form: string)
    requires Inv(db, form) && Enabled(db, Commit(t)) && db.txns[t].form.id == form
    ensures var x := db.txns[t]; Decision(x.form, x.phase.seen, x.sub) == Decision(x.form, Serial(LogOf(db, KeyOf(x))), x.sub)
  {
  }

  // -------------------------------------------------------------------------
  // Attempts under one fixed retry configuration
  // -------------------------------------------------------------------------

  /** What stays the same of a form's grading: nothing, that it is a quiz, or its passing score,
      or lack of one, as well. */
  datatype Grading = AnyForm | AnyQuiz | FixedQuiz(passing: Option<int>)

  /** The form is retry-governed by this configuration and graded like this. */
  predicate Fixed(f: Form, c: Config, g: Grading) {
    ModeOf(f).Governed? && f.config == c && (!g.AnyForm? ==> f.isQuiz) && (g.FixedQuiz? ==> f.passing == g.passing)
  }

  predicate StaysFixed(step: Step, form: string, c: Config, g: Grading) {
    step.SaveForm? && step.form.id == form ==> Fixed(step.form, c, g)
  }

  /** A submission graded as its form says. */
  predicate Fits(f: Form, s: Submission<AnswerMap>) {
    && (f.isQuiz <==> s.score.Some?) && (s.score.Some? ==> s.score.value >= 0)
    && s.passed == PassedBy(f, s.score)
  }

  predicate FixedEntry(e: LogEntry, c: Config, g: Grading) {
    e.Decided? ==> Fixed(e.form, c, g) && Fits(e.form, e.sub)
  }

  ghost predicate AllFixed(db: Db, form: string, c: Config, g: Grading) {
    && (form in db.forms ==> Fixed(db.forms[form], c, g))
    && (forall x | x in db.txns && db.txns[x].form.id == form :: Fits(db.txns[x].form, db.txns[x].sub))
    && forall key: Entrant | key.form == form :: FixedLog(LogOf(db, key), c, g)
  }

  predicate FixedLog(log: seq<LogEntry>, c: Config, g: Grading) {
    forall i | 0 <= i < |log| :: FixedEntry(log[i], c, g)
  }

  lemma StepKeepsFits(db: Db, step: Step, form: string)
    requires Enabled(db, step) && forall x | x in db.txns && db.txns[x].form.id == form :: Fits(db.txns[x].form, db.txns[x].sub)
    ensures var after := Next(db, step);
      forall x | x in after.txns && after.txns[x].form.id == form :: Fits(after.txns[x].form, after.txns[x].sub)
  {
    if step.Begin? {
      VerdictsAgree(db.host, db.forms[step.formId], step.request);
    }
  }

  lemma StepKeepsLogFixed(db: Db, step: Step, key: Entrant, c: Config, g: Grading)
    requires FormFrozen(db, key.form) && AllFixed(db, key.form, c, g) && Enabled(db, step)
    ensures FixedLog(LogOf(Next(db, step), key), c, g)
  {
  }

  lemma StepKeepsFixed(db: Db, step: Step, form: string, c: Config, g: Grading)
    requires FormFrozen(db, form) && AllFixed(db, form, c, g) && Enabled(db, step) && StaysFixed(step, form, c, g)
    ensures AllFixed(Next(db, step), form, c, g)
  {
    StepKeepsFits(db, step, form);
    forall key: Entrant | key.form == form ensures FixedLog(LogOf(Next(db, step), key), c, g) {
      StepKeepsLogFixed(db, step, key, c, g);
    }
  }

  ghost predicate PossibleFixed(db: Db, steps: seq<Step>, form: string, c: Config, g: Grading)
    decreases |steps|
  {
    steps != [] ==>
      Enabled(db, steps[0]) && StaysFixed(steps[0], form, c, g) && PossibleFixed(Next(db, steps[0]), steps[1..], form, c, g)
  }

  lemma {:induction false} FixedIsPossible(db: Db, steps: seq<Step>, form: string, c: Config, g: Grading)
    requires PossibleFixed(db, steps, form, c, g)
    ensures Possible(db, steps, form)
    decreases |steps|
  {
    if steps != [] {
      FixedIsPossible(Next(db, steps[0]), steps[1..], form, c, g);
    }
  }

  lemma {:induction false} RunKeepsFixed(db: Db, steps: seq<Step>, form: string, c: Config, g: Grading)
    requires Inv(db, form) && AllFixed(db, form, c, g) && PossibleFixed(db, steps, form, c, g)
    ensures Inv(Run(db, steps), form) && AllFixed(Run(db, steps), form, c, g)
    decreases |steps|
  {
    if steps != [] {
      StepKeepsInv(db, steps[0], form);
      StepKeepsFixed(db, steps[0], form, c, g);
      RunKeepsFixed(Next(db, steps[0]), steps[1..], form, c, g);
    }
  }

  /** The submissions decided since the key last lost its row. */
  function Recent(log: seq<LogEntry>): seq<Submission<AnswerMap>> {
    if log == [] then []
    else
      match log[|log| - 1]
      case Removed => []
      case Decided(_, sub) => Recent(log[..|log| - 1]) + [sub]
  }

  lemma {:induction false} SerialIsFold(log: seq<LogEntry>, c: Config, g: Grading)
    requires FixedLog(log, c, g)
    ensures Serial(log) == Fold(c, Recent(log))
    ensures !g.AnyForm? ==> Scored(Recent(log))
    ensures g.FixedQuiz? ==> Marked(Recent(log), g.passing)
  {
    if log != [] {
      var before := log[..|log| - 1];
      SerialIsFold(before, c, g);
      assert FixedEntry(log[|log| - 1], c, g);
      if log[|log| - 1].Decided? {
        assert Recent(log)[..|Recent(log)| - 1] == Recent(before);
      }
    }
  }

  /** No update is lost: however submitters interleave on a retry-governed form, a member's row
      counts every accepted attempt, the limit and the cooldown hold over all of them, and the
      row's score, answers and schema version come from one of them. */
  lemma NoAttemptIsLost(db: Db, steps: seq<Step>, key: Entrant, c: Config, g: Grading, id: nat)
    requires Fresh(db, key.form) && (key.form in db.forms ==> Fixed(db.forms[key.form], c, g))
    requires PossibleFixed(db, steps, key.form, c, g) && Owns(Run(db, steps).rows, key, id)
    ensures var (kept, history) := (Run(db, steps).rows[id].kept, Recent(LogOf(Run(db, steps), key)));
      var accepted := AcceptedOf(c, history);
      && Fold(c, history) == Some(kept)
      && kept.attempts == (if |accepted| <= Text.I32_MAX then |accepted| else Text.I32_MAX)
      && (0 < c.maxAttempts <= Text.I32_MAX ==> |accepted| <= c.maxAttempts)
      && (c.cooldownSeconds > 0 ==> forall i | 0 < i < |accepted| ::
            accepted[i].now >= accepted[i - 1].stamp + c.cooldownSeconds * 1000)
      && exists s | s in accepted :: s.answers == kept.answers && s.version == kept.version && s.score == kept.score
  {
    FixedIsPossible(db, steps, key.form, c, g);
    InterleavingsAreSerial(db, steps, key);
    FreshIsFixed(db, key.form, c, g);
    RunKeepsFixed(db, steps, key.form, c, g);
    var history := Recent(LogOf(Run(db, steps), key));
    SerialIsFold(LogOf(Run(db, steps), key), c, g);
    LimitsHold(c, history);
    RowIsOneAttempt(c, history);
  }

  lemma FreshIsFixed(db: Db, form: string, c: Config, g: Grading)
    requires Fresh(db, form) && (form in db.forms ==> Fixed(db.forms[form], c, g))
    ensures Inv(db, form) && AllFixed(db, form, c, g)
  {
  }

  /** And on a keep_best quiz it is the earliest best of them, whatever becomes of the passing
      score meanwhile; while that stays, the row is marked passed exactly when the best reaches it,
      and never if there is none. */
  lemma ConcurrentKeepBest(db: Db, steps: seq<Step>, key: Entrant, c: Config, g: Grading, id: nat) returns (best: nat)
    requires Fresh(db, key.form) && (key.form in db.forms ==> Fixed(db.forms[key.form], c, g)) && !g.AnyForm? && c.policy.KeepBest?
    requires PossibleFixed(db, steps, key.form, c, g) && Owns(Run(db, steps).rows, key, id)
    ensures var (kept, accepted) := (Run(db, steps).rows[id].kept, AcceptedOf(c, Recent(LogOf(Run(db, steps), key))));
      && Scored(accepted) && FirstBest(accepted, best)
      && kept.score == accepted[best].score && kept.answers == accepted[best].answers && kept.version == accepted[best].version
      && (g.FixedQuiz? ==>
            kept.passed == if g.passing.None? then None else Some(accepted[best].score.value >= g.passing.value))
  {
    NoAttemptIsLost(db, steps, key, c, g, id);
    FreshIsFixed(db, key.form, c, g);
    RunKeepsFixed(db, steps, key.form, c, g);
    SerialIsFold(LogOf(Run(db, steps), key), c, g);
    best := KeepBestKeepsTheBest(c, Recent(LogOf(Run(db, steps), key)));
  }

  // -------------------------------------------------------------------------
  // One transaction running alone is the handler
  // -------------------------------------------------------------------------

  function Alone(t: nat, formId: string, r: Request, found: Option<nat>): seq<Step> {
    [Begin(t, formId, r), Acquire(t), Look(t, found), Commit(t)]
  }

  lemma RunCons(db: Db, step: Step, rest: seq<Step>)
    ensures Run(db, [step] + rest) == Run(Next(db, step), rest)
  {
  }

  lemma WrittenIsRecorded(db: Db, x: Txn, found: Option<nat>)
    requires Single(x.form) && Finds(db.rows, KeyOf(x), found) && x.phase == Looked(found, SeenOf(db.rows, x.form, found))
    ensures var store := Recorded(x.form, x.user, found, x.sub, Store(db.rows, db.nextRow, [], [])).0;
      Written(db, x) == (store.rows, store.nextRow)
  {
  }

  /** The transaction as it commits. */
  function Ready(db: Db, formId: string, r: Request, found: Option<nat>): Txn
    requires formId in db.forms && Acceptable(db.host, db.forms[formId], r)
  {
    var f := db.forms[formId];
    Txn(f, r.user, Grade(db.host, f, r), Looked(found, SeenOf(db.rows, f, found)))
  }

  lemma Overwritten(db: Db, t: nat, x: Txn, y: Txn)
    ensures db.(txns := db.txns[t := x][t := y]) == db.(txns := db.txns[t := y])
  {
  }

  lemma AloneGetsReady(db: Db, t: nat, formId: string, r: Request, found: Option<nat>)
    requires Enabled(db, Begin(t, formId, r)) && Single(db.forms[formId])
    ensures Next(Next(Next(db, Begin(t, formId, r)), Acquire(t)), Look(t, found))
      == db.(txns := db.txns[t := Ready(db, formId, r, found)])
  {
    var x := Txn(db.forms[formId], r.user, Grade(db.host, db.forms[formId], r), Begun);
    var y := x.(phase := Locked);
    var begun := db.(txns := db.txns[t := x]);
    var locked := db.(txns := db.txns[t := y]);
    assert Next(db, Begin(t, formId, r)) == begun;
    assert Next(begun, Acquire(t)) == locked by { Overwritten(db, t, x, y); }
    LookIsReady(db, t, formId, r, found, y);
  }

  lemma LookIsReady(db: Db, t: nat, formId: string, r: Request, found: Option<nat>, y: Txn)
    requires formId in db.forms && Acceptable(db.host, db.forms[formId], r) && Single(db.forms[formId])
    requires y == Ready(db, formId, r, found).(phase := Locked)
    ensures Next(db.(txns := db.txns[t := y]), Look(t, found)) == db.(txns := db.txns[t := Ready(db, formId, r, found)])
  {
    var locked := db.(txns := db.txns[t := y]);
    assert locked.txns[t] == y && locked.rows == db.rows;
    Overwritten(db, t, y, Ready(db, formId, r, found));
  }

  lemma AloneRuns(db: Db, t: nat, formId: string, r: Request, found: Option<nat>)
    ensures Run(db, Alone(t, formId, r, found))
      == Next(Next(Next(Next(db, Begin(t, formId, r)), Acquire(t)), Look(t, found)), Commit(t))
  {
    var (a, b, c, d) := (Begin(t, formId, r), Acquire(t), Look(t, found), Commit(t));
    assert Alone(t, formId, r, found) == [a] + ([b] + ([c] + ([d] + [])));
    RunCons(db, a, [b] + ([c] + ([d] + [])));
    RunCons(Next(db, a), b, [c] + ([d] + []));
    RunCons(Next(Next(db, a), b), c, [d] + []);
    RunCons(Next(Next(Next(db, a), b), c), d, []);
  }

  lemma SubmittedIsRecorded(h: Host, f: Form, r: Request, found: Option<nat>, store: Store)
    requires Gate(f, r).None? && Acceptable(h, f, r)
    ensures Submitted(h, f, r, found, store) == Recorded(f, r.user, found, Grade(h, f, r), store)
  {
  }

  lemma CommitApplies(db: Db, t: nat)
    requires t in db.txns
    ensures var after := Next(db, Commit(t)); (after.rows, after.nextRow) == Written(db, db.txns[t]) && after.txns == db.txns - {t}
  {
  }

  lemma ReadyCommits(db: Db, t: nat, formId: string, r: Request, found: Option<nat>)
    requires Enabled(db, Begin(t, formId, r)) && Single(db.forms[formId]) && db.forms[formId].id == formId
    requires Finds(db.rows, Entrant(formId, r.user), found)
    ensures var f := db.forms[formId];
      var after := Next(db.(txns := db.txns[t := Ready(db, formId, r, found)]), Commit(t));
      var store := Recorded(f, r.user, found, Grade(db.host, f, r), Store(db.rows, db.nextRow, [], [])).0;
      (after.rows, after.nextRow, after.txns) == (store.rows, store.nextRow, db.txns)
  {
    var ready := db.(txns := db.txns[t := Ready(db, formId, r, found)]);
    CommitApplies(ready, t);
    WrittenIsRecorded(ready, ready.txns[t], found);
    assert ready.txns - {t} == db.txns;
  }

  /** A submission nothing interleaves with does to the table what the handler does in one go. */
  lemma AloneIsTheHandler(db: Db, t: nat, formId: string, r: Request, found: Option<nat>)
    requires Enabled(db, Begin(t, formId, r)) && Single(db.forms[formId]) && db.forms[formId].id == formId
    requires Finds(db.rows, Entrant(formId, r.user), found)
    ensures var after := Run(db, Alone(t, formId, r, found));
      var store := Submitted(db.host, db.forms[formId], r, found, Store(db.rows, db.nextRow, [], [])).0;
      after.rows == store.rows && after.nextRow == store.nextRow && after.txns == db.txns
  {
    AloneRuns(db, t, formId, r, found);
    AloneGetsReady(db, t, formId, r, found);
    ReadyCommits(db, t, formId, r, found);
    SubmittedIsRecorded(db.host, db.forms[formId], r, found, Store(db.rows, db.nextRow, [], []));
  }
}
