// What "you passed" is worth: from the receipt of one submit transaction, through every later
// interleaving of submissions, to the role lists both sync paths keep.
module RoleKept {
  import opened Wrappers
  import opened Json
  import opened Retry
  import opened Submissions
  import opened SubmitRuns
  import Conditions
  import SyncModel
  import SyncTheory

  // -------------------------------------------------------------------------
  // The stored row
  // -------------------------------------------------------------------------

  /** A row that meets the threshold and says so. */
  predicate PassedRow(row: Canonical<AnswerMap>, t: int) {
    row.score.Some? && row.score.value >= t && row.passed == Some(true)
  }

  /** An accepted attempt that is told it passed leaves a passed row, under either policy. */
  lemma ToldPassedIsStored(f: Form, c: Config, t: int, row: Option<Canonical<AnswerMap>>, s: Submission<AnswerMap>)
    requires Fixed(f, c, FixedQuiz(Some(t))) && Fits(f, s) && Told(f, s.score) == Some(true) && Decision(f, row, s).Ok?
    ensures PassedRow(Decision(f, row, s).value, t)
  {
  }

  predicate AllDecided(log: seq<LogEntry>) {
    forall i | 0 <= i < |log| :: log[i].Decided?
  }

  /** No admin deletes the key's row on the way. */
  predicate Spares(db: Db, steps: seq<Step>, key: Entrant)
    decreases |steps|
  {
    steps != [] ==>
      && (steps[0].Delete? && steps[0].id in db.rows ==> db.rows[steps[0].id].key != key)
      && Spares(Next(db, steps[0]), steps[1..], key)
  }

  lemma LogGrowsByOne(db: Db, step: Step, key: Entrant) returns (more: seq<LogEntry>)
    requires step.Delete? && step.id in db.rows ==> db.rows[step.id].key != key
    ensures LogOf(Next(db, step), key) == LogOf(db, key) + more && AllDecided(more)
  {
    if step.Commit? && step.c in db.txns && KeyOf(db.txns[step.c]) == key {
      more := [Decided(db.txns[step.c].form, db.txns[step.c].sub)];
    } else {
      more := [];
    }
  }

  lemma Appended(log: seq<LogEntry>, head: seq<LogEntry>, tail: seq<LogEntry>) returns (more: seq<LogEntry>)
    requires AllDecided(head) && AllDecided(tail)
    ensures log + head + tail == log + more && AllDecided(more)
  {
    more := head + tail;
  }

  lemma {:induction false} LogGrows(db: Db, steps: seq<Step>, key: Entrant) returns (more: seq<LogEntry>)
    requires Spares(db, steps, key)
    ensures LogOf(Run(db, steps), key) == LogOf(db, key) + more && AllDecided(more)
    decreases |steps|
  {
    if steps == [] {
      more := [];
    } else {
      var head := LogGrowsByOne(db, steps[0], key);
      var tail := LogGrows(Next(db, steps[0]), steps[1..], key);
      more := Appended(LogOf(db, key), head, tail);
    }
  }

  lemma ContinueSnoc(c: Config, row: Canonical<AnswerMap>, more: seq<Submission<AnswerMap>>, s: Submission<AnswerMap>)
    ensures Continue(c, row, more + [s]) == Apply(c, Some(Continue(c, row, more)), s).value
  {
    assert (more + [s])[..|more|] == more;
  }

  lemma {:induction false} SerialContinues(log: seq<LogEntry>, more: seq<LogEntry>, c: Config, t: int)
    requires Serial(log).Some? && FixedLog(more, c, FixedQuiz(Some(t))) && AllDecided(more)
    ensures Serial(log + more) == Some(Continue(c, Serial(log).value, Recent(more)))
    ensures GradedFromZero(Recent(more), t)
  {
    if more == [] {
      assert log + more == log;
    } else {
      var (before, last) := (more[..|more| - 1], more[|more| - 1]);
      SerialContinues(log, before, c, t);
      assert FixedEntry(last, c, FixedQuiz(Some(t))) && Recent(more) == Recent(before) + [last.sub];
      assert log + more == log + before + [last];
      SerialSnoc(log + before, last);
      ContinueSnoc(c, Serial(log).value, Recent(before), last.sub);
    }
  }

  lemma TheRow(db: Db, key: Entrant, kept: Canonical<AnswerMap>) returns (id: nat)
    requires KeySound(db, key) && Serial(LogOf(db, key)) == Some(kept)
    ensures Owns(db.rows, key, id) && db.rows[id].kept == kept
    ensures forall other | Owns(db.rows, key, other) :: other == id
  {
    id :| Owns(db.rows, key, id) && db.rows[id].kept == kept;
  }

  /** Once a member's row on a fixed quiz is passed and safe, every interleaving of further
      submissions, by anyone to any form, leaves them a row that meets the threshold. */
  lemma PassedRowsStay(db: Db, steps: seq<Step>, key: Entrant, c: Config, t: int, id: nat) returns (later: nat)
    requires Inv(db, key.form) && AllFixed(db, key.form, c, FixedQuiz(Some(t))) && PossibleFixed(db, steps, key.form, c, FixedQuiz(Some(t)))
    requires Spares(db, steps, key)
    requires Owns(db.rows, key, id) && PassedRow(db.rows[id].kept, t) && Safe(c, db.rows[id].kept, t)
    ensures Owns(Run(db, steps).rows, key, later) && PassedRow(Run(db, steps).rows[later].kept, t)
  {
    var (after, kept) := (Run(db, steps), db.rows[id].kept);
    RunKeepsFixed(db, steps, key.form, c, FixedQuiz(Some(t)));
    assert KeySound(db, key) && KeySound(after, key);
    OnlyRow(db, key, id);
    var more := LogGrows(db, steps, key);
    FixedSuffix(LogOf(db, key), more, c, FixedQuiz(Some(t)));
    SerialContinues(LogOf(db, key), more, c, t);
    SafeRowsStay(c, kept, Recent(more), t);
    later := TheRow(after, key, Continue(c, kept, Recent(more)));
  }

  lemma FixedSuffix(log: seq<LogEntry>, more: seq<LogEntry>, c: Config, g: Grading)
    requires FixedLog(log + more, c, g)
    ensures FixedLog(more, c, g)
  {
    forall i | 0 <= i < |more| ensures FixedEntry(more[i], c, g) {
      assert (log + more)[|log| + i] == more[i];
    }
  }

  // -------------------------------------------------------------------------
  // The role lists
  // -------------------------------------------------------------------------

  /** The responses the sync engine reads are the rows of the table. */
  ghost predicate Reads(w: SyncModel.World, rows: Rows) {
    forall id | id in rows :: ResponseOf(rows[id]) in w.responses
  }

  function ResponseOf(row: ResponseRow): SyncModel.Response {
    SyncModel.Response(row.key.form, row.guild, row.key.user, Obj(row.kept.answers), row.kept.score)
  }

  /** A link gated on "total score at least t" of one quiz. */
  ghost predicate GatedOn(w: SyncModel.World, k: SyncModel.Key, form: string, t: int) {
    k in w.links && w.links[k] == SyncModel.Link(Some(form), false, Conditions.RowsOf([Conditions.AtLeast(t)]))
  }

  lemma PassedRowsQualify(w: SyncModel.World, rows: Rows, k: SyncModel.Key, key: Entrant, t: int, id: nat, optouts: set<string>)
    requires Reads(w, rows) && GatedOn(w, k, key.form, t) && key.user != "" && key.user !in optouts
    requires Owns(rows, key, id) && PassedRow(rows[id].kept, t)
    ensures key.user in SyncModel.Desired(w, k, optouts)
  {
    Conditions.RowsRoundTrip([Conditions.AtLeast(t)]);
    var r := ResponseOf(rows[id]);
    Conditions.ThresholdCondition(w.host, t, r.answers, r.score);
    assert SyncModel.Meets(w, w.links[k], r);
    SyncTheory.DesiredMeans(w, k, optouts, key.user);
  }

  /** Told "passed" means the role is kept. A transaction commits an attempt the quiz calls
      passed; the quiz keeps the best attempt (or is otherwise safe); then anything may be
      submitted by anyone, short of an admin deleting the row. In the tables that result, every
      fault-free run of sync jobs that reaches the member or the link, by either path, leaves
      the member on the link's list, locally and at RoleLogic, unless they opted out. */
  lemma ToldPassedKeepsTheRole(db: Db, t: nat, steps: seq<Step>, c: Config, points: int,
                               w: SyncModel.World, k: SyncModel.Key, jobs: seq<SyncTheory.SyncJob>, optouts: SyncTheory.Optouts)
    requires Enabled(db, Commit(t)) && Told(db.txns[t].form, db.txns[t].sub.score) == Some(true)
    requires Decision(db.txns[t].form, db.txns[t].phase.seen, db.txns[t].sub).Ok?
    requires var key := KeyOf(db.txns[t]);
      && Inv(db, key.form) && AllFixed(db, key.form, c, FixedQuiz(Some(points))) && c.policy.KeepBest?
      && PossibleFixed(Next(db, Commit(t)), steps, key.form, c, FixedQuiz(Some(points)))
      && Spares(Next(db, Commit(t)), steps, key)
      && Reads(w, Run(Next(db, Commit(t)), steps).rows) && GatedOn(w, k, key.form, points)
      && key.user != "" && key.user !in optouts(k.guild)
      && (key.user in SyncTheory.UsersOf(jobs) || k in SyncTheory.KeysOf(jobs))
    requires SyncModel.WellFormed(w) && SyncModel.MirrorTracks(w)
    requires forall j | j in jobs :: SyncTheory.Clean(j, optouts)
    ensures SyncModel.Assignment(k, db.txns[t].user) in SyncTheory.RunJobs(w, jobs).mirror
    ensures SyncModel.Assignment(k, db.txns[t].user) in SyncTheory.RunJobs(w, jobs).remote
  {
    var key := KeyOf(db.txns[t]);
    var id := CommitLeavesPassedRow(db, t, c, points);
    StepKeepsInv(db, Commit(t), key.form);
    StepKeepsFixed(db, Commit(t), key.form, c, FixedQuiz(Some(points)));
    var later := PassedRowsStay(Next(db, Commit(t)), steps, key, c, points, id);
    PassedRowsQualify(w, Run(Next(db, Commit(t)), steps).rows, k, key, points, later, optouts(k.guild));
    QualifiedIsListed(w, k, key.user, jobs, optouts);
  }

  lemma QualifiedIsListed(w: SyncModel.World, k: SyncModel.Key, u: string, jobs: seq<SyncTheory.SyncJob>, optouts: SyncTheory.Optouts)
    requires SyncModel.WellFormed(w) && SyncModel.MirrorTracks(w) && SyncModel.FormBound(w, k)
    requires forall j | j in jobs :: SyncTheory.Clean(j, optouts)
    requires u in SyncTheory.UsersOf(jobs) || k in SyncTheory.KeysOf(jobs)
    requires u in SyncModel.Desired(w, k, optouts(k.guild))
    ensures SyncModel.Assignment(k, u) in SyncTheory.RunJobs(w, jobs).mirror
    ensures SyncModel.Assignment(k, u) in SyncTheory.RunJobs(w, jobs).remote
  {
    SyncTheory.CleanRunSettles(w, jobs, optouts);
    assert SyncTheory.Chosen(w, SyncTheory.UsersOf(jobs), SyncTheory.KeysOf(jobs), SyncModel.Assignment(k, u));
  }

  lemma CommitLeavesPassedRow(db: Db, t: nat, c: Config, points: int) returns (id: nat)
    requires Enabled(db, Commit(t)) && Told(db.txns[t].form, db.txns[t].sub.score) == Some(true)
    requires Inv(db, db.txns[t].form.id) && AllFixed(db, db.txns[t].form.id, c, FixedQuiz(Some(points)))
    requires db.txns[t].phase.Looked? && Decision(db.txns[t].form, db.txns[t].phase.seen, db.txns[t].sub).Ok?
    ensures Owns(Next(db, Commit(t)).rows, KeyOf(db.txns[t]), id)
    ensures PassedRow(Next(db, Commit(t)).rows[id].kept, points)
  {
    var (x, key, after) := (db.txns[t], KeyOf(db.txns[t]), Next(db, Commit(t)));
    RepliesAreSerial(db, t, x.form.id);
    ToldPassedIsStored(x.form, c, points, x.phase.seen, x.sub);
    StepKeepsInv(db, Commit(t), x.form.id);
    SerialSnoc(LogOf(db, key), Decided(x.form, x.sub));
    assert KeySound(after, key);
    id := TheRow(after, key, Decision(x.form, x.phase.seen, x.sub).value);
  }
}
