// Whole runs of the queue under many workers (src/services/jobs.rs with the batch loop of
// src/tasks/job_worker.rs): who owns a claimed row, the exact ledger of its attempts, and how
// long a due job can be passed over.
module JobRuns {
  import opened Wrappers
  import opened Json
  import opened Jobs
  import Order

  const BATCH_SIZE: nat := 8
  const STUCK_LOCK_MILLIS: nat := 45 * 60 * 1000

  /** How often a row went back to pending, and why. */
  datatype Ledger = Ledger(retries: nat, releases: nat, reaps: nat)

  /** `held` maps each live worker to the jobs of its batch it has not finished, as claimed. */
  datatype Sys = Sys(
    rows: Table,
    nextId: nat,
    now: int,
    held: map<string, map<nat, Job>>,
    ledger: map<nat, Ledger>)

  datatype Step =
    | Tick(millis: nat)
    | Enqueue(kind: Kind, payload: Value, delay: nat)
    | Claim(worker: string)
    | Finish(worker: string, id: nat)
    | Retry(worker: string, id: nat, jitter: nat)
    | Bury(worker: string, id: nat)
    | Release(worker: string, id: nat, jitter: nat)
    | Lose(worker: string, id: nat)
    | Crash(worker: string)
    | Reap

  function Held(s: Sys, w: string): map<nat, Job> {
    if w in s.held then s.held[w] else map[]
  }

  function Let(s: Sys, w: string, id: nat): map<string, map<nat, Job>> {
    s.held[w := Held(s, w) - {id}]
  }

  function LedgerOf(s: Sys, id: nat): Ledger {
    if id in s.ledger then s.ledger[id] else Ledger(0, 0, 0)
  }

  /** When a step can happen. A worker claims only after finishing its batch, works only on
      jobs it holds, and retries only while the attempts it was handed are below the maximum. */
  predicate Enabled(s: Sys, step: Step) {
    match step
    case Claim(w) => Held(s, w) == map[]
    case Finish(w, id) => id in Held(s, w)
    case Retry(w, id, _) => id in Held(s, w) && Held(s, w)[id].attempts < Held(s, w)[id].maxAttempts
    case Bury(w, id) => id in Held(s, w)
    case Release(w, id, _) => id in Held(s, w)
    case Lose(w, id) => id in Held(s, w)
    case _ => true
  }

  function Next(s: Sys, step: Step): Sys
    requires Enabled(s, step)
  {
    match step
    case Tick(d) => s.(now := s.now + d)
    case Enqueue(kind, payload, delay) =>
      s.(rows := s.rows[s.nextId := NewRow(kind, payload, s.now + delay)], nextId := s.nextId + 1,
         ledger := s.ledger[s.nextId := Ledger(0, 0, 0)])
    case Claim(w) =>
      var ids := ClaimIds(s.rows, s.now, BATCH_SIZE);
      s.(rows := ClaimTable(s.rows, ids, w, s.now),
         held := s.held[w := map i | i in ids :: ClaimedJob(s.rows, i)])
    case Finish(w, id) => s.(rows := FinishTable(s.rows, id, Completed, s.now), held := Let(s, w, id))
    case Retry(w, id, jitter) =>
      s.(rows := RequeueTable(s.rows, id, s.now + Backoff(Held(s, w)[id].attempts, jitter)), held := Let(s, w, id),
         ledger := s.ledger[id := LedgerOf(s, id).(retries := LedgerOf(s, id).retries + 1)])
    case Bury(w, id) => s.(rows := FinishTable(s.rows, id, Dead, s.now), held := Let(s, w, id))
    case Release(w, id, jitter) =>
      s.(rows := RequeueTable(s.rows, id, s.now + Backoff(Held(s, w)[id].attempts, jitter)), held := Let(s, w, id),
         ledger := s.ledger[id := LedgerOf(s, id).(releases := LedgerOf(s, id).releases + 1)])
    case Lose(w, id) => s.(held := Let(s, w, id))
    case Crash(w) => s.(held := s.held - {w})
    case Reap =>
      s.(rows := ReapTable(s.rows, s.now, STUCK_LOCK_MILLIS),
         ledger := map i | i in s.ledger ::
           if i in s.rows && Stuck(s.rows[i], s.now, STUCK_LOCK_MILLIS) then s.ledger[i].(reaps := s.ledger[i].reaps + 1)
           else s.ledger[i])
  }

  // -------------------------------------------------------------------------
  // Ownership and the ledger
  // -------------------------------------------------------------------------

  /** No live worker has held a job past the lock timeout. */
  predicate LeaseHolds(s: Sys) {
    forall w | w in s.held :: forall id | id in s.held[w] && id in s.rows :: !Stuck(s.rows[id], s.now, STUCK_LOCK_MILLIS)
  }

  predicate LocksMatch(s: Sys) {
    forall i | i in s.rows :: s.rows[i].status.InProgress? <==> s.rows[i].lock.Some?
  }

  /** Every held job is its row's current claim. */
  predicate HoldersOwn(s: Sys) {
    forall w | w in s.held :: forall id | id in s.held[w] ::
      && id in s.rows && s.rows[id].status.InProgress? && s.rows[id].lock.Some? && s.rows[id].lock.value.worker == w
      && s.held[w][id] == Job(id, s.rows[id].kind, s.rows[id].payload, s.rows[id].attempts, s.rows[id].maxAttempts)
  }

  function Owed(r: Row): nat {
    if r.status.Pending? then 0 else 1
  }

  /** attempts = retries + releases + reaps, plus one while claimed and for ever once ended. */
  predicate LedgerBalances(s: Sys) {
    && s.ledger.Keys == s.rows.Keys
    && forall i | i in s.rows :: s.rows[i].attempts
         == s.ledger[i].retries + s.ledger[i].releases + s.ledger[i].reaps + Owed(s.rows[i])
  }

  predicate AttemptsBounded(s: Sys) {
    && s.ledger.Keys == s.rows.Keys
    && forall i | i in s.rows :: s.rows[i].maxAttempts >= 1
         && s.rows[i].attempts + 1 <= s.rows[i].maxAttempts + s.ledger[i].releases + s.ledger[i].reaps + Owed(s.rows[i])
  }

  /** No row ever disappears. */
  ghost predicate IdsDense(s: Sys) {
    forall i: nat :: i in s.rows <==> i < s.nextId
  }

  ghost predicate Inv(s: Sys) {
    IdsDense(s) && LocksMatch(s) && HoldersOwn(s) && LedgerBalances(s) && AttemptsBounded(s)
  }

  function Start(now: int): Sys {
    Sys(map[], 0, now, map[], map[])
  }

  /** A holder hands its row back: pending again, completed or dead. */
  lemma HandBack(s: Sys, w: string, id: nat, r: Row, e: Ledger)
    requires Inv(s) && id in Held(s, w)
    requires !r.status.InProgress? && r.lock.None?
    requires r.attempts == s.rows[id].attempts == e.retries + e.releases + e.reaps + Owed(r)
    requires r.maxAttempts == s.rows[id].maxAttempts
    requires r.attempts + 1 <= r.maxAttempts + e.releases + e.reaps + Owed(r)
    ensures Inv(s.(rows := s.rows[id := r], held := Let(s, w, id), ledger := s.ledger[id := e]))
  {
    HeldFacts(s, w, id);
    LetGo(s, s.(rows := s.rows[id := r], held := Let(s, w, id), ledger := s.ledger[id := e]), w, id);
    CountsMove(s, s.(rows := s.rows[id := r], held := Let(s, w, id), ledger := s.ledger[id := e]), id);
  }

  /** Only one row and its ledger entry changed, and they still balance. */
  lemma CountsMove(s: Sys, s': Sys, id: nat)
    requires IdsDense(s) && LocksMatch(s) && LedgerBalances(s) && AttemptsBounded(s) && id in s.rows && s'.nextId == s.nextId
    requires id in s'.rows && s'.rows == s.rows[id := s'.rows[id]]
    requires id in s'.ledger && s'.ledger == s.ledger[id := s'.ledger[id]]
    requires var (r, e) := (s'.rows[id], s'.ledger[id]);
      && (r.status.InProgress? <==> r.lock.Some?)
      && r.attempts == e.retries + e.releases + e.reaps + Owed(r)
      && r.maxAttempts == s.rows[id].maxAttempts
      && r.attempts + 1 <= r.maxAttempts + e.releases + e.reaps + Owed(r)
    ensures IdsDense(s') && LocksMatch(s') && LedgerBalances(s') && AttemptsBounded(s')
  {
  }

  /** The others hold what they held, and nobody holds the row handed back. */
  lemma LetGo(s: Sys, s': Sys, w: string, id: nat)
    requires HoldersOwn(s) && id in Held(s, w) && s'.held == Let(s, w, id)
    requires forall i | i in s.rows && i != id :: i in s'.rows && s'.rows[i] == s.rows[i]
    ensures HoldersOwn(s')
  {
  }

  lemma HeldFacts(s: Sys, w: string, id: nat)
    requires Inv(s) && id in Held(s, w)
    ensures id in s.rows && s.rows[id].status.InProgress? && Held(s, w)[id].attempts == s.rows[id].attempts
    ensures Held(s, w)[id].maxAttempts == s.rows[id].maxAttempts
  {
  }

  lemma SettlingSteps(s: Sys, step: Step)
    requires Inv(s) && Enabled(s, step) && (step.Finish? || step.Bury?)
    ensures Inv(Next(s, step))
  {
    match step
    case Finish(w, id) =>
      HeldFacts(s, w, id);
      HandBack(s, w, id, Finished(s.rows[id], Completed, s.now), s.ledger[id]);
      assert s.ledger[id := s.ledger[id]] == s.ledger;
    case Bury(w, id) =>
      HeldFacts(s, w, id);
      HandBack(s, w, id, Finished(s.rows[id], Dead, s.now), s.ledger[id]);
      assert s.ledger[id := s.ledger[id]] == s.ledger;
  }

  lemma RequeueingSteps(s: Sys, step: Step)
    requires Inv(s) && Enabled(s, step) && (step.Retry? || step.Release?)
    ensures Inv(Next(s, step))
  {
    HeldFacts(s, step.worker, step.id);
    HandBack(s, step.worker, step.id, Next(s, step).rows[step.id], Next(s, step).ledger[step.id]);
  }

  lemma OtherSteps(s: Sys, step: Step)
    requires Inv(s) && Enabled(s, step) && (step.Enqueue? || step.Tick? || step.Lose? || step.Crash?)
    ensures Inv(Next(s, step))
  {
    assert HoldersOwn(Next(s, step));
  }

  lemma ClaimStep(s: Sys, w: string)
    requires Inv(s) && Enabled(s, Claim(w))
    ensures Inv(Next(s, Claim(w)))
  {
    assert Next(s, Claim(w)).rows.Keys == s.rows.Keys;
    ClaimOwns(s, w);
  }

  /** The new holder owns its batch, and no row claimed was anybody's. */
  lemma ClaimOwns(s: Sys, w: string)
    requires HoldersOwn(s) && Enabled(s, Claim(w))
    ensures HoldersOwn(Next(s, Claim(w)))
  {
  }

  /** Reaping keeps the queue sound exactly when no live worker has overstayed its lease. */
  lemma ReapNeedsLease(s: Sys)
    requires Inv(s)
    ensures Inv(Next(s, Reap)) <==> LeaseHolds(s)
  {
  }

  // -------------------------------------------------------------------------
  // Runs
  // -------------------------------------------------------------------------

  predicate Possible(s: Sys, steps: seq<Step>)
    decreases |steps|
  {
    steps != [] ==> Enabled(s, steps[0]) && Possible(Next(s, steps[0]), steps[1..])
  }

  function Run(s: Sys, steps: seq<Step>): Sys
    requires Possible(s, steps)
    decreases |steps|
  {
    if steps == [] then s else Run(Next(s, steps[0]), steps[1..])
  }

  lemma RunCons(s: Sys, step: Step, rest: seq<Step>)
    requires Enabled(s, step) && Possible(Next(s, step), rest)
    ensures Possible(s, [step] + rest) && Run(s, [step] + rest) == Run(Next(s, step), rest)
  {
  }

  lemma {:induction false} RunAppend(s: Sys, a: seq<Step>, b: seq<Step>)
    requires Possible(s, a) && Possible(Run(s, a), b)
    ensures Possible(s, a + b) && Run(s, a + b) == Run(Run(s, a), b)
    decreases |a|
  {
    if a == [] {
      assert a + b == b;
    } else {
      assert (a + b)[1..] == a[1..] + b;
      RunAppend(Next(s, a[0]), a[1..], b);
    }
  }

  /** Every reap of the run happens while the lease assumption holds. */
  predicate Leased(s: Sys, steps: seq<Step>)
    requires Possible(s, steps)
    decreases |steps|
  {
    steps != [] ==> (steps[0].Reap? ==> LeaseHolds(s)) && Leased(Next(s, steps[0]), steps[1..])
  }

  lemma StepKeepsInv(s: Sys, step: Step)
    requires Inv(s) && Enabled(s, step) && (step.Reap? ==> LeaseHolds(s))
    ensures Inv(Next(s, step))
  {
    match step
    case Reap => ReapNeedsLease(s);
    case Claim(w) => ClaimStep(s, w);
    case Finish(_, _) => SettlingSteps(s, step);
    case Bury(_, _) => SettlingSteps(s, step);
    case Retry(_, _, _) => RequeueingSteps(s, step);
    case Release(_, _, _) => RequeueingSteps(s, step);
    case _ => OtherSteps(s, step);
  }

  /** In every reachable state of a leased run a row is locked exactly while in progress, every
      held job is its row's current claim, and the ledger balances. */
  lemma {:induction false} QueueStaysSound(s: Sys, steps: seq<Step>)
    requires Inv(s) && Possible(s, steps) && Leased(s, steps)
    ensures Inv(Run(s, steps))
    decreases |steps|
  {
    if steps != [] {
      StepKeepsInv(s, steps[0]);
      QueueStaysSound(Next(s, steps[0]), steps[1..]);
    }
  }

  /** What soundness means for the workers and for a row: batches are disjoint, and a job never
      takes more attempts than its maximum plus the releases and reaps it suffered. */
  lemma SoundQueueMeans(s: Sys, w: string, w': string, id: nat)
    requires Inv(s)
    ensures w != w' ==> Held(s, w).Keys !! Held(s, w').Keys
    ensures id in s.rows ==> s.rows[id].attempts <= s.rows[id].maxAttempts + s.ledger[id].releases + s.ledger[id].reaps
  {
  }

  predicate Ended(r: Row) {
    r.status.Completed? || r.status.Dead?
  }

  lemma StepKeepsRow(s: Sys, step: Step, id: nat)
    requires Inv(s) && Enabled(s, step) && id in s.rows
    ensures id in Next(s, step).rows
    ensures Next(s, step).rows[id].maxAttempts == s.rows[id].maxAttempts
    ensures Next(s, step).rows[id].payload == s.rows[id].payload && Next(s, step).rows[id].kind == s.rows[id].kind
    ensures Ended(s.rows[id]) ==> Next(s, step).rows[id] == s.rows[id]
    ensures Next(s, step).rows[id].attempts
      == s.rows[id].attempts + if step.Claim? && id in ClaimIds(s.rows, s.now, BATCH_SIZE) then 1 else 0
  {
    match step
    case Finish(w, i) => HeldFacts(s, w, i);
    case Bury(w, i) => HeldFacts(s, w, i);
    case Retry(w, i, _) => HeldFacts(s, w, i);
    case Release(w, i, _) => HeldFacts(s, w, i);
    case Enqueue(_, _, _) => assert id != s.nextId;
    case _ =>
  }

  /** No job disappears or changes its work, its attempts never go down, and completed and
      dead rows never change again. */
  lemma {:induction false} RowsPersist(s: Sys, steps: seq<Step>, id: nat)
    requires Inv(s) && Possible(s, steps) && Leased(s, steps) && id in s.rows
    ensures id in Run(s, steps).rows
    ensures var (r, r') := (s.rows[id], Run(s, steps).rows[id]);
      && r'.kind == r.kind && r'.payload == r.payload && r'.maxAttempts == r.maxAttempts
      && r'.attempts >= r.attempts
      && (Ended(r) ==> r' == r)
    decreases |steps|
  {
    if steps != [] {
      StepKeepsInv(s, steps[0]);
      StepKeepsRow(s, steps[0], id);
      RowsPersist(Next(s, steps[0]), steps[1..], id);
    }
  }

  // -------------------------------------------------------------------------
  // Termination
  // -------------------------------------------------------------------------

  /** Steps that hand no job back unprocessed: no shutdown release, crash, lost write or reap. */
  predicate Steady(step: Step) {
    !(step.Release? || step.Lose? || step.Crash? || step.Reap?)
  }

  /** Whether a step claims the job or settles a claim of it. */
  predicate Touches(s: Sys, step: Step, id: nat) {
    match step
    case Claim(_) => id in ClaimIds(s.rows, s.now, BATCH_SIZE)
    case Finish(_, i) => i == id
    case Retry(_, i, _) => i == id
    case Bury(_, i) => i == id
    case _ => false
  }

  function TouchCount(s: Sys, steps: seq<Step>, id: nat): nat
    requires Possible(s, steps)
    decreases |steps|
  {
    if steps == [] then 0
    else (if Touches(s, steps[0], id) then 1 else 0) + TouchCount(Next(s, steps[0]), steps[1..], id)
  }

  /** The steps a job can still take: two per attempt left, one to settle a running attempt. */
  function WorkLeft(s: Sys, id: nat): int
    requires id in s.rows && id in s.ledger
  {
    var r := s.rows[id];
    if Ended(r) then 0
    else 2 * (r.maxAttempts + s.ledger[id].releases + s.ledger[id].reaps - r.attempts) + if r.status.InProgress? then 1 else 0
  }

  lemma WorkShrinks(s: Sys, step: Step, id: nat)
    requires Inv(s) && Enabled(s, step) && Steady(step) && id in s.rows
    ensures var s' := Next(s, step); id in s'.rows && id in s'.ledger
    ensures WorkLeft(Next(s, step), id) + (if Touches(s, step, id) then 1 else 0) <= WorkLeft(s, id)
    ensures WorkLeft(s, id) >= 0 && (WorkLeft(s, id) == 0 <==> Ended(s.rows[id]))
  {
  }

  /** In a steady run a job is claimed and settled at most `WorkLeft` more times (sixteen for a
      new job). */
  lemma {:induction false} StepsAreBounded(s: Sys, steps: seq<Step>, id: nat)
    requires Inv(s) && Possible(s, steps) && id in s.rows
    requires forall step | step in steps :: Steady(step)
    ensures var s' := Run(s, steps); id in s'.rows && id in s'.ledger
    ensures TouchCount(s, steps, id) <= WorkLeft(s, id)
    decreases |steps|
  {
    if steps == [] {
      WorkShrinks(s, Tick(0), id);
    } else {
      assert Steady(steps[0]);
      StepKeepsInv(s, steps[0]);
      WorkShrinks(s, steps[0], id);
      StepsAreBounded(Next(s, steps[0]), steps[1..], id);
    }
  }

  lemma NewJobWork(s: Sys, kind: Kind, payload: Value, delay: nat)
    requires Inv(s)
    ensures var s' := Next(s, Enqueue(kind, payload, delay));
      s.nextId in s'.rows && s.nextId in s'.ledger && WorkLeft(s', s.nextId) == 2 * MAX_ATTEMPTS
  {
  }

  // -------------------------------------------------------------------------
  // Bounded bypass
  // -------------------------------------------------------------------------

  /** The `n` least members of a set of ids. */
  function LeastIds(d: set<nat>, n: nat): set<nat> {
    set i | i in d && |LowerThan(d, i)| < n
  }

  function LowerThan(d: set<nat>, i: nat): set<nat> {
    set x | x in d && x < i
  }

  lemma Largest(d: set<nat>) returns (m: nat)
    requires d != {}
    ensures m in d && forall x | x in d :: x <= m
  {
    m :| m in d;
    if d != {m} {
      assert forall x | x in d :: x == m || x in d - {m};
      var rest := Largest(d - {m});
      if rest > m { m := rest; }
    }
  }

  lemma {:induction false} LeastIdsSize(d: set<nat>, n: nat)
    ensures |LeastIds(d, n)| == if |d| < n then |d| else n
  {
    if |d| <= n {
      forall i | i in d ensures |LowerThan(d, i)| < n {
        assert LowerThan(d, i) <= d - {i};
        Order.SubsetSize(LowerThan(d, i), d - {i});
      }
      assert LeastIds(d, n) == d;
    } else {
      var m := Largest(d);
      var rest := d - {m};
      assert LowerThan(d, m) == rest;
      forall i | i in rest ensures LowerThan(d, i) == LowerThan(rest, i) {
      }
      assert LeastIds(d, n) == LeastIds(rest, n);
      LeastIdsSize(rest, n);
    }
  }

  /** A claim that leaves a due job behind takes a full batch of older ones. */
  lemma SkippingTakesAFullBatch(t: Table, now: int, n: nat, j: nat)
    requires j in t && Due(t[j], now) && j !in ClaimIds(t, now, n)
    ensures |ClaimIds(t, now, n)| == n && forall i | i in ClaimIds(t, now, n) :: i < j
  {
    var due := set i | i in t && Due(t[i], now);
    forall i ensures LowerThan(due, i) == Ahead(t, now, i) {
    }
    assert LeastIds(due, n) == ClaimIds(t, now, n);
    LeastIdsSize(due, n);
    assert Ahead(t, now, j) <= due;
    Order.SubsetSize(Ahead(t, now, j), due);
    forall i | i in ClaimIds(t, now, n) ensures i < j {
      if i > j {
        Order.SubsetSize(Ahead(t, now, j), Ahead(t, now, i));
      }
    }
  }

  function AttemptsBelow(t: Table, j: nat): nat {
    if j == 0 then 0 else AttemptsBelow(t, j - 1) + if j - 1 in t then t[j - 1].attempts else 0
  }

  /** The attempts the jobs older than `j` may use. */
  function BudgetBelow(s: Sys, j: nat): nat {
    if j == 0 then 0 else BudgetBelow(s, j - 1) + Budget(s, j - 1)
  }

  function Budget(s: Sys, i: nat): nat {
    if i in s.rows && i in s.ledger then s.rows[i].maxAttempts + s.ledger[i].releases + s.ledger[i].reaps else 0
  }

  lemma {:induction false} AttemptsWithinBudget(s: Sys, j: nat)
    requires Inv(s)
    ensures AttemptsBelow(s.rows, j) <= BudgetBelow(s, j)
  {
    if j > 0 {
      AttemptsWithinBudget(s, j - 1);
    }
  }

  lemma ClaimedBelow(s: Sys, step: Step, j: nat)
    requires Inv(s) && Enabled(s, step) && j < s.nextId
    ensures j in s.rows && j in Next(s, step).rows
    ensures Next(s, step).rows[j].attempts - s.rows[j].attempts
      == if step.Claim? && j in ClaimIds(s.rows, s.now, BATCH_SIZE) then 1 else 0
  {
    StepKeepsRow(s, step, j);
  }

  lemma OneMoreLower(ids: set<nat>, j: nat)
    ensures |LowerThan(ids, j + 1)| == |LowerThan(ids, j)| + if j in ids then 1 else 0
  {
    assert LowerThan(ids, j + 1) == LowerThan(ids, j) + if j in ids then {j} else {};
  }

  /** One step raises the attempts of the jobs below `j` by the number of them it claims. */
  lemma {:induction false} StepRaisesAttempts(s: Sys, step: Step, j: nat)
    requires Inv(s) && Enabled(s, step) && j <= s.nextId
    ensures AttemptsBelow(Next(s, step).rows, j) == AttemptsBelow(s.rows, j)
      + if step.Claim? then |LowerThan(ClaimIds(s.rows, s.now, BATCH_SIZE), j)| else 0
  {
    var ids := ClaimIds(s.rows, s.now, BATCH_SIZE);
    if j == 0 {
      assert LowerThan(ids, 0) == {};
    } else {
      StepRaisesAttempts(s, step, j - 1);
      ClaimedBelow(s, step, j - 1);
      OneMoreLower(ids, j - 1);
    }
  }

  /** The claim batches of a run that leave job `j` behind although it is due. */
  function Skips(s: Sys, steps: seq<Step>, j: nat): nat
    requires Possible(s, steps)
    decreases |steps|
  {
    if steps == [] then 0
    else
      (if steps[0].Claim? && j in s.rows && Due(s.rows[j], s.now) && j !in ClaimIds(s.rows, s.now, BATCH_SIZE) then 1 else 0)
        + Skips(Next(s, steps[0]), steps[1..], j)
  }

  /** Bounded bypass: every batch that leaves a due job behind spends eight attempts of older
      jobs, so there are at most an eighth as many such batches as attempts the older jobs may
      use. New jobs get larger ids and never overtake. */
  lemma {:induction false} BypassIsBounded(s: Sys, steps: seq<Step>, j: nat)
    requires Inv(s) && Possible(s, steps) && Leased(s, steps) && j in s.rows
    ensures BATCH_SIZE * Skips(s, steps, j) + AttemptsBelow(s.rows, j) <= BudgetBelow(Run(s, steps), j)
    decreases |steps|
  {
    if steps == [] {
      AttemptsWithinBudget(s, j);
    } else {
      var step := steps[0];
      var ids := ClaimIds(s.rows, s.now, BATCH_SIZE);
      StepKeepsInv(s, step);
      StepKeepsRow(s, step, j);
      StepRaisesAttempts(s, step, j);
      if step.Claim? && Due(s.rows[j], s.now) && j !in ids {
        SkippingTakesAFullBatch(s.rows, s.now, BATCH_SIZE, j);
        assert LowerThan(ids, j) == ids;
      }
      BypassIsBounded(Next(s, step), steps[1..], j);
    }
  }

  lemma {:induction false} SameBudget(s: Sys, step: Step, j: nat)
    requires Inv(s) && Enabled(s, step) && Steady(step) && j <= s.nextId
    ensures BudgetBelow(Next(s, step), j) == BudgetBelow(s, j)
  {
    if j > 0 {
      SameBudget(s, step, j - 1);
      StepKeepsRow(s, step, j - 1);
      WorkShrinks(s, step, j - 1);
    }
  }

  lemma {:induction false} SteadyRun(s: Sys, steps: seq<Step>, j: nat)
    requires Inv(s) && Possible(s, steps) && j <= s.nextId
    requires forall step | step in steps :: Steady(step)
    ensures Leased(s, steps) && BudgetBelow(Run(s, steps), j) == BudgetBelow(s, j)
    decreases |steps|
  {
    if steps != [] {
      assert Steady(steps[0]);
      StepKeepsInv(s, steps[0]);
      SameBudget(s, steps[0], j);
      SteadyRun(Next(s, steps[0]), steps[1..], j);
    }
  }

  /** Without crashes, shutdowns and reaps the bound is fixed when the run starts: at most
      (sum of `max_attempts` over the older ids, less the attempts already made) / 8 batches. */
  lemma SteadyBypass(s: Sys, steps: seq<Step>, j: nat)
    requires Inv(s) && Possible(s, steps) && j in s.rows
    requires forall step | step in steps :: Steady(step)
    ensures BATCH_SIZE * Skips(s, steps, j) <= BudgetBelow(s, j) - AttemptsBelow(s.rows, j)
  {
    SteadyRun(s, steps, j);
    BypassIsBounded(s, steps, j);
  }

  // -------------------------------------------------------------------------
  // Every job ends
  // -------------------------------------------------------------------------

  predicate HeldBySome(s: Sys, i: nat) {
    exists w | w in s.held :: i in s.held[w]
  }

  /** Every row in progress is in the batch of a live worker. */
  predicate Manned(s: Sys) {
    forall i | i in s.rows && s.rows[i].status.InProgress? :: HeldBySome(s, i)
  }

  /** Only a crash and a lost closing write leave a row in progress without a worker. */
  lemma StepKeepsManned(s: Sys, step: Step)
    requires Inv(s) && Manned(s) && Enabled(s, step) && !step.Lose? && !step.Crash?
    ensures Manned(Next(s, step))
  {
    var s' := Next(s, step);
    forall i | i in s'.rows && s'.rows[i].status.InProgress? ensures HeldBySome(s', i) {
      if step.Claim? && i in ClaimIds(s.rows, s.now, BATCH_SIZE) {
        assert i in s'.held[step.worker];
      } else {
        StillManned(s, step, i);
      }
    }
  }

  /** A row that stays in progress stays with the worker that holds it. */
  lemma StillManned(s: Sys, step: Step, i: nat)
    requires Inv(s) && Manned(s) && Enabled(s, step) && !step.Lose? && !step.Crash?
    requires i in Next(s, step).rows && Next(s, step).rows[i].status.InProgress?
    requires !(step.Claim? && i in ClaimIds(s.rows, s.now, BATCH_SIZE))
    ensures HeldBySome(Next(s, step), i)
  {
    StillInProgress(s, step, i);
    var w :| w in s.held && i in s.held[w];
    StillHeld(s, step, i, w);
    assert i in Next(s, step).held[w];
  }

  lemma StillInProgress(s: Sys, step: Step, i: nat)
    requires Inv(s) && Enabled(s, step)
    requires i in Next(s, step).rows && Next(s, step).rows[i].status.InProgress?
    requires !(step.Claim? && i in ClaimIds(s.rows, s.now, BATCH_SIZE))
    ensures i in s.rows && s.rows[i].status.InProgress?
    ensures !((step.Finish? || step.Retry? || step.Bury? || step.Release?) && step.id == i)
  {
    match step
    case Finish(w, id) => HeldFacts(s, w, id);
    case Retry(w, id, _) => HeldFacts(s, w, id);
    case Bury(w, id) => HeldFacts(s, w, id);
    case Release(w, id, _) => HeldFacts(s, w, id);
    case _ =>
  }

  lemma StillHeld(s: Sys, step: Step, i: nat, w: string)
    requires Enabled(s, step) && w in s.held && i in s.held[w] && !step.Lose? && !step.Crash?
    requires !((step.Finish? || step.Retry? || step.Bury? || step.Release?) && step.id == i)
    ensures w in Next(s, step).held && i in Next(s, step).held[w]
  {
  }

  /** The claims made while job `j` is due. */
  function DueClaims(s: Sys, steps: seq<Step>, j: nat): nat
    requires Possible(s, steps)
    decreases |steps|
  {
    if steps == [] then 0
    else
      (if steps[0].Claim? && j in s.rows && Due(s.rows[j], s.now) then 1 else 0)
        + DueClaims(Next(s, steps[0]), steps[1..], j)
  }

  /** Every claim made while a job is due takes it or skips it. */
  lemma {:induction false} DueClaimsSplit(s: Sys, steps: seq<Step>, j: nat)
    requires Inv(s) && Possible(s, steps) && Leased(s, steps) && j in s.rows
    ensures j in Run(s, steps).rows
    ensures DueClaims(s, steps, j) == Skips(s, steps, j) + Run(s, steps).rows[j].attempts - s.rows[j].attempts
    decreases |steps|
  {
    if steps != [] {
      StepKeepsInv(s, steps[0]);
      StepKeepsRow(s, steps[0], j);
      DueClaimsSplit(Next(s, steps[0]), steps[1..], j);
    }
  }

  lemma {:induction false} SteadyKeepsManned(s: Sys, steps: seq<Step>, j: nat)
    requires Inv(s) && Manned(s) && Possible(s, steps) && j in s.rows
    requires forall step | step in steps :: Steady(step)
    ensures Inv(Run(s, steps)) && Manned(Run(s, steps))
    ensures j in Run(s, steps).rows && Budget(Run(s, steps), j) == Budget(s, j)
    decreases |steps|
  {
    if steps != [] {
      var step := steps[0];
      assert Steady(step);
      StepKeepsInv(s, step);
      StepKeepsManned(s, step);
      StepKeepsRow(s, step, j);
      SameBudget(s, step, j);
      SameBudget(s, step, j + 1);
      SteadyKeepsManned(Next(s, step), steps[1..], j);
    }
  }

  /** How many claims can find job `j` due before it has ended: its own attempts, and the batches
      that older jobs can fill. */
  function DueLimit(s: Sys, j: nat): int
    requires j in s.rows
  {
    (BudgetBelow(s, j) - AttemptsBelow(s.rows, j)) / BATCH_SIZE + Budget(s, j) - s.rows[j].attempts
  }

  /** Every job ends. In a run without releases, crashes, lost writes and reaps, at every moment a
      job has ended, waits, or is in the batch of a live worker; at most `DueLimit` claims find it
      due; it never waits once that many have; so as soon as that many have, and the workers hold
      nothing, it is completed or dead. */
  lemma JobsEnd(s: Sys, steps: seq<Step>, j: nat)
    requires Inv(s) && Manned(s) && Possible(s, steps) && j in s.rows
    requires forall step | step in steps :: Steady(step)
    ensures var s' := Run(s, steps);
      && j in s'.rows
      && (Ended(s'.rows[j]) || s'.rows[j].status.Pending? || HeldBySome(s', j))
      && DueClaims(s, steps, j) <= DueLimit(s, j)
      && (DueClaims(s, steps, j) == DueLimit(s, j) ==> Ended(s'.rows[j]) || HeldBySome(s', j))
      && (DueClaims(s, steps, j) == DueLimit(s, j) && (forall w :: Held(s', w) == map[]) ==> Ended(s'.rows[j]))
  {
    var s' := Run(s, steps);
    SteadyRun(s, steps, j);
    SteadyBypass(s, steps, j);
    DueClaimsSplit(s, steps, j);
    SteadyKeepsManned(s, steps, j);
    var (spent, older) := (s'.rows[j].attempts, BudgetBelow(s, j) - AttemptsBelow(s.rows, j));
    assert Skips(s, steps, j) <= older / BATCH_SIZE;
    AttemptsFit(s', j);
    assert spent + (if s'.rows[j].status.Pending? then 1 else 0) <= Budget(s, j);
    if HeldBySome(s', j) {
      var w :| w in s'.held && j in s'.held[w];
      assert j in Held(s', w);
    }
  }

  lemma AttemptsFit(s: Sys, j: nat)
    requires Inv(s) && j in s.rows
    ensures s.rows[j].attempts + (if s.rows[j].status.Pending? then 1 else 0) <= Budget(s, j)
  {
  }

  // -------------------------------------------------------------------------
  // The queue never gets stuck
  // -------------------------------------------------------------------------

  ghost predicate SteadySteps(steps: seq<Step>) {
    forall step | step in steps :: Steady(step)
  }

  /** A sound system in which every row in progress has its worker, and `w` is idle. */
  ghost predicate Idle(s: Sys, w: string) {
    Inv(s) && Manned(s) && Held(s, w) == map[]
  }

  /** Every row is still there, and ended ones as they were. */
  predicate KeepsEnded(s: Sys, s': Sys) {
    s'.nextId == s.nextId && forall i | i in s.rows :: i in s'.rows && (Ended(s.rows[i]) ==> s'.rows[i] == s.rows[i])
  }

  /** A steady continuation that keeps the system sound and leaves worker `w` idle. */
  ghost predicate Leads(s: Sys, steps: seq<Step>, w: string) {
    Possible(s, steps) && SteadySteps(steps) && Idle(Run(s, steps), w) && KeepsEnded(s, Run(s, steps))
  }

  lemma LeadsOn(s: Sys, step: Step, rest: seq<Step>, w: string)
    requires Inv(s) && Enabled(s, step) && Steady(step) && !step.Enqueue? && Leads(Next(s, step), rest, w)
    ensures Leads(s, [step] + rest, w) && Run(s, [step] + rest) == Run(Next(s, step), rest)
  {
    RunCons(s, step, rest);
    forall i | i in s.rows ensures i in Next(s, step).rows && (Ended(s.rows[i]) ==> Next(s, step).rows[i] == s.rows[i]) {
      StepKeepsRow(s, step, i);
    }
  }

  lemma LeadsFurther(s: Sys, a: seq<Step>, b: seq<Step>, w: string)
    requires Leads(s, a, w) && Leads(Run(s, a), b, w)
    ensures Leads(s, a + b, w) && Run(s, a + b) == Run(Run(s, a), b)
  {
    RunAppend(s, a, b);
  }

  lemma StayIdle(s: Sys, w: string)
    requires Inv(s) && Manned(s) && Held(s, w) == map[]
    ensures Leads(s, [], w)
  {
  }

  lemma FinishOne(s: Sys, w: string, id: nat)
    requires Inv(s) && Manned(s) && id in Held(s, w)
    ensures var s' := Next(s, Finish(w, id));
      && Inv(s') && Manned(s') && Held(s', w) == Held(s, w) - {id}
      && id in s'.rows && Ended(s'.rows[id])
  {
    HeldFacts(s, w, id);
    StepKeepsInv(s, Finish(w, id));
    StepKeepsManned(s, Finish(w, id));
  }

  /** A worker can finish everything it holds. */
  lemma {:induction false} EmptyHands(s: Sys, w: string) returns (steps: seq<Step>)
    requires Inv(s) && Manned(s)
    ensures Leads(s, steps, w)
    ensures forall i | i in Held(s, w) :: i in Run(s, steps).rows && Ended(Run(s, steps).rows[i])
    decreases |Held(s, w)|
  {
    if Held(s, w) == map[] {
      steps := [];
      StayIdle(s, w);
    } else {
      var id :| id in Held(s, w);
      FinishOne(s, w, id);
      var s' := Next(s, Finish(w, id));
      var rest := EmptyHands(s', w);
      LeadsOn(s, Finish(w, id), rest, w);
      steps := [Finish(w, id)] + rest;
      assert forall i | i in Held(s, w) :: i == id || i in Held(s', w);
    }
  }

  /** A waiting job with nothing unfinished before it can be claimed and finished. */
  lemma WaitingCanEnd(s: Sys, w: string, j: nat) returns (steps: seq<Step>)
    requires Inv(s) && Manned(s) && Held(s, w) == map[] && j in s.rows && s.rows[j].status.Pending?
    requires forall i | i in s.rows && i < j :: Ended(s.rows[i])
    ensures Leads(s, steps, w) && Ended(Run(s, steps).rows[j])
  {
    var wait := Tick(if s.rows[j].nextRunAt > s.now then s.rows[j].nextRunAt - s.now else 0);
    var s1 := Next(s, wait);
    StepKeepsInv(s, wait);
    StepKeepsManned(s, wait);
    assert Ahead(s1.rows, s1.now, j) == {} && j in ClaimIds(s1.rows, s1.now, BATCH_SIZE);
    var s2 := Next(s1, Claim(w));
    StepKeepsInv(s1, Claim(w));
    StepKeepsManned(s1, Claim(w));
    var rest := EmptyHands(s2, w);
    assert j in Held(s2, w);
    LeadsOn(s1, Claim(w), rest, w);
    LeadsOn(s, wait, [Claim(w)] + rest, w);
    steps := [wait] + ([Claim(w)] + rest);
  }

  lemma RunningCanEnd(s: Sys, w: string, j: nat) returns (steps: seq<Step>)
    requires Inv(s) && Manned(s) && Held(s, w) == map[] && j in s.rows && s.rows[j].status.InProgress?
    ensures Leads(s, steps, w) && Ended(Run(s, steps).rows[j])
  {
    assert HeldBySome(s, j);
    var v :| v in s.held && j in s.held[v];
    var step := Finish(v, j);
    StepKeepsInv(s, step);
    StepKeepsManned(s, step);
    assert v != w && Held(Next(s, step), w) == map[];
    StayIdle(Next(s, step), w);
    LeadsOn(s, step, [], w);
    steps := [step] + [];
  }

  lemma OneJobCanEnd(s: Sys, w: string, j: nat) returns (steps: seq<Step>)
    requires Inv(s) && Manned(s) && Held(s, w) == map[] && j in s.rows
    requires forall i | i in s.rows && i < j :: Ended(s.rows[i])
    ensures Leads(s, steps, w) && Ended(Run(s, steps).rows[j])
  {
    if s.rows[j].status.Pending? {
      steps := WaitingCanEnd(s, w, j);
    } else if s.rows[j].status.InProgress? {
      steps := RunningCanEnd(s, w, j);
    } else {
      steps := [];
      StayIdle(s, w);
    }
  }

  ghost predicate EndedBelow(s: Sys, n: nat) {
    forall i | i in s.rows && i < n :: Ended(s.rows[i])
  }

  lemma EndedStay(s: Sys, s': Sys, n: nat)
    requires Inv(s) && Inv(s') && EndedBelow(s, n) && KeepsEnded(s, s') && n < s.nextId && Ended(s'.rows[n])
    ensures EndedBelow(s', n + 1)
  {
  }

  lemma OneMoreEnded(s: Sys, before: seq<Step>, w: string, n: nat) returns (steps: seq<Step>)
    requires Leads(s, before, w) && EndedBelow(Run(s, before), n) && n < s.nextId
    ensures Leads(s, steps, w) && EndedBelow(Run(s, steps), n + 1)
  {
    var s' := Run(s, before);
    var last := OneJobCanEnd(s', w, n);
    EndedStay(s', Run(s', last), n);
    LeadsFurther(s, before, last, w);
    steps := before + last;
  }

  /** No deadlock and no lost job: from every sound state in which rows in progress have their
      worker, one idle worker and time are enough to bring every job to an end. */
  lemma {:induction false} AllJobsCanEnd(s: Sys, w: string, n: nat) returns (steps: seq<Step>)
    requires Inv(s) && Manned(s) && Held(s, w) == map[] && n <= s.nextId
    ensures Leads(s, steps, w) && EndedBelow(Run(s, steps), n)
    decreases n
  {
    if n == 0 {
      steps := [];
      StayIdle(s, w);
    } else {
      var before := AllJobsCanEnd(s, w, n - 1);
      steps := OneMoreEnded(s, before, w, n - 1);
    }
  }

  // -------------------------------------------------------------------------
  // From an empty queue
  // -------------------------------------------------------------------------

  lemma {:induction false} RunKeepsManned(s: Sys, steps: seq<Step>)
    requires Inv(s) && Manned(s) && Possible(s, steps) && Leased(s, steps)
    requires forall step | step in steps :: !step.Lose? && !step.Crash?
    ensures Manned(Run(s, steps))
    decreases |steps|
  {
    if steps != [] {
      assert !steps[0].Lose? && !steps[0].Crash?;
      StepKeepsInv(s, steps[0]);
      StepKeepsManned(s, steps[0]);
      RunKeepsManned(Next(s, steps[0]), steps[1..]);
    }
  }

  /** Every state a leased run reaches from an empty queue is sound, and, if no worker crashed and
      no closing write was lost, every row in progress has a worker: all that is said above of
      sound states holds of the running system. */
  lemma ReachableIsSound(now: int, steps: seq<Step>)
    requires Possible(Start(now), steps) && Leased(Start(now), steps)
    ensures Inv(Run(Start(now), steps))
    ensures (forall step | step in steps :: !step.Lose? && !step.Crash?) ==> Manned(Run(Start(now), steps))
  {
    QueueStaysSound(Start(now), steps);
    if forall step | step in steps :: !step.Lose? && !step.Crash? {
      RunKeepsManned(Start(now), steps);
    }
  }

  // -------------------------------------------------------------------------
  // When the lease holds
  // -------------------------------------------------------------------------

  /** When each worker last claimed a batch. */
  function SinceAfter(s: Sys, since: map<string, int>, step: Step): map<string, int> {
    if step.Claim? then since[step.worker := s.now] else since
  }

  /** The claims a worker holds were all stamped when it took its batch, however long ago that is. */
  predicate StampedAtOnce(s: Sys, since: map<string, int>) {
    forall w | w in s.held :: forall id | id in s.held[w] ::
      w in since && id in s.rows && s.rows[id].lock.Some? && s.rows[id].lock.value.at == since[w]
  }

  lemma StepKeepsStamps(s: Sys, since: map<string, int>, step: Step)
    requires Inv(s) && StampedAtOnce(s, since) && Enabled(s, step) && (step.Reap? ==> LeaseHolds(s))
    ensures StampedAtOnce(Next(s, step), SinceAfter(s, since, step))
  {
    var (s', since') := (Next(s, step), SinceAfter(s, since, step));
    forall w, id | w in s'.held && id in s'.held[w]
      ensures w in since' && id in s'.rows && s'.rows[id].lock.Some? && s'.rows[id].lock.value.at == since'[w]
    {
      if !(step.Claim? && step.worker == w) {
        HeldBefore(s, step, w, id);
      }
    }
  }

  lemma HeldWasHeld(s: Sys, step: Step, w: string, id: nat)
    requires Enabled(s, step) && !(step.Claim? && step.worker == w) && w in Next(s, step).held && id in Next(s, step).held[w]
    ensures w in s.held && id in s.held[w]
  {
  }

  lemma InProgressStays(s: Sys, step: Step, id: nat)
    requires IdsDense(s) && Enabled(s, step) && id in s.rows && id in Next(s, step).rows
    requires s.rows[id].status.InProgress? && Next(s, step).rows[id].status.InProgress?
    ensures Next(s, step).rows[id] == s.rows[id]
  {
  }

  /** A claim that is not new was held before, on the same terms. */
  lemma HeldBefore(s: Sys, step: Step, w: string, id: nat)
    requires Inv(s) && Enabled(s, step) && (step.Reap? ==> LeaseHolds(s)) && !(step.Claim? && step.worker == w)
    requires w in Next(s, step).held && id in Next(s, step).held[w]
    ensures w in s.held && id in s.held[w] && id in s.rows
    ensures id in Next(s, step).rows && Next(s, step).rows[id] == s.rows[id]
  {
    HeldWasHeld(s, step, w, id);
    StepKeepsInv(s, step);
    InProgressStays(s, step, id);
  }

  /** Every worker that still holds a job took its batch no longer ago than the lock timeout. */
  predicate InTime(s: Sys, since: map<string, int>) {
    forall w | w in s.held && s.held[w] != map[] :: w in since && s.now - since[w] <= STUCK_LOCK_MILLIS
  }

  lemma LeaseIsInTime(s: Sys, since: map<string, int>)
    requires Inv(s) && StampedAtOnce(s, since)
    ensures LeaseHolds(s) <==> InTime(s, since)
  {
    if LeaseHolds(s) {
      forall w | w in s.held && s.held[w] != map[] ensures w in since && s.now - since[w] <= STUCK_LOCK_MILLIS {
        var id :| id in s.held[w];
        assert !Stuck(s.rows[id], s.now, STUCK_LOCK_MILLIS);
      }
    }
  }

  /** Whenever somebody reaps, every batch not yet worked off is younger than the lock timeout. */
  predicate Timely(s: Sys, since: map<string, int>, steps: seq<Step>)
    requires Possible(s, steps)
    decreases |steps|
  {
    steps != [] ==>
      (steps[0].Reap? ==> InTime(s, since)) && Timely(Next(s, steps[0]), SinceAfter(s, since, steps[0]), steps[1..])
  }

  lemma {:induction false} TimelyIsLeased(s: Sys, since: map<string, int>, steps: seq<Step>)
    requires Inv(s) && StampedAtOnce(s, since) && Possible(s, steps)
    ensures Timely(s, since, steps) <==> Leased(s, steps)
    decreases |steps|
  {
    if steps != [] {
      LeaseIsInTime(s, since);
      if steps[0].Reap? ==> LeaseHolds(s) {
        StepKeepsInv(s, steps[0]);
        StepKeepsStamps(s, since, steps[0]);
        TimelyIsLeased(Next(s, steps[0]), SinceAfter(s, since, steps[0]), steps[1..]);
      }
    }
  }

  /** A run from an empty queue keeps the lease exactly when no reap meets a batch that was taken
      longer than the lock timeout ago and is not worked off: the whole batch counts, since its
      jobs run one after another under one stamp. */
  lemma LeasedExactly(now: int, steps: seq<Step>)
    requires Possible(Start(now), steps)
    ensures Timely(Start(now), map[], steps) <==> Leased(Start(now), steps)
  {
    TimelyIsLeased(Start(now), map[], steps);
  }

  // -------------------------------------------------------------------------
  // Why the lease matters
  // -------------------------------------------------------------------------

  lemma ClaimSole(t: Table, now: int)
    requires t.Keys == {0} && Due(t[0], now)
    ensures ClaimIds(t, now, BATCH_SIZE) == {0}
  {
  }

  /** The only job, running on worker `a`. */
  function Running(a: string): Sys {
    var r := Claimed(NewRow(PlayerSync, Null, 0), a, 0);
    Sys(map[0 := r], 1, 0, map[a := map[0 := Job(0, PlayerSync, Null, 1, MAX_ATTEMPTS)]], map[0 := Ledger(0, 0, 0)])
  }

  lemma RunningIsReached(a: string)
    ensures var steps := [Enqueue(PlayerSync, Null, 0), Claim(a)];
      Possible(Start(0), steps) && Run(Start(0), steps) == Running(a)
  {
    var s1 := Next(Start(0), Enqueue(PlayerSync, Null, 0));
    ClaimSole(s1.rows, s1.now);
    var s2 := Next(s1, Claim(a));
    assert s2.rows == Running(a).rows && s2.held[a] == Running(a).held[a];
    assert s2.held == Running(a).held && s2.ledger == Running(a).ledger;
    RunCons(s1, Claim(a), []);
    RunCons(Start(0), Enqueue(PlayerSync, Null, 0), [Claim(a)]);
    assert [Claim(a)] + [] == [Claim(a)];
    assert [Enqueue(PlayerSync, Null, 0)] + [Claim(a)] == [Enqueue(PlayerSync, Null, 0), Claim(a)];
  }

  lemma SecondHolder(a: string, b: string)
    requires a != b
    ensures var steps := [Tick(STUCK_LOCK_MILLIS + 1)] + ([Reap] + [Claim(b)]);
      && Possible(Running(a), steps)
      && 0 in Held(Run(Running(a), steps), a) && 0 in Held(Run(Running(a), steps), b)
  {
    var s3 := Next(Running(a), Tick(STUCK_LOCK_MILLIS + 1));
    var s4 := Next(s3, Reap);
    ClaimSole(s4.rows, s4.now);
    assert [Claim(b)] + [] == [Claim(b)];
    RunCons(s4, Claim(b), []);
    RunCons(s3, Reap, [Claim(b)]);
    RunCons(Running(a), Tick(STUCK_LOCK_MILLIS + 1), [Reap] + [Claim(b)]);
  }

  /** A live worker that outstays the lock timeout: from an empty queue, a job is enqueued and
      claimed, its time runs out, a reap hands it to a second worker, and both hold it. */
  lemma OverstayedLease(a: string, b: string)
    requires a != b
    ensures var steps := [Enqueue(PlayerSync, Null, 0), Claim(a)] + ([Tick(STUCK_LOCK_MILLIS + 1)] + ([Reap] + [Claim(b)]));
      && Possible(Start(0), steps) && !Leased(Start(0), steps)
      && 0 in Held(Run(Start(0), steps), a) && 0 in Held(Run(Start(0), steps), b)
  {
    var (before, after) := ([Enqueue(PlayerSync, Null, 0), Claim(a)], [Tick(STUCK_LOCK_MILLIS + 1)] + ([Reap] + [Claim(b)]));
    RunningIsReached(a);
    SecondHolder(a, b);
    RunAppend(Start(0), before, after);
    if Leased(Start(0), before + after) {
      ReachableIsSound(0, before + after);
      SoundQueueMeans(Run(Start(0), before + after), a, b, 0);
    }
  }

  const HALF_AN_HOUR: nat := 30 * 60 * 1000

  /** Two jobs claimed by worker `a`. */
  function BothHeld(a: string): Sys {
    var running := Claimed(NewRow(ConfigSync, Null, 0), a, 0);
    Sys(map[0 := running, 1 := running],
        2,
        0,
        map[a := map[0 := Job(0, ConfigSync, Null, 1, MAX_ATTEMPTS), 1 := Job(1, ConfigSync, Null, 1, MAX_ATTEMPTS)]],
        map[0 := Ledger(0, 0, 0), 1 := Ledger(0, 0, 0)])
  }

  /** The same an hour later, the first job worked off halfway. */
  function SecondOfTwo(a: string): Sys {
    var running := Claimed(NewRow(ConfigSync, Null, 0), a, 0);
    Sys(map[0 := Finished(running, Completed, HALF_AN_HOUR), 1 := running],
        2,
        2 * HALF_AN_HOUR,
        map[a := map[1 := Job(1, ConfigSync, Null, 1, MAX_ATTEMPTS)]],
        map[0 := Ledger(0, 0, 0), 1 := Ledger(0, 0, 0)])
  }

  function TakeTwo(a: string): seq<Step> {
    [Enqueue(ConfigSync, Null, 0)] + ([Enqueue(ConfigSync, Null, 0)] + ([Claim(a)] + []))
  }

  function WorkAnHour(a: string): seq<Step> {
    [Tick(HALF_AN_HOUR)] + ([Finish(a, 0)] + ([Tick(HALF_AN_HOUR)] + []))
  }

  function TwoLongJobs(a: string): seq<Step> {
    TakeTwo(a) + WorkAnHour(a)
  }

  lemma ClaimBoth(t: Table, now: int)
    requires t.Keys == {0, 1} && Due(t[0], now) && Due(t[1], now)
    ensures ClaimIds(t, now, BATCH_SIZE) == {0, 1}
  {
    assert Ahead(t, now, 0) == {} && Ahead(t, now, 1) == {0};
  }

  function TwoQueued(): Sys {
    var waiting := NewRow(ConfigSync, Null, 0);
    Sys(map[0 := waiting, 1 := waiting], 2, 0, map[], map[0 := Ledger(0, 0, 0), 1 := Ledger(0, 0, 0)])
  }

  lemma TwoEnqueue()
    ensures Next(Next(Start(0), Enqueue(ConfigSync, Null, 0)), Enqueue(ConfigSync, Null, 0)) == TwoQueued()
  {
  }

  lemma TwoClaimedRows(a: string)
    ensures ClaimTable(TwoQueued().rows, {0, 1}, a, 0) == BothHeld(a).rows
  {
  }

  lemma TwoClaimedJobs(a: string)
    ensures (map i | i in {0, 1} :: ClaimedJob(TwoQueued().rows, i)) == BothHeld(a).held[a]
  {
  }

  lemma TwoClaim(a: string)
    ensures Next(TwoQueued(), Claim(a)) == BothHeld(a)
  {
    var s := Next(TwoQueued(), Claim(a));
    ClaimBoth(TwoQueued().rows, 0);
    TwoClaimedRows(a);
    TwoClaimedJobs(a);
    assert s.held[a] == BothHeld(a).held[a] && s.held == BothHeld(a).held;
  }

  lemma TwoAreTaken(a: string)
    ensures Possible(Start(0), TakeTwo(a)) && Run(Start(0), TakeTwo(a)) == BothHeld(a)
  {
    var enqueue := Enqueue(ConfigSync, Null, 0);
    var s1 := Next(Start(0), enqueue);
    TwoEnqueue();
    TwoClaim(a);
    RunCons(TwoQueued(), Claim(a), []);
    RunCons(s1, enqueue, [Claim(a)] + []);
    RunCons(Start(0), enqueue, [enqueue] + ([Claim(a)] + []));
  }

  lemma AnHourPasses(a: string)
    ensures Possible(BothHeld(a), WorkAnHour(a)) && Run(BothHeld(a), WorkAnHour(a)) == SecondOfTwo(a)
  {
    var s1 := Next(BothHeld(a), Tick(HALF_AN_HOUR));
    var s2 := Next(s1, Finish(a, 0));
    var s3 := Next(s2, Tick(HALF_AN_HOUR));
    assert s3.rows == SecondOfTwo(a).rows;
    assert s3.held[a] == SecondOfTwo(a).held[a] && s3.held == SecondOfTwo(a).held;
    RunCons(s2, Tick(HALF_AN_HOUR), []);
    RunCons(s1, Finish(a, 0), [Tick(HALF_AN_HOUR)] + []);
    RunCons(BothHeld(a), Tick(HALF_AN_HOUR), [Finish(a, 0)] + ([Tick(HALF_AN_HOUR)] + []));
  }

  lemma TwoLongJobsTake(a: string)
    ensures Possible(Start(0), TwoLongJobs(a)) && Run(Start(0), TwoLongJobs(a)) == SecondOfTwo(a)
  {
    TwoAreTaken(a);
    AnHourPasses(a);
    RunAppend(Start(0), TakeTwo(a), WorkAnHour(a));
  }

  lemma SecondJobIsTakenOver(a: string, b: string)
    requires a != b
    ensures var steps := [Reap] + ([Claim(b)] + []);
      && Possible(SecondOfTwo(a), steps)
      && 1 in Held(Run(SecondOfTwo(a), steps), a) && 1 in Held(Run(SecondOfTwo(a), steps), b)
  {
    var s1 := Next(SecondOfTwo(a), Reap);
    assert s1.rows[1] == Requeued(SecondOfTwo(a).rows[1], s1.now) && s1.rows[0].status.Completed?;
    assert Ahead(s1.rows, s1.now, 1) == {} && 1 in ClaimIds(s1.rows, s1.now, BATCH_SIZE);
    RunCons(s1, Claim(b), []);
    RunCons(SecondOfTwo(a), Reap, [Claim(b)] + []);
  }

  /** Two jobs of half an hour each, as the longest upload may take, already break the lease of
      their batch: the second is still running when another worker reaps it and takes it over. */
  lemma TwoLongJobsOverstay(a: string, b: string)
    requires a != b
    ensures var steps := TwoLongJobs(a) + ([Reap] + ([Claim(b)] + []));
      && Possible(Start(0), steps) && !Leased(Start(0), steps)
      && 1 in Held(Run(Start(0), steps), a) && 1 in Held(Run(Start(0), steps), b)
  {
    var after := [Reap] + ([Claim(b)] + []);
    TwoLongJobsTake(a);
    SecondJobIsTakenOver(a, b);
    RunAppend(Start(0), TwoLongJobs(a), after);
    if Leased(Start(0), TwoLongJobs(a) + after) {
      ReachableIsSound(0, TwoLongJobs(a) + after);
      SoundQueueMeans(Run(Start(0), TwoLongJobs(a) + after), a, b, 1);
    }
  }
}
