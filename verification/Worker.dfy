// One worker of src/tasks/job_worker.rs: what a job asks for, how its outcome settles the
// row, and the batch loop, shown to be a run of the queue's state machine.
module Worker {
  import opened Wrappers
  import opened Json
  import opened Jobs
  import opened JobRuns
  import SyncEngine
  import SyncModel

  // -------------------------------------------------------------------------
  // Payloads
  // -------------------------------------------------------------------------

  datatype Work =
    | Reevaluate(user: string)
    | Unlink(user: string)
    | SyncLink(key: SyncModel.Key)
    | Post(url: string, body: Value)

  /** The kind and payload the typed enqueue helpers write. */
  function Payload(work: Work): (Kind, Value) {
    match work
    case Reevaluate(u) => (PlayerSync, Obj(map["event" := Str("updated"), "discord_id" := Str(u)]))
    case Unlink(u) => (PlayerSync, Obj(map["event" := Str("unlinked"), "discord_id" := Str(u)]))
    case SyncLink(k) => (ConfigSync, Obj(map["guild_id" := Str(k.guild), "role_id" := Str(k.role)]))
    case Post(url, body) => (Webhook, Obj(map["url" := Str(url), "body" := body]))
  }

  /** What dispatch reads back; `None` is a malformed payload, which is terminal. */
  function WorkOf(kind: Kind, payload: Value): Option<Work> {
    match kind
    case PlayerSync =>
      (match (Get(payload, "event"), Get(payload, "discord_id"))
       case (Some(Str(event)), Some(Str(u))) =>
         if event == "updated" then Some(Reevaluate(u)) else if event == "unlinked" then Some(Unlink(u)) else None
       case _ => None)
    case ConfigSync =>
      (match (Get(payload, "guild_id"), Get(payload, "role_id"))
       case (Some(Str(g)), Some(Str(r))) => Some(SyncLink(SyncModel.Key(g, r)))
       case _ => None)
    case Webhook =>
      (match (Get(payload, "url"), Get(payload, "body"))
       case (Some(Str(url)), Some(body)) => Some(Post(url, body))
       case _ => None)
  }

  /** Dispatch reads back exactly the work that was enqueued, so distinct work never shares a
      payload and an enqueued job is never terminal for its shape. */
  lemma PayloadRoundTrip(work: Work)
    ensures WorkOf(Payload(work).0, Payload(work).1) == Some(work)
  {
  }

  // -------------------------------------------------------------------------
  // Settling
  // -------------------------------------------------------------------------

  datatype Ending = Succeeded | Terminal | Retryable

  /** `From<AppError>`: only a deleted link and a full list are hopeless; a switched-off or
      held link never reaches here. */
  function EndingOf(r: SyncModel.SyncResult): Ending {
    match r
    case Synced => Succeeded
    case Recheck => Succeeded
    case Errored(terminal) => if terminal then Terminal else Retryable
  }

  /** How soon a held write is looked at again. */
  const HELD_RECHECK_MILLIS: nat := 20 * 60 * 1000

  /** A config-sync job: the role-link sync, and for a held write a timer. However often a link is
      held, one sync of it is waiting afterwards and no second one is added. */
  method SyncLinkJob(e: SyncEngine.Engine, q: JobQueue, k: SyncModel.Key, run: SyncModel.BulkRun)
    returns (outcome: Ending, ghost result: SyncModel.SyncResult)
    requires q.Valid()
    modifies e`links, e`mirror, e`remote, q`rows, q`nextId
    ensures (e.State(), result) == SyncModel.BulkStep(old(e.State()), k, run) && outcome == EndingOf(result)
    ensures q.Valid() && q.clock == old(q.clock)
    ensures !result.Recheck? ==> q.rows == old(q.rows)
    ensures result.Recheck? ==>
      var (payload, was) := (Payload(SyncLink(k)).1, Waiting(old(q.rows), ConfigSync, Payload(SyncLink(k)).1));
      && Waiting(q.rows, ConfigSync, payload) == (if was != {} then was else {old(q.nextId)})
      && (was == {} ==> q.rows == old(q.rows)[old(q.nextId) := NewRow(ConfigSync, payload, q.clock + HELD_RECHECK_MILLIS)])
      && (was != {} ==> q.rows == old(q.rows))
  {
    var synced := e.SyncForRoleLink(k, run);
    result := synced;
    if synced.Recheck? {
      q.EnqueueConfigSyncUnlessQueued(Payload(SyncLink(k)).1, HELD_RECHECK_MILLIS);
    }
    outcome := EndingOf(synced);
  }

  /** One turn of the batch loop: whether shutdown was seen first, how the work went, how long
      it took, the jitter drawn, and whether the closing UPDATE reached the database. */
  datatype Turn = Turn(shutdown: bool, outcome: Ending, took: nat, jitter: nat, written: bool)

  function Settle(worker: string, job: Job, turn: Turn): Step {
    if !turn.written then Lose(worker, job.id)
    else if turn.shutdown then Release(worker, job.id, turn.jitter)
    else
      match turn.outcome
      case Succeeded => Finish(worker, job.id)
      case Terminal => Bury(worker, job.id)
      case Retryable => if job.attempts >= job.maxAttempts then Bury(worker, job.id) else Retry(worker, job.id, turn.jitter)
  }

  /** The rows after one turn. */
  function Settled(t: Table, now: int, job: Job, turn: Turn): Table {
    if !turn.written then t
    else if turn.shutdown then RequeueTable(t, job.id, now + Backoff(job.attempts, turn.jitter))
    else
      match turn.outcome
      case Succeeded => FinishTable(t, job.id, Completed, now)
      case Terminal => FinishTable(t, job.id, Dead, now)
      case Retryable =>
        if job.attempts >= job.maxAttempts then FinishTable(t, job.id, Dead, now)
        else RequeueTable(t, job.id, now + Backoff(job.attempts, turn.jitter))
  }

  /** The steps a worker takes over its batch, one job after another. */
  function BatchSteps(worker: string, batch: seq<Job>, turns: Job -> Turn): seq<Step> {
    if batch == [] then []
    else
      var turn := turns(batch[0]);
      [Tick(turn.took)] + ([Settle(worker, batch[0], turn)] + BatchSteps(worker, batch[1..], turns))
  }

  function Drained(t: Table, now: int, batch: seq<Job>, turns: Job -> Turn): (Table, int)
    decreases |batch|
  {
    if batch == [] then (t, now)
    else
      var turn := turns(batch[0]);
      Drained(Settled(t, now + turn.took, batch[0], turn), now + turn.took, batch[1..], turns)
  }

  lemma {:induction false} DrainedSnoc(t: Table, now: int, batch: seq<Job>, turns: Job -> Turn, job: Job)
    ensures var (u, at) := Drained(t, now, batch, turns);
      Drained(t, now, batch + [job], turns) == (Settled(u, at + turns(job).took, job, turns(job)), at + turns(job).took)
    decreases |batch|
  {
    if batch != [] {
      var turn := turns(batch[0]);
      assert (batch + [job])[1..] == batch[1..] + [job];
      DrainedSnoc(Settled(t, now + turn.took, batch[0], turn), now + turn.took, batch[1..], turns, job);
    }
  }

  method DrainBatch(q: JobQueue, batch: seq<Job>, turns: Job -> Turn)
    modifies q`rows, q`clock
    ensures (q.rows, q.clock) == Drained(old(q.rows), old(q.clock), batch, turns)
  {
    ghost var (t, now) := (q.rows, q.clock);
    var i := 0;
    while i < |batch|
      invariant 0 <= i <= |batch|
      invariant (q.rows, q.clock) == Drained(t, now, batch[..i], turns)
    {
      var (job, turn) := (batch[i], turns(batch[i]));
      DrainedSnoc(t, now, batch[..i], turns, job);
      assert batch[..i] + [job] == batch[..i + 1];
      q.clock := q.clock + turn.took;
      if turn.written {
        if turn.shutdown {
          q.FailRetry(job, turn.jitter);
        } else {
          match turn.outcome {
            case Succeeded => q.Complete(job.id);
            case Terminal => q.FailDead(job.id);
            case Retryable =>
              if job.attempts >= job.maxAttempts {
                q.FailDead(job.id);
              } else {
                q.FailRetry(job, turn.jitter);
              }
          }
        }
      }
      i := i + 1;
    }
    assert batch[..i] == batch;
  }

  const REAP_EVERY_MILLIS: nat := 120_000

  /** One iteration of the worker loop that found work: reap if it is time, claim, drain. */
  method Cycle(q: JobQueue, worker: string, lastReap: int, turns: Job -> Turn)
    returns (reapedAt: int, batch: seq<Job>)
    requires q.Valid()
    modifies q
    ensures var due := old(q.clock) - lastReap >= REAP_EVERY_MILLIS;
      var t := if due then ReapTable(old(q.rows), old(q.clock), STUCK_LOCK_MILLIS) else old(q.rows);
      var ids := ClaimIds(t, old(q.clock), BATCH_SIZE);
      && reapedAt == (if due then old(q.clock) else lastReap)
      && ids == IdsOf(batch) && |batch| <= BATCH_SIZE
      && (forall j | j in batch :: j.id in t && j == ClaimedJob(t, j.id))
      && (forall i, j | 0 <= i < j < |batch| :: batch[i].id != batch[j].id)
      && (q.rows, q.clock) == Drained(ClaimTable(t, ids, worker, old(q.clock)), old(q.clock), batch, turns)
  {
    reapedAt := lastReap;
    if q.clock - lastReap >= REAP_EVERY_MILLIS {
      var _ := q.ReapStuck(STUCK_LOCK_MILLIS);
      reapedAt := q.clock;
    }
    batch := q.ClaimBatch(worker, BATCH_SIZE);
    DrainBatch(q, batch, turns);
  }

  ghost predicate Holds(s: Sys, worker: string, batch: seq<Job>) {
    && (forall j | j in batch :: j.id in Held(s, worker) && Held(s, worker)[j.id] == j)
    && (forall i, j | 0 <= i < j < |batch| :: batch[i].id != batch[j].id)
  }

  /** The system after one turn. */
  function TurnTaken(s: Sys, worker: string, job: Job, turn: Turn): Sys
    requires job.id in Held(s, worker) && Held(s, worker)[job.id] == job
  {
    Next(Next(s, Tick(turn.took)), Settle(worker, job, turn))
  }

  lemma OneTurn(s: Sys, worker: string, job: Job, turn: Turn)
    requires job.id in Held(s, worker) && Held(s, worker)[job.id] == job
    ensures var s' := TurnTaken(s, worker, job, turn);
      && s'.rows == Settled(s.rows, s.now + turn.took, job, turn) && s'.now == s.now + turn.took
      && Held(s', worker) == Held(s, worker) - {job.id}
  {
  }

  lemma OneTurnRuns(s: Sys, worker: string, job: Job, turn: Turn, rest: seq<Step>)
    requires job.id in Held(s, worker) && Held(s, worker)[job.id] == job
    requires Possible(TurnTaken(s, worker, job, turn), rest)
    ensures var steps := [Tick(turn.took)] + ([Settle(worker, job, turn)] + rest);
      Possible(s, steps) && Run(s, steps) == Run(TurnTaken(s, worker, job, turn), rest)
  {
  }

  lemma HoldsRest(s: Sys, s': Sys, worker: string, batch: seq<Job>)
    requires batch != [] && Holds(s, worker, batch) && Held(s', worker) == Held(s, worker) - {batch[0].id}
    ensures Holds(s', worker, batch[1..])
    ensures Held(s', worker) - IdsOf(batch[1..]) == Held(s, worker) - IdsOf(batch)
  {
  }

  /** What a batch does to the system. */
  ghost predicate Drains(s: Sys, worker: string, batch: seq<Job>, turns: Job -> Turn) {
    var steps := BatchSteps(worker, batch, turns);
    && Possible(s, steps)
    && (Run(s, steps).rows, Run(s, steps).now) == Drained(s.rows, s.now, batch, turns)
    && Held(Run(s, steps), worker) == Held(s, worker) - IdsOf(batch)
  }

  lemma DrainsOneMore(s: Sys, worker: string, batch: seq<Job>, turns: Job -> Turn)
    requires batch != [] && Holds(s, worker, batch)
    requires batch[0].id in Held(s, worker) && Held(s, worker)[batch[0].id] == batch[0]
    requires Drains(TurnTaken(s, worker, batch[0], turns(batch[0])), worker, batch[1..], turns)
    ensures Drains(s, worker, batch, turns)
  {
    var (job, turn) := (batch[0], turns(batch[0]));
    OneTurn(s, worker, job, turn);
    HoldsRest(s, TurnTaken(s, worker, job, turn), worker, batch);
    OneTurnRuns(s, worker, job, turn, BatchSteps(worker, batch[1..], turns));
  }

  lemma {:induction false} BatchIsARun(s: Sys, worker: string, batch: seq<Job>, turns: Job -> Turn)
    requires Holds(s, worker, batch)
    ensures Drains(s, worker, batch, turns)
    decreases |batch|
  {
    if batch == [] {
      assert IdsOf(batch) == {};
    } else {
      var (job, turn) := (batch[0], turns(batch[0]));
      assert job in batch;
      OneTurn(s, worker, job, turn);
      HoldsRest(s, TurnTaken(s, worker, job, turn), worker, batch);
      BatchIsARun(TurnTaken(s, worker, job, turn), worker, batch[1..], turns);
      DrainsOneMore(s, worker, batch, turns);
    }
  }

  /** How long the jobs of a batch take together. */
  function TookTogether(batch: seq<Job>, turns: Job -> Turn): nat {
    if batch == [] then 0 else turns(batch[0]).took + TookTogether(batch[1..], turns)
  }

  lemma {:induction false} DrainTakes(t: Table, now: int, batch: seq<Job>, turns: Job -> Turn)
    ensures Drained(t, now, batch, turns).1 == now + TookTogether(batch, turns)
    decreases |batch|
  {
    if batch != [] {
      var turn := turns(batch[0]);
      DrainTakes(Settled(t, now + turn.took, batch[0], turn), now + turn.took, batch[1..], turns);
    }
  }

  lemma ClaimAndBatch(s: Sys, worker: string, batch: seq<Job>, turns: Job -> Turn)
    requires Enabled(s, Claim(worker))
    requires IdsOf(batch) == ClaimIds(s.rows, s.now, BATCH_SIZE)
    requires forall j | j in batch :: j.id in s.rows && j == ClaimedJob(s.rows, j.id)
    requires forall i, j | 0 <= i < j < |batch| :: batch[i].id != batch[j].id
    ensures var steps := [Claim(worker)] + BatchSteps(worker, batch, turns);
      && Possible(s, steps)
      && (Run(s, steps).rows, Run(s, steps).now)
        == Drained(ClaimTable(s.rows, IdsOf(batch), worker, s.now), s.now, batch, turns)
      && Enabled(Run(s, steps), Claim(worker))
  {
    var s' := Next(s, Claim(worker));
    forall j | j in batch ensures j.id in Held(s', worker) && Held(s', worker)[j.id] == j {
      assert j.id in IdsOf(batch);
    }
    BatchIsARun(s', worker, batch, turns);
    RunCons(s, Claim(worker), BatchSteps(worker, batch, turns));
    assert Held(s', worker).Keys == IdsOf(batch);
  }

  /** The rows a worker's iteration claims from. */
  function Revived(s: Sys, due: bool): Table {
    if due then ReapTable(s.rows, s.now, STUCK_LOCK_MILLIS) else s.rows
  }

  function CycleSteps(worker: string, due: bool, batch: seq<Job>, turns: Job -> Turn): seq<Step> {
    var rest := [Claim(worker)] + BatchSteps(worker, batch, turns);
    if due then [Reap] + rest else rest
  }

  /** A worker's iteration, with its reap when that is due, its claim and its batch loop, is a run
      of the queue's state machine, after which the worker holds nothing and may claim again, and
      which takes exactly as long as its jobs together: everything proved of such runs holds of
      workers. */
  lemma CycleIsARun(s: Sys, worker: string, due: bool, batch: seq<Job>, turns: Job -> Turn)
    requires Enabled(s, Claim(worker))
    requires IdsOf(batch) == ClaimIds(Revived(s, due), s.now, BATCH_SIZE)
    requires forall j | j in batch :: j.id in s.rows && j == ClaimedJob(Revived(s, due), j.id)
    requires forall i, j | 0 <= i < j < |batch| :: batch[i].id != batch[j].id
    ensures var steps := CycleSteps(worker, due, batch, turns);
      && Possible(s, steps)
      && (Run(s, steps).rows, Run(s, steps).now)
        == Drained(ClaimTable(Revived(s, due), IdsOf(batch), worker, s.now), s.now, batch, turns)
      && Enabled(Run(s, steps), Claim(worker))
      && Run(s, steps).now == s.now + TookTogether(batch, turns)
  {
    DrainTakes(ClaimTable(Revived(s, due), IdsOf(batch), worker, s.now), s.now, batch, turns);
    if due {
      var s' := Next(s, Reap);
      assert s'.rows == Revived(s, due) && s'.now == s.now && Held(s', worker) == Held(s, worker);
      ClaimAndBatch(s', worker, batch, turns);
      RunCons(s, Reap, [Claim(worker)] + BatchSteps(worker, batch, turns));
    } else {
      ClaimAndBatch(s, worker, batch, turns);
    }
  }

  lemma {:induction false} NoStepTakesLonger(s: Sys, steps: seq<Step>, n: nat)
    requires Possible(s, steps) && n <= |steps|
    ensures Possible(s, steps[..n]) && Run(s, steps[..n]).now <= Run(s, steps).now && s.now <= Run(s, steps).now
    decreases |steps|
  {
    if steps != [] {
      NoStepTakesLonger(Next(s, steps[0]), steps[1..], if n == 0 then 0 else n - 1);
      if n > 0 {
        assert steps[..n][1..] == steps[1..][..n - 1];
      }
    }
  }

  /** A worker whose jobs together stay within the lock timeout never outstays it: at every point
      of its batch, the time since its claim is within it. */
  lemma ShortBatchesKeepTheLease(s: Sys, worker: string, batch: seq<Job>, turns: Job -> Turn, n: nat)
    requires Enabled(s, Claim(worker))
    requires IdsOf(batch) == ClaimIds(s.rows, s.now, BATCH_SIZE)
    requires forall j | j in batch :: j.id in s.rows && j == ClaimedJob(s.rows, j.id)
    requires forall i, j | 0 <= i < j < |batch| :: batch[i].id != batch[j].id
    requires TookTogether(batch, turns) <= STUCK_LOCK_MILLIS && n <= |CycleSteps(worker, false, batch, turns)|
    ensures var before := CycleSteps(worker, false, batch, turns)[..n];
      Possible(s, before) && Run(s, before).now - s.now <= STUCK_LOCK_MILLIS
  {
    CycleIsARun(s, worker, false, batch, turns);
    NoStepTakesLonger(s, CycleSteps(worker, false, batch, turns), n);
  }
}
