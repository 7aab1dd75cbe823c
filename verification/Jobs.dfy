// The durable job queue of src/services/jobs.rs: the `jobs` table, one method per SQL
// statement, and the row arithmetic they share. Times are whole milliseconds.
module Jobs {
  import opened Wrappers
  import opened Json
  import Order

  datatype Kind = PlayerSync | ConfigSync | Webhook

  datatype Status = Pending | InProgress | Completed | Dead

  datatype Lock = Lock(worker: string, at: int)

  /** `locked_by` and `locked_at` are set and cleared together by every statement. */
  datatype Row = Row(
    kind: Kind,
    payload: Value,
    status: Status,
    attempts: nat,
    maxAttempts: nat,
    nextRunAt: int,
    lock: Option<Lock>,
    completedAt: Option<int>)

  /** The columns a claim returns to the worker. */
  datatype Job = Job(id: nat, kind: Kind, payload: Value, attempts: nat, maxAttempts: nat)

  type Table = map<nat, Row>

  const MAX_ATTEMPTS: nat := 8

  // -------------------------------------------------------------------------
  // Rows
  // -------------------------------------------------------------------------

  function NewRow(kind: Kind, payload: Value, runAt: int): Row {
    Row(kind, payload, Pending, 0, MAX_ATTEMPTS, runAt, None, None)
  }

  function Claimed(r: Row, worker: string, now: int): Row {
    r.(status := InProgress, lock := Some(Lock(worker, now)), attempts := r.attempts + 1)
  }

  function Finished(r: Row, status: Status, now: int): Row {
    r.(status := status, completedAt := Some(now), lock := None)
  }

  function Requeued(r: Row, runAt: int): Row {
    r.(status := Pending, nextRunAt := runAt, lock := None)
  }

  predicate Due(r: Row, now: int) {
    r.status.Pending? && r.nextRunAt <= now
  }

  predicate Stuck(r: Row, now: int, maxLock: nat) {
    r.status.InProgress? && r.lock.Some? && r.lock.value.at < now - maxLock
  }

  // -------------------------------------------------------------------------
  // Statements as functions of the table
  // -------------------------------------------------------------------------

  /** Due rows queued ahead of `id`. */
  function Ahead(t: Table, now: int, id: nat): set<nat> {
    set i | i in t && i < id && Due(t[i], now)
  }

  /** `ORDER BY id LIMIT n` over the due rows. */
  function ClaimIds(t: Table, now: int, n: nat): set<nat> {
    set i | i in t && Due(t[i], now) && |Ahead(t, now, i)| < n
  }

  function ClaimTable(t: Table, ids: set<nat>, worker: string, now: int): Table {
    map i | i in t :: if i in ids then Claimed(t[i], worker, now) else t[i]
  }

  /** What a claim returns: the row's columns after its attempt was counted. */
  function ClaimedJob(t: Table, id: nat): Job
    requires id in t
  {
    Job(id, t[id].kind, t[id].payload, t[id].attempts + 1, t[id].maxAttempts)
  }

  function JobsOf(t: Table, ids: seq<nat>): (jobs: seq<Job>)
    requires forall id | id in ids :: id in t
    ensures |jobs| == |ids|
    ensures forall i | 0 <= i < |ids| :: jobs[i] == ClaimedJob(t, ids[i])
    ensures IdsOf(jobs) == set id | id in ids
  {
    if ids == [] then []
    else
      var rest := JobsOf(t, ids[1..]);
      assert ids == [ids[0]] + ids[1..];
      var jobs := [ClaimedJob(t, ids[0])] + rest;
      assert IdsOf(jobs) == {ids[0]} + IdsOf(rest) by {
        assert forall x :: x in jobs <==> x == jobs[0] || x in rest;
      }
      jobs
  }

  function IdsOf(jobs: seq<Job>): set<nat> {
    set j | j in jobs :: j.id
  }

  /** `UPDATE … WHERE id = …`: no row, no effect. */
  function FinishTable(t: Table, id: nat, status: Status, now: int): Table {
    if id in t then t[id := Finished(t[id], status, now)] else t
  }

  function RequeueTable(t: Table, id: nat, runAt: int): Table {
    if id in t then t[id := Requeued(t[id], runAt)] else t
  }

  function ReapTable(t: Table, now: int, maxLock: nat): Table {
    map i | i in t :: if Stuck(t[i], now, maxLock) then Requeued(t[i], now) else t[i]
  }

  /** Waiting jobs of a kind with a payload. */
  function Waiting(t: Table, kind: Kind, payload: Value): set<nat> {
    set i | i in t && t[i].kind == kind && t[i].status.Pending? && t[i].payload == payload
  }

  // -------------------------------------------------------------------------
  // Backoff
  // -------------------------------------------------------------------------

  function Pow2(n: nat): (p: nat)
    ensures p > 0
  {
    if n == 0 then 1 else 2 * Pow2(n - 1)
  }

  /** 2s, 4s, ... 256s, plus up to a second of jitter. */
  function Backoff(attempt: nat, jitter: nat): nat {
    Pow2(if attempt < 1 then 1 else if attempt > 8 then 8 else attempt) * 1000 + jitter
  }

  /** Below the ceiling every retry waits strictly longer than the one before it, whatever the
      jitter; the wait always lies between 2 and 257 seconds. */
  lemma BackoffGrows(attempt: nat, jitter: nat, jitter': nat)
    requires jitter < 1000 && jitter' < 1000
    ensures 2000 <= Backoff(attempt, jitter) < 257_000
    ensures 1 <= attempt < 8 ==> Backoff(attempt, jitter) < Backoff(attempt + 1, jitter')
  {
    assert Pow2(1) == 2 && Pow2(2) == 4 && Pow2(3) == 8 && Pow2(4) == 16;
    assert Pow2(5) == 32 && Pow2(6) == 64 && Pow2(7) == 128 && Pow2(8) == 256;
  }

  // -------------------------------------------------------------------------
  // The queue
  // -------------------------------------------------------------------------

  /** The rows of an UPDATE … RETURNING come in no particular order. */
  method InSomeOrder(ids: set<nat>) returns (order: seq<nat>)
    ensures |order| == |ids| && forall id :: id in order <==> id in ids
    ensures forall i, j | 0 <= i < j < |order| :: order[i] != order[j]
  {
    order := [];
    var todo := ids;
    while todo != {}
      invariant todo <= ids && |order| == |ids| - |todo|
      invariant forall id :: id in order <==> id in ids && id !in todo
      invariant forall i, j | 0 <= i < j < |order| :: order[i] != order[j]
    {
      var id :| id in todo;
      todo := todo - {id};
      order := order + [id];
    }
  }

  class JobQueue {
    var rows: Table
    var nextId: nat
    var clock: int

    ghost predicate Valid()
      reads this
    {
      forall i | i in rows :: i < nextId
    }

    constructor (now: int)
      ensures Valid() && rows == map[] && clock == now
    {
      rows, nextId, clock := map[], 0, now;
    }

    /** Returns whether the workers are notified: only for a job runnable at once. */
    method Enqueue(kind: Kind, payload: Value, delay: nat) returns (notified: bool)
      requires Valid()
      modifies this`rows, this`nextId
      ensures Valid() && nextId == old(nextId) + 1
      ensures rows == old(rows)[old(nextId) := NewRow(kind, payload, clock + delay)]
      ensures notified <==> Due(rows[old(nextId)], clock)
    {
      rows := rows[nextId := NewRow(kind, payload, clock + delay)];
      nextId := nextId + 1;
      notified := delay == 0;
    }

    /** The inner SELECT: scans in id order until the batch is full. */
    method SelectDue(batch: nat) returns (ids: seq<nat>)
      requires Valid()
      ensures forall i, j | 0 <= i < j < |ids| :: ids[i] < ids[j]
      ensures (set i | i in ids) == ClaimIds(rows, clock, batch)
      ensures |ids| == |ClaimIds(rows, clock, batch)| <= batch
    {
      ids := [];
      ghost var chosen: set<nat> := {};
      var id := 0;
      while id < nextId && |ids| < batch
        invariant 0 <= id <= nextId && |ids| <= batch
        invariant chosen == (set i | i in rows && i < id && Due(rows[i], clock))
        invariant chosen == (set i | i in ids) && |ids| == |chosen|
        invariant forall i | 0 <= i < |ids| :: ids[i] < id
        invariant forall i, j | 0 <= i < j < |ids| :: ids[i] < ids[j]
      {
        if id in rows && Due(rows[id], clock) {
          ids := ids + [id];
          chosen := chosen + {id};
        }
        id := id + 1;
      }
      PrefixIsClaim(rows, clock, batch, id, chosen, nextId);
    }

    /** Claims the oldest due rows, at most `batch` of them, and returns them in whatever order
        the database updated them. */
    method ClaimBatch(worker: string, batch: nat) returns (jobs: seq<Job>)
      requires Valid()
      modifies this`rows
      ensures Valid()
      ensures rows == ClaimTable(old(rows), ClaimIds(old(rows), clock, batch), worker, clock)
      ensures IdsOf(jobs) == ClaimIds(old(rows), clock, batch)
      ensures |jobs| == |ClaimIds(old(rows), clock, batch)| <= batch
      ensures forall i, j | 0 <= i < j < |jobs| :: jobs[i].id != jobs[j].id
      ensures forall j | j in jobs :: j.id in old(rows) && j == ClaimedJob(old(rows), j.id)
    {
      var due := SelectDue(batch);
      var ids := set id | id in due;
      assert ids == ClaimIds(rows, clock, batch);
      var updated := InSomeOrder(ids);
      assert forall id | id in updated :: id in rows;
      jobs := JobsOf(rows, updated);
      rows := ClaimTable(rows, ids, worker, clock);
    }

    method Complete(id: nat)
      modifies this`rows
      ensures rows == FinishTable(old(rows), id, Completed, clock)
    {
      if id in rows {
        rows := rows[id := Finished(rows[id], Completed, clock)];
      }
    }

    /** The delay is computed from the attempts the worker was handed, not from the row. */
    method FailRetry(job: Job, jitter: nat)
      modifies this`rows
      ensures rows == RequeueTable(old(rows), job.id, clock + Backoff(job.attempts, jitter))
    {
      var delay := Backoff(job.attempts, jitter);
      if job.id in rows {
        rows := rows[job.id := Requeued(rows[job.id], clock + delay)];
      }
    }

    method FailDead(id: nat)
      modifies this`rows
      ensures rows == FinishTable(old(rows), id, Dead, clock)
    {
      if id in rows {
        rows := rows[id := Finished(rows[id], Dead, clock)];
      }
    }

    /** Returns the number of rows revived. */
    method ReapStuck(maxLock: nat) returns (reaped: nat)
      modifies this`rows
      ensures rows == ReapTable(old(rows), clock, maxLock)
      ensures reaped == |set i | i in old(rows) && Stuck(old(rows)[i], clock, maxLock)|
    {
      var stuck := set i | i in rows && Stuck(rows[i], clock, maxLock);
      reaped := |stuck|;
      rows := map i | i in rows :: if i in stuck then Requeued(rows[i], clock) else rows[i];
    }

    /** A held link re-checks on one timer: afterwards a config sync of the link is waiting,
        and none was added if one already was. */
    method EnqueueConfigSyncUnlessQueued(payload: Value, delay: nat)
      requires Valid()
      modifies this`rows, this`nextId
      ensures Valid() && old(nextId) <= nextId <= old(nextId) + 1
      ensures var was := Waiting(old(rows), ConfigSync, payload);
        && Waiting(rows, ConfigSync, payload) == (if was != {} then was else {old(nextId)})
        && rows == (if was != {} then old(rows) else old(rows)[old(nextId) := NewRow(ConfigSync, payload, clock + delay)])
    {
      if Waiting(rows, ConfigSync, payload) == {} {
        rows := rows[nextId := NewRow(ConfigSync, payload, clock + delay)];
        nextId := nextId + 1;
      }
    }
  }

  /** A scan in id order that stops at a full batch, or at the end, has claimed the right rows. */
  lemma PrefixIsClaim(t: Table, now: int, batch: nat, id: nat, ids: set<nat>, nextId: nat)
    requires forall i | i in t :: i < nextId
    requires ids == set i | i in t && i < id && Due(t[i], now)
    requires |ids| <= batch && (id >= nextId || |ids| == batch)
    ensures ids == ClaimIds(t, now, batch)
  {
    forall i | i in t && Due(t[i], now) ensures i in ids <==> |Ahead(t, now, i)| < batch {
      if i < id {
        assert i in ids && i !in Ahead(t, now, i) && Ahead(t, now, i) <= ids;
        assert Ahead(t, now, i) <= ids - {i};
        Order.SubsetSize(Ahead(t, now, i), ids - {i});
      } else {
        assert ids <= Ahead(t, now, i);
        Order.SubsetSize(ids, Ahead(t, now, i));
      }
    }
  }
}
