// Pushing a whole user list to RoleLogic: `RoleLogicClient::upload_users` in
// src/services/rolelogic.rs, against the server's committed and staged lists.
module Upload {
  import opened Wrappers
  import opened Order

  const PUT_MAX_USERS: nat := 100_000
  const CHUNK_SIZE: nat := 100_000

  /** How RoleLogic answers one call. `Accepted` means it processed the call under the
      link's current user cap (`None`: no cap in reach). */
  datatype Reply = Accepted(cap: Option<nat>) | Gone | Inactive | Held | Fault

  /** The replies one upload meets: the single PUT, or session start, chunks and commit. */
  datatype Wire = Wire(put: Reply, start: Reply, chunk: nat -> bool, commit: Reply)

  /** `Ok` and the `AppError`s the sync paths tell apart. */
  datatype Outcome = Done | LinkNotFound | LinkDisabled | RemovalHeld | LimitReached(limit: nat) | Failed

  predicate Exceeds(size: nat, cap: Option<nat>) {
    cap.Some? && size > cap.value
  }

  function PutOutcome(size: nat, reply: Reply): Outcome {
    match reply
    case Gone => LinkNotFound
    case Inactive => LinkDisabled
    case Held => RemovalHeld
    case Fault => Failed
    case Accepted(cap) => if Exceeds(size, cap) then LimitReached(cap.value) else Done
  }

  function StartOutcome(reply: Reply): Outcome {
    match reply
    case Gone => LinkNotFound
    case Inactive => LinkDisabled
    case Accepted(_) => Done
    case _ => Failed
  }

  /** A commit does not recognise the cap message: an over-cap swap is a plain failure. */
  function CommitOutcome(size: nat, reply: Reply): Outcome {
    match reply
    case Held => RemovalHeld
    case Accepted(cap) => if Exceeds(size, cap) then Failed else Done
    case _ => Failed
  }

  /** `slice::chunks`. */
  function Chunks<T>(s: seq<T>, n: nat): (r: seq<seq<T>>)
    requires n > 0
    ensures forall c | c in r :: 0 < |c| <= n
    ensures Flatten(r) == s
    ensures |r| == ChunkCount(|s|, n)
  {
    if s == [] then []
    else if |s| <= n then
      assert Flatten([s]) == s + [];
      [s]
    else
      var r := [s[..n]] + Chunks(s[n..], n);
      assert r[1..] == Chunks(s[n..], n);
      assert s == s[..n] + s[n..];
      r
  }

  function Flatten<T>(parts: seq<seq<T>>): seq<T> {
    if parts == [] then [] else parts[0] + Flatten(parts[1..])
  }

  function ChunkCount(size: nat, n: nat): nat
    requires n > 0
  {
    if size == 0 then 0 else if size <= n then 1 else 1 + ChunkCount(size - n, n)
  }

  lemma {:induction false} FlattenAppend<T>(parts: seq<seq<T>>, last: seq<T>)
    ensures Flatten(parts + [last]) == Flatten(parts) + last
  {
    if parts == [] {
      assert Flatten([last]) == last + [];
    } else {
      FlattenAppend(parts[1..], last);
      assert (parts + [last])[1..] == parts[1..] + [last];
      assert parts[0] + (Flatten(parts[1..]) + last) == parts[0] + Flatten(parts[1..]) + last;
    }
  }

  /** The upload as one atomic exchange: either the server's list becomes `wanted`, or it
      keeps what it had. `count` is the length of the list sent, before the server dedupes. */
  function Deliver(before: set<string>, count: nat, wanted: set<string>, wire: Wire): (r: (Outcome, set<string>))
    ensures r.1 == if r.0.Done? then wanted else before
    ensures r.0.LimitReached? ==> count <= PUT_MAX_USERS && |wanted| > r.0.limit
  {
    var outcome :=
      if count <= PUT_MAX_USERS then PutOutcome(|wanted|, wire.put)
      else if !StartOutcome(wire.start).Done? then StartOutcome(wire.start)
      else if exists i | 0 <= i < ChunkCount(count, CHUNK_SIZE) :: !wire.chunk(i) then Failed
      else CommitOutcome(|wanted|, wire.commit);
    (outcome, if outcome.Done? then wanted else before)
  }

  /** The chunked flow leaves the server exactly where one atomic exchange would. */
  method UploadUsers(before: set<string>, ids: seq<string>, wire: Wire)
    returns (outcome: Outcome, committed: set<string>)
    ensures (outcome, committed) == Deliver(before, |ids|, Elems(ids), wire)
  {
    committed := before;
    if |ids| <= PUT_MAX_USERS {
      outcome := PutOutcome(|Elems(ids)|, wire.put);
      if outcome.Done? {
        committed := Elems(ids);
      }
      return;
    }
    outcome := StartOutcome(wire.start);
    if !outcome.Done? {
      return;
    }
    var staged: seq<string> := [];
    var chunks := Chunks(ids, CHUNK_SIZE);
    var i := 0;
    while i < |chunks|
      invariant 0 <= i <= |chunks|
      invariant staged == Flatten(chunks[..i])
      invariant committed == before
      invariant forall j | 0 <= j < i :: wire.chunk(j)
    {
      if !wire.chunk(i) {
        // The session is cancelled; nothing it staged was ever visible.
        outcome := Failed;
        return;
      }
      FlattenAppend(chunks[..i], chunks[i]);
      assert chunks[..i] + [chunks[i]] == chunks[..i + 1];
      staged := staged + chunks[i];
      i := i + 1;
    }
    assert chunks[..|chunks|] == chunks;
    outcome := CommitOutcome(|Elems(staged)|, wire.commit);
    if outcome.Done? {
      committed := Elems(staged);
    }
  }
}
