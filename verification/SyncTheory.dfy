// Results about whole runs of sync jobs: both paths agree, converged links stay put,
// partial failures wash out, and the local table tracks RoleLogic.
module SyncTheory {
  import opened Wrappers
  import opened Json
  import opened Order
  import opened Conditions
  import opened Upload
  import opened SyncModel

  // -------------------------------------------------------------------------
  // One player job, user by user and link by link
  // -------------------------------------------------------------------------

  /** In a well-formed world the player job never misses a link: one where the user qualifies
      or is listed lies in a guild of the user's own responses or assignments. */
  lemma ScopeIsComplete(w: World, u: string, gateway: set<string>, k: Key)
    requires WellFormed(w) && FormBound(w, k)
    requires Answered(w, w.links[k], u) || Assignment(k, u) in w.mirror
    ensures k in Scope(w, u, gateway)
  {
  }

  lemma DesiredMeans(w: World, k: Key, optouts: set<string>, u: string)
    requires FormBound(w, k)
    ensures u in Desired(w, k, optouts) <==> u != "" && u !in optouts && Answered(w, w.links[k], u)
    ensures WellFormed(w) ==> (u in Desired(w, k, optouts) <==> u !in optouts && Answered(w, w.links[k], u))
  {
  }

  /** A player job touches only its own user's rows, and leaves alone every link without a
      form, every link of a guild whose opt-out lookup failed, and all links when the gateway
      lookup failed. */
  lemma PlayerTouchesOnly(w: World, u: string, run: PlayerRun, a: Assignment)
    requires a.key in PlayerStep(w, u, run).links
    requires a.user != u || !FormBound(w, a.key) || run.gateway.None? || run.optouts(a.key.guild).None?
    ensures a in PlayerStep(w, u, run).mirror <==> a in w.mirror
    ensures a in PlayerStep(w, u, run).remote <==> a in w.remote
  {
  }

  /** A link of a guild whose lookup failed keeps its registration too. */
  lemma PlayerKeepsUnvetted(w: World, u: string, run: PlayerRun, k: Key)
    requires k in w.links
    requires !FormBound(w, k) || run.gateway.None? || run.optouts(k.guild).None?
    ensures k in PlayerStep(w, u, run).links
  {
  }

  /** Where the lookup succeeded and RoleLogic processes the call with room to spare, the
      user ends up on the link's list exactly when they qualify, whatever other guilds do. */
  lemma PlayerDecides(w: World, u: string, run: PlayerRun, k: Key)
    requires WellFormed(w) && MirrorTracks(w) && FormBound(w, k)
    requires run.gateway.Some? && run.optouts(k.guild).Some? && run.reply(k) == Accepted(None)
    ensures k in PlayerStep(w, u, run).links
    ensures Assignment(k, u) in PlayerStep(w, u, run).mirror <==> u in Desired(w, k, run.optouts(k.guild).value)
    ensures Assignment(k, u) in PlayerStep(w, u, run).remote <==> u in Desired(w, k, run.optouts(k.guild).value)
  {
    DesiredMeans(w, k, run.optouts(k.guild).value, u);
    var a := Assignment(k, u);
    assert a in w.mirror <==> a in w.remote;
    if Judge(w, u, run, k) != Leave {
      ScopeIsComplete(w, u, run.gateway.value, k);
    }
  }

  // -------------------------------------------------------------------------
  // The two paths agree
  // -------------------------------------------------------------------------

  datatype SyncJob = PlayerJob(user: string, player: PlayerRun) | BulkJob(key: Key, bulk: BulkRun)

  function Step(w: World, job: SyncJob): World {
    match job
    case PlayerJob(u, run) => PlayerStep(w, u, run)
    case BulkJob(k, run) => BulkStep(w, k, run).0
  }

  function RunJobs(w: World, jobs: seq<SyncJob>): World
    decreases |jobs|
  {
    if jobs == [] then w else RunJobs(Step(w, jobs[0]), jobs[1..])
  }

  /** The opt-out ids of each guild. */
  type Optouts = string -> set<string>

  ghost predicate CleanWire(wire: Wire) {
    && wire.put == wire.start == wire.commit == Accepted(None)
    && forall i :: wire.chunk(i)
  }

  /** A fault-free job: every lookup succeeds with the guild's true opt-outs and RoleLogic
      accepts every call with room to spare. */
  ghost predicate Clean(job: SyncJob, optouts: Optouts) {
    match job
    case PlayerJob(_, run) =>
      && run.gateway.Some?
      && (forall g :: run.optouts(g) == Some(optouts(g)))
      && (forall k :: run.reply(k) == Accepted(None))
    case BulkJob(k, run) => run.optouts == Some(optouts(k.guild)) && CleanWire(run.first)
  }

  ghost function UsersOf(jobs: seq<SyncJob>): set<string> {
    set j | j in jobs && j.PlayerJob? :: j.user
  }

  ghost function KeysOf(jobs: seq<SyncJob>): set<Key> {
    set j | j in jobs && j.BulkJob? :: j.key
  }

  predicate Goal(w: World, optouts: Optouts, a: Assignment) {
    FormBound(w, a.key) && a.user in Desired(w, a.key, optouts(a.key.guild))
  }

  predicate Chosen(w: World, users: set<string>, keys: set<Key>, a: Assignment) {
    FormBound(w, a.key) && (a.user in users || a.key in keys)
  }

  /** `after` is `before` with the chosen users and the chosen links brought to their goal. */
  ghost predicate Settles(before: World, after: World, optouts: Optouts, users: set<string>, keys: set<Key>) {
    && after == before.(mirror := after.mirror, remote := after.remote)
    && (forall a: Assignment :: a in after.mirror <==>
          if Chosen(before, users, keys, a) then Goal(before, optouts, a) else a in before.mirror)
    && (forall a: Assignment :: a in after.remote <==>
          if Chosen(before, users, keys, a) then Goal(before, optouts, a) else a in before.remote)
  }

  lemma CleanPlayerSettles(w: World, u: string, run: PlayerRun, optouts: Optouts)
    requires WellFormed(w) && MirrorTracks(w) && Clean(PlayerJob(u, run), optouts)
    ensures Settles(w, PlayerStep(w, u, run), optouts, {u}, {})
  {
    var after := PlayerStep(w, u, run);
    assert Orphaned(w, u, run) == {};
    forall a: Assignment | Chosen(w, {u}, {}, a)
      ensures (a in after.mirror <==> Goal(w, optouts, a)) && (a in after.remote <==> Goal(w, optouts, a))
    {
      PlayerDecides(w, u, run, a.key);
      assert a == Assignment(a.key, u);
    }
  }

  /** An uncontended upload succeeds with any list, chunked or not. */
  lemma CleanDelivery(before: set<string>, count: nat, wanted: set<string>, wire: Wire)
    requires CleanWire(wire)
    ensures Deliver(before, count, wanted, wire).0 == Done
  {
  }

  lemma UnconditionedDesiresNobody(w: World, k: Key, optouts: set<string>)
    requires FormBound(w, k) && !w.links[k].grantAny && ParseRows(w.links[k].rows) == []
    ensures Desired(w, k, optouts) == {}
  {
  }

  lemma CleanBulkSettles(w: World, k: Key, run: BulkRun, optouts: Optouts)
    requires MirrorTracks(w) && Clean(BulkJob(k, run), optouts)
    ensures Settles(w, BulkStep(w, k, run).0, optouts, {}, {k})
  {
    if FormBound(w, k) {
      var all := Desired(w, k, optouts(k.guild));
      var before := Members(w.remote, k);
      if !w.links[k].grantAny && ParseRows(w.links[k].rows) == [] {
        UnconditionedDesiresNobody(w, k, optouts(k.guild));
        CleanDelivery(before, 0, {}, run.first);
      } else if Members(w.mirror, k) == all {
        forall a: Assignment | a.key == k ensures a in w.mirror <==> a.user in all {
          assert a in w.mirror <==> a.user in Members(w.mirror, k) by {
            if a.user in Members(w.mirror, k) { assert Assignment(k, a.user) in w.mirror; }
          }
        }
      } else {
        CleanDelivery(before, |all|, all, run.first);
      }
    }
  }

  lemma SettledWorldIsSound(before: World, after: World, optouts: Optouts, users: set<string>, keys: set<Key>)
    requires WellFormed(before) && MirrorTracks(before) && Settles(before, after, optouts, users, keys)
    ensures WellFormed(after) && MirrorTracks(after)
  {
  }

  lemma SameGoals(v: World, w: World, optouts: Optouts, a: Assignment)
    requires v.links == w.links && v.responses == w.responses && v.host == w.host
    ensures FormBound(v, a.key) <==> FormBound(w, a.key)
    ensures Goal(v, optouts, a) <==> Goal(w, optouts, a)
  {
  }

  lemma SettlingComposes(u: World, v: World, w: World, optouts: Optouts,
                         users: set<string>, keys: set<Key>, users': set<string>, keys': set<Key>)
    requires Settles(u, v, optouts, users, keys) && Settles(v, w, optouts, users', keys')
    ensures Settles(u, w, optouts, users + users', keys + keys')
  {
  }

  /** Any clean mix of player and bulk jobs settles exactly the users and links it ran. */
  lemma {:induction false} CleanRunSettles(w: World, jobs: seq<SyncJob>, optouts: Optouts)
    requires WellFormed(w) && MirrorTracks(w)
    requires forall j | j in jobs :: Clean(j, optouts)
    ensures Settles(w, RunJobs(w, jobs), optouts, UsersOf(jobs), KeysOf(jobs))
    decreases |jobs|
  {
    if jobs != [] {
      var j := jobs[0];
      var v := Step(w, j);
      assert Settles(w, v, optouts, UsersOf([j]), KeysOf([j])) by {
        match j
        case PlayerJob(u, run) =>
          CleanPlayerSettles(w, u, run, optouts);
          assert UsersOf([j]) == {u} && KeysOf([j]) == {};
        case BulkJob(k, run) =>
          CleanBulkSettles(w, k, run, optouts);
          assert UsersOf([j]) == {} && KeysOf([j]) == {k};
      }
      SettledWorldIsSound(w, v, optouts, UsersOf([j]), KeysOf([j]));
      CleanRunSettles(v, jobs[1..], optouts);
      SettlingComposes(w, v, RunJobs(w, jobs), optouts,
        UsersOf([j]), KeysOf([j]), UsersOf(jobs[1..]), KeysOf(jobs[1..]));
      assert jobs == [j] + jobs[1..];
      assert UsersOf(jobs) == UsersOf([j]) + UsersOf(jobs[1..]);
      assert KeysOf(jobs) == KeysOf([j]) + KeysOf(jobs[1..]);
    }
  }

  /** Everyone with a response or an assignment is reached, as a user or through their link. */
  ghost predicate Covers(w: World, users: set<string>, keys: set<Key>) {
    forall k, u | FormBound(w, k) :: k in keys || u in users
      || (Assignment(k, u) !in w.mirror && forall r | r in w.responses :: r.user != u)
  }

  /** Per-player and bulk sync compute the same memberships: any two clean runs that reach
      everyone, whether player jobs, bulk jobs or a mix, in whatever order, end in the same
      world. */
  lemma PathsAgree(w: World, jobs: seq<SyncJob>, jobs': seq<SyncJob>, optouts: Optouts)
    requires WellFormed(w) && MirrorTracks(w)
    requires forall j | j in jobs :: Clean(j, optouts)
    requires forall j | j in jobs' :: Clean(j, optouts)
    requires Covers(w, UsersOf(jobs), KeysOf(jobs)) && Covers(w, UsersOf(jobs'), KeysOf(jobs'))
    ensures RunJobs(w, jobs) == RunJobs(w, jobs')
  {
    CleanRunSettles(w, jobs, optouts);
    CleanRunSettles(w, jobs', optouts);
    var (v, v') := (RunJobs(w, jobs), RunJobs(w, jobs'));
    forall a: Assignment ensures (a in v.mirror <==> a in v'.mirror) && (a in v.remote <==> a in v'.remote) {
      if FormBound(w, a.key) {
        DesiredMeans(w, a.key, optouts(a.key.guild), a.user);
        assert a == Assignment(a.key, a.user);
        assert a in w.mirror <==> a in w.remote;
      }
    }
    assert v.mirror == v'.mirror && v.remote == v'.remote;
  }

  // -------------------------------------------------------------------------
  // Links that go
  // -------------------------------------------------------------------------

  /** The world without some links, here and at RoleLogic. */
  function Forget(w: World, keys: set<Key>): World {
    w.(links := w.links - keys,
       mirror := (set a | a in w.mirror && a.key !in keys),
       remote := (set a | a in w.remote && a.key !in keys))
  }

  lemma ForgetNothing(w: World)
    ensures Forget(w, {}) == w
  {
  }

  lemma ForgetTwice(w: World, a: set<Key>, b: set<Key>)
    ensures Forget(Forget(w, a), b) == Forget(w, a + b)
  {
  }

  lemma ForgetKeepsTables(w: World, keys: set<Key>)
    requires WellFormed(w)
    ensures WellFormed(Forget(w, keys)) && (MirrorTracks(w) ==> MirrorTracks(Forget(w, keys)))
  {
  }

  /** The links a run of jobs drops because RoleLogic reports them deleted. */
  function LostLinks(w: World, jobs: seq<SyncJob>): set<Key> {
    w.links.Keys - RunJobs(w, jobs).links.Keys
  }

  // -------------------------------------------------------------------------
  // No flapping
  // -------------------------------------------------------------------------

  /** The cap RoleLogic enforces on each link, if any. */
  type Caps = Key -> Option<nat>

  /** A link is stable when its list is the desired set, or that set's least members up to
      the cap it exceeds. */
  ghost predicate Stable(w: World, optouts: Optouts, caps: Caps, k: Key)
    requires FormBound(w, k)
  {
    var all := Desired(w, k, optouts(k.guild));
    && Members(w.mirror, k) == Members(w.remote, k)
    && (|| Members(w.mirror, k) == all
        || (Exceeds(|all|, caps(k)) && Members(w.mirror, k) == Least(all, caps(k).value)))
  }

  ghost predicate AllStable(w: World, optouts: Optouts, caps: Caps) {
    forall k | FormBound(w, k) :: Stable(w, optouts, caps, k)
  }

  /** A reply that enforces the link's cap, if it accepts at all. */
  predicate Plausible(reply: Reply, cap: Option<nat>) {
    reply.Accepted? ==> reply.cap == cap
  }

  predicate PlausibleWire(wire: Wire, cap: Option<nat>) {
    Plausible(wire.put, cap) && Plausible(wire.start, cap) && Plausible(wire.commit, cap)
  }

  /** A job against unchanged opt-outs and caps. Lookups may fail, links may be switched off,
      held, faulty or deleted, chunks may be lost. */
  ghost predicate Ordinary(job: SyncJob, optouts: Optouts, caps: Caps) {
    match job
    case PlayerJob(_, run) =>
      && (forall g :: run.optouts(g) == None || run.optouts(g) == Some(optouts(g)))
      && (forall k :: Plausible(run.reply(k), caps(k)))
    case BulkJob(k, run) =>
      && (run.optouts == None || run.optouts == Some(optouts(k.guild)))
      && PlausibleWire(run.first, caps(k)) && PlausibleWire(run.second, caps(k))
  }

  /** On stable links a player job wants nothing, except to add a user the full list refuses; in
      trying it may learn that links are gone. */
  lemma StablePlayer(w: World, u: string, run: PlayerRun, optouts: Optouts, caps: Caps)
    requires WellFormed(w) && AllStable(w, optouts, caps) && Ordinary(PlayerJob(u, run), optouts, caps)
    ensures PlayerStep(w, u, run) == Forget(w, Orphaned(w, u, run))
  {
    forall k | k in Judged(w, u, run, Add) + Judged(w, u, run, Remove)
      ensures k in Judged(w, u, run, Add) && !AddOutcome(Members(w.remote, k), u, run.reply(k)).Done?
    {
      var all := Desired(w, k, optouts(k.guild));
      DesiredMeans(w, k, optouts(k.guild), u);
      InMembers(w.mirror, k, u);
      assert Stable(w, optouts, caps, k);
      if Exceeds(|all|, caps(k)) {
        LeastSize(all, caps(k).value);
      }
    }
    assert Added(w, u, run) == {} && Removed(w, u, run) == {};
  }

  /** An upload of the list that is already there changes nothing, whatever comes of it, unless
      the link is gone. */
  lemma ReuploadSame(w: World, k: Key, outcome: Outcome)
    requires Members(w.mirror, k) == Members(w.remote, k)
    ensures AfterUpload(w, k, Members(w.mirror, k), outcome).0 == if outcome.LinkNotFound? then Drop(w, k) else w
  {
    RewriteSame(w.mirror, k);
    RewriteSame(w.remote, k);
  }

  lemma DropIsForget(w: World, k: Key)
    ensures Drop(w, k) == Forget(w, {k})
  {
  }

  /** A bulk job on a stable link re-uploads at most the list that is already there. */
  lemma StableBulk(w: World, k: Key, run: BulkRun, optouts: Optouts, caps: Caps)
    requires AllStable(w, optouts, caps) && Ordinary(BulkJob(k, run), optouts, caps)
    ensures BulkStep(w, k, run).0 == w || (k in w.links && BulkStep(w, k, run).0 == Drop(w, k))
  {
    if FormBound(w, k) {
      assert Stable(w, optouts, caps, k);
      if !w.links[k].grantAny && ParseRows(w.links[k].rows) == [] {
        UnconditionedDesiresNobody(w, k, optouts(k.guild));
        ReuploadSame(w, k, Deliver(Members(w.remote, k), 0, {}, run.first).0);
      } else if run.optouts.Some? {
        StableUpload(w, k, run, optouts, caps);
      }
    }
  }

  lemma OverfullUpload(before: set<string>, all: set<string>, wire: Wire, cap: Option<nat>)
    requires Exceeds(|all|, cap) && PlausibleWire(wire, cap)
    ensures var outcome := Deliver(before, |all|, all, wire).0;
      !outcome.Done? && (outcome.LimitReached? ==> outcome.limit == cap.value)
  {
  }

  lemma FailedUpload(w: World, k: Key, users: set<string>, outcome: Outcome)
    requires !outcome.Done?
    ensures AfterUpload(w, k, users, outcome).0 == if outcome.LinkNotFound? then Drop(w, k) else w
  {
  }

  lemma StableUpload(w: World, k: Key, run: BulkRun, optouts: Optouts, caps: Caps)
    requires FormBound(w, k) && Stable(w, optouts, caps, k) && run.optouts == Some(optouts(k.guild))
    requires w.links[k].grantAny || ParseRows(w.links[k].rows) != []
    requires PlausibleWire(run.first, caps(k)) && PlausibleWire(run.second, caps(k))
    ensures BulkStep(w, k, run).0 == w || BulkStep(w, k, run).0 == Drop(w, k)
  {
    var (all, before) := (Desired(w, k, optouts(k.guild)), Members(w.remote, k));
    if Members(w.mirror, k) != all {
      var outcome := Deliver(before, |all|, all, run.first).0;
      OverfullUpload(before, all, run.first, caps(k));
      FailedUpload(w, k, all, outcome);
      var capped := Least(all, caps(k).value);
      ReuploadSame(w, k, Deliver(before, |capped|, capped, run.second).0);
    }
  }

  lemma ForgetKeepsStability(w: World, keys: set<Key>, optouts: Optouts, caps: Caps)
    requires AllStable(w, optouts, caps)
    ensures AllStable(Forget(w, keys), optouts, caps)
  {
    var v := Forget(w, keys);
    forall k | FormBound(v, k) ensures Stable(v, optouts, caps, k) {
      assert Stable(w, optouts, caps, k) && v.links[k] == w.links[k];
      SameMembers(v.mirror, w.mirror, k);
      SameMembers(v.remote, w.remote, k);
      assert Desired(v, k, optouts(k.guild)) == Desired(w, k, optouts(k.guild));
    }
  }

  lemma SameMembers(rows: set<Assignment>, rows': set<Assignment>, k: Key)
    requires forall a: Assignment | a.key == k :: a in rows <==> a in rows'
    ensures Members(rows, k) == Members(rows', k)
  {
  }

  /** One job on stable links at most forgets links that are gone. */
  lemma StableStep(w: World, job: SyncJob, optouts: Optouts, caps: Caps) returns (gone: set<Key>)
    requires WellFormed(w) && AllStable(w, optouts, caps) && Ordinary(job, optouts, caps)
    ensures gone <= w.links.Keys && Step(w, job) == Forget(w, gone)
    ensures NeverGone(job) ==> gone == {}
  {
    match job
    case PlayerJob(u, run) =>
      StablePlayer(w, u, run, optouts, caps);
      gone := Orphaned(w, u, run);
    case BulkJob(k, run) =>
      StableBulk(w, k, run, optouts, caps);
      DropIsForget(w, k);
      ForgetNothing(w);
      gone := if k in w.links && k !in BulkStep(w, k, run).0.links then {k} else {};
      if NeverGone(job) {
        BulkLosesOnlyGone(w, k, run);
      }
  }

  /** No reply reports the link deleted. */
  ghost predicate NeverGone(job: SyncJob) {
    match job
    case PlayerJob(_, run) => forall k :: !run.reply(k).Gone?
    case BulkJob(_, run) => !run.first.put.Gone? && !run.first.start.Gone? && !run.second.put.Gone? && !run.second.start.Gone?
  }

  lemma BulkLosesOnlyGone(w: World, k: Key, run: BulkRun)
    requires NeverGone(BulkJob(k, run))
    ensures BulkStep(w, k, run).0.links == w.links
  {
  }

  /** No flapping: once every link is stable, no sequence of player and bulk jobs, faulty ones
      included, changes any membership; all they can do is forget links RoleLogic deleted. */
  lemma {:induction false} NoFlapping(w: World, jobs: seq<SyncJob>, optouts: Optouts, caps: Caps)
    requires WellFormed(w) && AllStable(w, optouts, caps)
    requires forall j | j in jobs :: Ordinary(j, optouts, caps)
    ensures RunJobs(w, jobs) == Forget(w, LostLinks(w, jobs))
    ensures (forall j | j in jobs :: NeverGone(j)) ==> RunJobs(w, jobs) == w
    decreases |jobs|
  {
    if jobs == [] {
      ForgetNothing(w);
    } else {
      var gone := StableStep(w, jobs[0], optouts, caps);
      var v := Step(w, jobs[0]);
      ForgetKeepsTables(w, gone);
      ForgetKeepsStability(w, gone, optouts, caps);
      NoFlapping(v, jobs[1..], optouts, caps);
      ForgetTwice(w, gone, LostLinks(v, jobs[1..]));
      assert LostLinks(w, jobs) == gone + LostLinks(v, jobs[1..]);
      ForgetNothing(w);
    }
  }

  lemma RewriteMembers(rows: set<Assignment>, k: Key, users: set<string>)
    ensures Members(Rewrite(rows, k, users), k) == users
  {
  }

  lemma TrackedMembers(w: World, k: Key)
    requires MirrorTracks(w) && k in w.links
    ensures Members(w.mirror, k) == Members(w.remote, k)
  {
  }

  /** RoleLogic is up and enforces `cap` on this link throughout the job. */
  ghost predicate Served(run: BulkRun, cap: Option<nat>) {
    && run.first.put == run.first.start == run.first.commit == Accepted(cap)
    && run.second.put == run.second.start == run.second.commit == Accepted(cap)
    && forall i :: run.first.chunk(i) && run.second.chunk(i)
  }

  /** The desired sets a job can get accepted: within the cap, or small enough for the single
      PUT, whose refusal names the cap. */
  predicate Placeable(all: set<string>, cap: Option<nat>) {
    !Exceeds(|all|, cap) || |all| <= PUT_MAX_USERS
  }

  lemma BulkCase(w: World, k: Key, run: BulkRun, all: set<string>, cap: Option<nat>)
    requires FormBound(w, k) && run.optouts.Some? && all == Desired(w, k, run.optouts.value)
    requires w.links[k].grantAny || ParseRows(w.links[k].rows) != [] || all == {}
    requires Served(run, cap)
    ensures var step := BulkStep(w, k, run);
      || (!Exceeds(|all|, cap) && step == (Assign(w, k, all), Synced))
      || (step == (w, Synced) && Members(w.mirror, k) == all)
      || (Exceeds(|all|, cap) && |all| <= PUT_MAX_USERS && step == (Assign(w, k, Least(all, cap.value)), Synced))
      || (!Placeable(all, cap) && step == (w, Errored(false)))
  {
    if Exceeds(|all|, cap) {
      LeastSize(all, cap.value);
    }
  }

  /** A bulk job that RoleLogic serves makes its link stable, capped or not, and reports
      success exactly when its list is already in place or can be placed. */
  lemma BulkStabilises(w: World, k: Key, run: BulkRun, optouts: Optouts, caps: Caps)
    requires MirrorTracks(w) && FormBound(w, k) && run.optouts == Some(optouts(k.guild))
    requires Served(run, caps(k))
    ensures BulkStep(w, k, run).0.links == w.links
    ensures var all := Desired(w, k, optouts(k.guild));
      BulkStep(w, k, run).1 == Synced <==> Placeable(all, caps(k)) || Members(w.mirror, k) == all
    ensures BulkStep(w, k, run).1 == Synced ==> Stable(BulkStep(w, k, run).0, optouts, caps, k)
    ensures BulkStep(w, k, run).1 != Synced ==> BulkStep(w, k, run).0 == w
  {
    var all := Desired(w, k, optouts(k.guild));
    if !w.links[k].grantAny && ParseRows(w.links[k].rows) == [] {
      UnconditionedDesiresNobody(w, k, optouts(k.guild));
    }
    BulkCase(w, k, run, all, caps(k));
    var v := BulkStep(w, k, run).0;
    assert v.links == w.links && v.responses == w.responses && v.host == w.host;
    assert Desired(v, k, optouts(k.guild)) == all;
    TrackedMembers(w, k);
    RewriteMembers(w.mirror, k, all);
    RewriteMembers(w.remote, k, all);
    if Exceeds(|all|, caps(k)) {
      RewriteMembers(w.mirror, k, Least(all, caps(k).value));
      RewriteMembers(w.remote, k, Least(all, caps(k).value));
    }
  }

  /** A bulk job leaves the tables alone, drops its link, or puts one list in both. */
  lemma BulkShape(w: World, k: Key, run: BulkRun) returns (users: set<string>)
    ensures var v := BulkStep(w, k, run).0; v == w || v == Drop(w, k) || (k in w.links && v == Assign(w, k, users))
  {
    users := {};
    if FormBound(w, k) && run.optouts.Some? && (w.links[k].grantAny || ParseRows(w.links[k].rows) != []) {
      users := Desired(w, k, run.optouts.value);
      var outcome := Deliver(Members(w.remote, k), |users|, users, run.first).0;
      if outcome.LimitReached? && Members(w.mirror, k) != users {
        users := Least(users, outcome.limit);
      }
    }
  }

  lemma RewriteSparesOthers(rows: set<Assignment>, k: Key, users: set<string>, other: Key)
    requires other != k
    ensures Members(Rewrite(rows, k, users), other) == Members(rows, other)
  {
  }

  /** A bulk job leaves every other link's membership alone. */
  lemma BulkTouchesOnly(w: World, k: Key, run: BulkRun, other: Key)
    requires other != k
    ensures var v := BulkStep(w, k, run).0;
      && (other in v.links <==> other in w.links)
      && (other in w.links ==> v.links[other] == w.links[other])
      && v.responses == w.responses && v.host == w.host && v.home == w.home
      && Members(v.mirror, other) == Members(w.mirror, other)
      && Members(v.remote, other) == Members(w.remote, other)
  {
    var users := BulkShape(w, k, run);
    RewriteSparesOthers(w.mirror, k, users, other);
    RewriteSparesOthers(w.remote, k, users, other);
    RewriteSparesOthers(w.mirror, k, {}, other);
    RewriteSparesOthers(w.remote, k, {}, other);
  }

  ghost predicate ServedBulk(w: World, job: SyncJob, optouts: Optouts, caps: Caps) {
    && job.BulkJob? && FormBound(w, job.key)
    && job.bulk.optouts == Some(optouts(job.key.guild)) && Served(job.bulk, caps(job.key))
    && Placeable(Desired(w, job.key, optouts(job.key.guild)), caps(job.key))
  }

  lemma SameDesires(v: World, w: World, k: Key, optouts: set<string>)
    requires v.links == w.links && v.responses == w.responses && v.host == w.host && FormBound(w, k)
    ensures Desired(v, k, optouts) == Desired(w, k, optouts)
  {
  }

  lemma ServedBulkStep(w: World, k: Key, run: BulkRun, optouts: Optouts, caps: Caps, l: Key)
    requires MirrorTracks(w) && ServedBulk(w, BulkJob(k, run), optouts, caps) && FormBound(w, l)
    ensures FormBound(BulkStep(w, k, run).0, l)
    ensures l == k || Stable(w, optouts, caps, l) ==> Stable(BulkStep(w, k, run).0, optouts, caps, l)
    ensures Desired(BulkStep(w, k, run).0, l, optouts(l.guild)) == Desired(w, l, optouts(l.guild))
  {
    BulkStabilises(w, k, run, optouts, caps);
    if l != k {
      BulkTouchesOnly(w, k, run, l);
    }
    SameDesires(BulkStep(w, k, run).0, w, l, optouts(l.guild));
  }

  /** One served bulk pass over every form-bound link, in any order and with any repeats,
      makes the whole world stable. */
  lemma {:induction false} BulkPassStabilises(w: World, jobs: seq<SyncJob>, optouts: Optouts, caps: Caps)
    requires MirrorTracks(w)
    requires forall j | j in jobs :: ServedBulk(w, j, optouts, caps)
    requires forall k | FormBound(w, k) :: k in KeysOf(jobs) || Stable(w, optouts, caps, k)
    ensures AllStable(RunJobs(w, jobs), optouts, caps)
    decreases |jobs|
  {
    if jobs != [] {
      assert ServedBulk(w, jobs[0], optouts, caps);
      var BulkJob(k, run) := jobs[0];
      var v := Step(w, jobs[0]);
      BulkStabilises(w, k, run, optouts, caps);
      BulkKeepsMirror(w, k, run);
      assert jobs == [jobs[0]] + jobs[1..];
      forall l | FormBound(v, l) ensures l in KeysOf(jobs[1..]) || Stable(v, optouts, caps, l) {
        ServedBulkStep(w, k, run, optouts, caps, l);
      }
      forall j | j in jobs[1..] ensures ServedBulk(v, j, optouts, caps) {
        assert ServedBulk(w, j, optouts, caps);
        ServedBulkStep(w, k, run, optouts, caps, j.key);
      }
      BulkPassStabilises(v, jobs[1..], optouts, caps);
    }
  }

  lemma {:induction false} BulkPassKeepsTables(w: World, jobs: seq<SyncJob>)
    requires WellFormed(w) && MirrorTracks(w) && forall j | j in jobs :: j.BulkJob?
    ensures WellFormed(RunJobs(w, jobs)) && MirrorTracks(RunJobs(w, jobs))
    decreases |jobs|
  {
    if jobs != [] {
      assert jobs[0] in jobs;
      BulkKeepsMirror(w, jobs[0].key, jobs[0].bulk);
      BulkPassKeepsTables(Step(w, jobs[0]), jobs[1..]);
    }
  }

  /** One served pass settles the system: after it, links cut at their caps included, no further
      jobs on unchanged data, failing ones included, change anything. */
  lemma BulkPassThenQuiet(w: World, jobs: seq<SyncJob>, later: seq<SyncJob>, optouts: Optouts, caps: Caps)
    requires WellFormed(w) && MirrorTracks(w)
    requires forall j | j in jobs :: ServedBulk(w, j, optouts, caps)
    requires forall k | FormBound(w, k) :: k in KeysOf(jobs) || Stable(w, optouts, caps, k)
    requires forall j | j in later :: Ordinary(j, optouts, caps)
    ensures var v := RunJobs(w, jobs); RunJobs(v, later) == Forget(v, LostLinks(v, later))
    ensures (forall j | j in later :: NeverGone(j)) ==> RunJobs(RunJobs(w, jobs), later) == RunJobs(w, jobs)
  {
    BulkPassStabilises(w, jobs, optouts, caps);
    BulkPassKeepsTables(w, jobs);
    NoFlapping(RunJobs(w, jobs), later, optouts, caps);
  }

  /** A clean run that reaches everyone leaves every list equal to its desired set. */
  lemma CleanRunIsStable(w: World, jobs: seq<SyncJob>, optouts: Optouts, caps: Caps)
    requires WellFormed(w) && MirrorTracks(w)
    requires forall j | j in jobs :: Clean(j, optouts)
    requires Covers(w, UsersOf(jobs), KeysOf(jobs))
    ensures AllStable(RunJobs(w, jobs), optouts, caps) && WellFormed(RunJobs(w, jobs))
  {
    var v := RunJobs(w, jobs);
    CleanRunSettles(w, jobs, optouts);
    SettledWorldIsSound(w, v, optouts, UsersOf(jobs), KeysOf(jobs));
    forall k | FormBound(v, k) ensures Stable(v, optouts, caps, k) {
      TrackedMembers(v, k);
      SameDesires(v, w, k, optouts(k.guild));
      forall u ensures u in Members(v.mirror, k) <==> u in Desired(w, k, optouts(k.guild)) {
        InMembers(v.mirror, k, u);
        DesiredMeans(w, k, optouts(k.guild), u);
      }
    }
  }

  /** Once a clean run has reached everyone, no further player or bulk job, clean or faulty,
      moves anybody until a response, a config or an opt-out changes. */
  lemma ConvergedThenQuiet(w: World, jobs: seq<SyncJob>, later: seq<SyncJob>, optouts: Optouts, caps: Caps)
    requires WellFormed(w) && MirrorTracks(w)
    requires forall j | j in jobs :: Clean(j, optouts)
    requires Covers(w, UsersOf(jobs), KeysOf(jobs))
    requires forall j | j in later :: Ordinary(j, optouts, caps)
    ensures var v := RunJobs(w, jobs); RunJobs(v, later) == Forget(v, LostLinks(v, later))
    ensures (forall j | j in later :: NeverGone(j)) ==> RunJobs(RunJobs(w, jobs), later) == RunJobs(w, jobs)
  {
    CleanRunIsStable(w, jobs, optouts, caps);
    NoFlapping(RunJobs(w, jobs), later, optouts, caps);
  }

  // -------------------------------------------------------------------------
  // The mirror tracks RoleLogic
  // -------------------------------------------------------------------------

  /** Whatever RoleLogic and the gateway answer, a player job keeps the local table equal to
      RoleLogic's lists on every surviving link. */
  lemma PlayerKeepsMirror(w: World, u: string, run: PlayerRun)
    requires MirrorTracks(w)
    ensures MirrorTracks(PlayerStep(w, u, run))
    ensures WellFormed(w) ==> WellFormed(PlayerStep(w, u, run))
  {
  }

  /** So does a bulk job. */
  lemma BulkKeepsMirror(w: World, k: Key, run: BulkRun)
    requires MirrorTracks(w)
    ensures MirrorTracks(BulkStep(w, k, run).0)
    ensures WellFormed(w) ==> WellFormed(BulkStep(w, k, run).0)
  {
    var _ := BulkShape(w, k, run);
  }

  /** Unlinking forgets every row of the user locally, so it keeps the two equal exactly when
      RoleLogic took the user off, or reported gone, each link they were listed on. */
  lemma UnlinkKeepsMirrorExactly(w: World, u: string, reply: Key -> Reply)
    requires WellFormed(w) && MirrorTracks(w)
    ensures MirrorTracks(UnlinkStep(w, u, reply))
      <==> forall k | k in AssignedKeys(w, u) :: reply(k).Accepted? || reply(k).Gone?
    ensures forall a | a in UnlinkStep(w, u, reply).mirror :: a.user != u
  {
  }

  /** One user on one link, locally and at RoleLogic. */
  function OneMember(host: Host, k: Key, u: string): World {
    World(host, map[], map[k := Link(None, true, [])], [], {Assignment(k, u)}, {Assignment(k, u)})
  }

  /** An unlink that loses track: RoleLogic fails the one call, keeps the user, and the local row
      is gone. */
  lemma FailedUnlinkLosesTrack(host: Host, k: Key, u: string)
    ensures var (w, v) := (OneMember(host, k, u), UnlinkStep(OneMember(host, k, u), u, _ => Fault));
      && WellFormed(w) && MirrorTracks(w)
      && v.remote == {Assignment(k, u)} && v.mirror == {} && !MirrorTracks(v)
  {
    var (w, v) := (OneMember(host, k, u), UnlinkStep(OneMember(host, k, u), u, _ => Fault));
    var a := Assignment(k, u);
    assert forall x :: x in v.remote <==> x == a;
    assert a.key in v.links && a in v.remote && a !in v.mirror;
  }

  // -------------------------------------------------------------------------
  // Partial failures wash out
  // -------------------------------------------------------------------------

  /** The links a run of player jobs drops because RoleLogic reports them deleted. */
  function Lost(w: World, u: string, runs: seq<PlayerRun>): set<Key>
    decreases |runs|
  {
    if runs == [] then {}
    else Orphaned(w, u, runs[0]) + Lost(PlayerStep(w, u, runs[0]), u, runs[1..])
  }

  /** Two worlds that differ at most in one user's memberships of form-bound links. */
  ghost predicate DifferOnlyAt(v: World, w: World, u: string) {
    && v == w.(mirror := v.mirror, remote := v.remote)
    && (forall a: Assignment | a.user != u || !FormBound(w, a.key) ::
          (a in v.mirror <==> a in w.mirror) && (a in v.remote <==> a in w.remote))
  }

  lemma PlayerDiffersOnlyAt(w: World, u: string, run: PlayerRun)
    ensures DifferOnlyAt(PlayerStep(w, u, run), Forget(w, Orphaned(w, u, run)), u)
  {
  }

  lemma ForgetKeepsDifference(v: World, w: World, u: string, keys: set<Key>)
    requires DifferOnlyAt(v, w, u)
    ensures DifferOnlyAt(Forget(v, keys), Forget(w, keys), u)
  {
    assert forall k :: FormBound(Forget(w, keys), k) <==> FormBound(w, k) && k !in keys;
  }

  lemma DifferenceComposes(u: World, v: World, w: World, user: string)
    requires DifferOnlyAt(u, v, user) && DifferOnlyAt(v, w, user)
    ensures DifferOnlyAt(u, w, user)
  {
  }

  function PlayerRuns(w: World, u: string, runs: seq<PlayerRun>): World
    decreases |runs|
  {
    if runs == [] then w else PlayerRuns(PlayerStep(w, u, runs[0]), u, runs[1..])
  }

  lemma {:induction false} RunsDifferOnlyAt(w: World, u: string, runs: seq<PlayerRun>)
    requires WellFormed(w) && MirrorTracks(w)
    ensures var v := PlayerRuns(w, u, runs); DifferOnlyAt(v, Forget(w, Lost(w, u, runs)), u) && WellFormed(v) && MirrorTracks(v)
    decreases |runs|
  {
    if runs == [] {
      ForgetNothing(w);
    } else {
      var (next, gone) := (PlayerStep(w, u, runs[0]), Orphaned(w, u, runs[0]));
      var rest := Lost(next, u, runs[1..]);
      PlayerKeepsMirror(w, u, runs[0]);
      RunsDifferOnlyAt(next, u, runs[1..]);
      PlayerDiffersOnlyAt(w, u, runs[0]);
      ForgetKeepsDifference(next, Forget(w, gone), u, rest);
      ForgetTwice(w, gone, rest);
      DifferenceComposes(PlayerRuns(w, u, runs), Forget(next, rest), Forget(Forget(w, gone), rest), u);
    }
  }

  lemma CleanRunErasesDifference(v: World, w: World, u: string, final: PlayerRun, optouts: Optouts)
    requires WellFormed(v) && MirrorTracks(v) && WellFormed(w) && MirrorTracks(w)
    requires DifferOnlyAt(v, w, u) && Clean(PlayerJob(u, final), optouts)
    ensures PlayerStep(v, u, final) == PlayerStep(w, u, final)
  {
    CleanPlayerSettles(v, u, final, optouts);
    CleanPlayerSettles(w, u, final, optouts);
    var (v', w') := (PlayerStep(v, u, final), PlayerStep(w, u, final));
    forall a: Assignment ensures (a in v'.mirror <==> a in w'.mirror) && (a in v'.remote <==> a in w'.remote) {
      SameGoals(v, w, optouts, a);
    }
    assert v'.mirror == w'.mirror && v'.remote == w'.remote;
  }

  /** Confluence: a clean run after any number of partly failed ones, whichever lookups and
      calls failed in each, ends where the clean run alone would have, had the links RoleLogic
      reported deleted on the way never been there. */
  lemma FinalCleanRunWins(w: World, u: string, runs: seq<PlayerRun>, final: PlayerRun, optouts: Optouts)
    requires WellFormed(w) && MirrorTracks(w) && Clean(PlayerJob(u, final), optouts)
    ensures PlayerStep(PlayerRuns(w, u, runs), u, final) == PlayerStep(Forget(w, Lost(w, u, runs)), u, final)
    ensures (forall i | 0 <= i < |runs| :: forall k :: !runs[i].reply(k).Gone?) ==>
      PlayerStep(PlayerRuns(w, u, runs), u, final) == PlayerStep(w, u, final)
  {
    RunsDifferOnlyAt(w, u, runs);
    ForgetKeepsTables(w, Lost(w, u, runs));
    CleanRunErasesDifference(PlayerRuns(w, u, runs), Forget(w, Lost(w, u, runs)), u, final, optouts);
    if forall i | 0 <= i < |runs| :: forall k :: !runs[i].reply(k).Gone? {
      NothingLost(w, u, runs);
      ForgetNothing(w);
    }
  }

  lemma {:induction false} NothingLost(w: World, u: string, runs: seq<PlayerRun>)
    requires forall i | 0 <= i < |runs| :: forall k :: !runs[i].reply(k).Gone?
    ensures Lost(w, u, runs) == {}
    decreases |runs|
  {
    if runs != [] {
      assert Orphaned(w, u, runs[0]) == {};
      NothingLost(PlayerStep(w, u, runs[0]), u, runs[1..]);
    }
  }

  // -------------------------------------------------------------------------
  // Any history washes out
  // -------------------------------------------------------------------------

  /** What jobs of either kind, however they fail, can do to a world: forget links, and move
      members of form-bound links who have a response or were members before. */
  ghost predicate Drifts(w: World, v: World) {
    var gone := w.links.Keys - v.links.Keys;
    && v == w.(links := w.links - gone, mirror := v.mirror, remote := v.remote)
    && (forall a: Assignment | !FormBound(w, a.key) ::
          (a in v.mirror <==> a in Forget(w, gone).mirror) && (a in v.remote <==> a in Forget(w, gone).remote))
    && (forall a: Assignment | a in v.mirror && a !in w.mirror :: exists r | r in w.responses :: r.user == a.user)
    && (forall a: Assignment | a.key in gone :: a !in v.mirror && a !in v.remote)
  }

  lemma DriftsComposes(u: World, v: World, w: World)
    requires Drifts(u, v) && Drifts(v, w)
    ensures Drifts(u, w)
  {
    assert u.links.Keys - w.links.Keys == (u.links.Keys - v.links.Keys) + (v.links.Keys - w.links.Keys);
    forall a: Assignment | !FormBound(u, a.key)
      ensures (a in w.mirror <==> a in Forget(u, u.links.Keys - w.links.Keys).mirror)
        && (a in w.remote <==> a in Forget(u, u.links.Keys - w.links.Keys).remote)
    {
      assert !FormBound(v, a.key);
    }
  }

  lemma PlayerDrifts(w: World, u: string, run: PlayerRun)
    requires WellFormed(w)
    ensures Drifts(w, PlayerStep(w, u, run))
  {
    assert w.links.Keys - PlayerStep(w, u, run).links.Keys == Orphaned(w, u, run);
    forall k | k in Added(w, u, run) ensures exists r | r in w.responses :: r.user == u {
      assert Answered(w, w.links[k], u);
    }
  }

  lemma DropDrifts(w: World, k: Key)
    requires FormBound(w, k)
    ensures Drifts(w, Drop(w, k))
  {
    assert w.links.Keys - Drop(w, k).links.Keys == {k};
  }

  lemma AssignDrifts(w: World, k: Key, users: set<string>)
    requires FormBound(w, k) && forall u | u in users :: exists r | r in w.responses :: r.user == u
    ensures Drifts(w, Assign(w, k, users))
  {
    assert w.links.Keys - Assign(w, k, users).links.Keys == {};
    assert w.links - {} == w.links;
  }

  lemma BulkDrifts(w: World, k: Key, run: BulkRun)
    ensures Drifts(w, BulkStep(w, k, run).0)
  {
    assert w.links - {} == w.links;
    if FormBound(w, k) {
      var users := BulkShape(w, k, run);
      DropDrifts(w, k);
      if forall u | u in users :: exists r | r in w.responses :: r.user == u {
        AssignDrifts(w, k, users);
      }
    }
  }

  lemma {:induction false} RunDrifts(w: World, jobs: seq<SyncJob>)
    requires WellFormed(w) && MirrorTracks(w)
    ensures var v := RunJobs(w, jobs); Drifts(w, v) && WellFormed(v) && MirrorTracks(v)
    decreases |jobs|
  {
    if jobs == [] {
      assert w.links - {} == w.links;
    } else {
      match jobs[0] {
        case PlayerJob(u, run) =>
          PlayerDrifts(w, u, run);
          PlayerKeepsMirror(w, u, run);
        case BulkJob(k, run) =>
          BulkDrifts(w, k, run);
          BulkKeepsMirror(w, k, run);
      }
      RunDrifts(Step(w, jobs[0]), jobs[1..]);
      DriftsComposes(w, Step(w, jobs[0]), RunJobs(w, jobs));
    }
  }

  lemma DriftSettles(w: World, v: World, clean: seq<SyncJob>, optouts: Optouts, a: Assignment)
    requires WellFormed(w) && MirrorTracks(w) && WellFormed(v) && MirrorTracks(v) && Drifts(w, v)
    requires Covers(w, UsersOf(clean), KeysOf(clean))
    ensures var x := Forget(w, w.links.Keys - v.links.Keys);
      && (Chosen(v, UsersOf(clean), KeysOf(clean), a) <==> Chosen(x, UsersOf(clean), KeysOf(clean), a))
      && (Goal(v, optouts, a) <==> Goal(x, optouts, a))
      && (!Chosen(v, UsersOf(clean), KeysOf(clean), a) ==> (a in v.mirror <==> a in x.mirror) && (a in v.remote <==> a in x.remote))
  {
    var x := Forget(w, w.links.Keys - v.links.Keys);
    assert v.links == x.links;
    SameGoals(v, x, optouts, a);
    if FormBound(w, a.key) && !Chosen(v, UsersOf(clean), KeysOf(clean), a) {
      assert a == Assignment(a.key, a.user);
      if a.key in v.links {
        assert Assignment(a.key, a.user) !in w.mirror && a !in v.mirror;
      }
    }
  }

  /** Confluence of both paths: after any history of player and bulk jobs, by anyone, whatever
      lookups, calls and uploads failed and whatever stale opt-outs and caps they met, a
      fault-free run that reaches everyone ends where it would have ended without that history,
      had the links RoleLogic reported deleted on the way never been there. */
  lemma AnyHistoryWashesOut(w: World, faulty: seq<SyncJob>, clean: seq<SyncJob>, optouts: Optouts)
    requires WellFormed(w) && MirrorTracks(w)
    requires forall j | j in clean :: Clean(j, optouts)
    requires Covers(w, UsersOf(clean), KeysOf(clean))
    ensures RunJobs(RunJobs(w, faulty), clean) == RunJobs(Forget(w, LostLinks(w, faulty)), clean)
  {
    var (v, x) := (RunJobs(w, faulty), Forget(w, LostLinks(w, faulty)));
    RunDrifts(w, faulty);
    ForgetKeepsTables(w, LostLinks(w, faulty));
    CleanRunSettles(v, clean, optouts);
    CleanRunSettles(x, clean, optouts);
    var (v', x') := (RunJobs(v, clean), RunJobs(x, clean));
    forall a: Assignment ensures (a in v'.mirror <==> a in x'.mirror) && (a in v'.remote <==> a in x'.remote) {
      DriftSettles(w, v, clean, optouts, a);
    }
    assert v'.mirror == x'.mirror && v'.remote == x'.remote;
  }
}
