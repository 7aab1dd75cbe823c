// The jobs the request handlers enqueue (src/routes/form_render.rs, src/routes/admin.rs) against
// the memberships they may have put out of date: no edit, submission or deletion is ever left
// without a sync job that repairs what it changed.
module Convergence {
  import opened Wrappers
  import opened Json
  import opened Order
  import Conditions
  import opened Upload
  import opened SyncModel
  import opened SyncTheory
  import opened Lifecycle
  import opened Worker

  /** The tables and the sync jobs that have not finished, waiting or running. */
  datatype Site = Site(world: World, unfinished: multiset<Work>)

  /** A handler serves a request; a form is edited; a job fails, whatever it met, and stays; a
      job that landed leaves the queue. */
  datatype Move =
    | Handle(event: Event)
    | EditForm(edited: string)
    | Attempt(tried: SyncJob)
    | Succeed(done: SyncJob)

  function WorkOfJob(job: SyncJob): Work {
    match job
    case PlayerJob(u, _) => Reevaluate(u)
    case BulkJob(k, _) => SyncLink(k)
  }

  function BoundLinks(w: World, form: string): multiset<Work> {
    multiset(set k | k in w.links && w.links[k].form == Some(form) :: SyncLink(k))
  }

  /** What a handler enqueues. */
  function Enqueued(w: World, e: Event): multiset<Work> {
    match e
    case Submit(f, u, _, _) => if f in w.home && u != "" then multiset{Reevaluate(u)} else multiset{}
    case Revise(i, _, _) => if i < |w.responses| then multiset{Reevaluate(w.responses[i].user)} else multiset{}
    case DeleteResponse(i) => if i < |w.responses| then multiset{Reevaluate(w.responses[i].user)} else multiset{}
    case ClearResponses(f) => BoundLinks(w, f)
    case DeleteForm(f) => BoundLinks(w, f)
    case SaveConfig(k, form, _, _) =>
      if k in w.links && (form.None? || (form.value in w.home && w.home[form.value] == k.guild)) then multiset{SyncLink(k)}
      else multiset{}
    case _ => multiset{}
  }

  /** Everything but the sync jobs themselves and account unlinks, which no handler enqueues. */
  predicate Handled(e: Event) {
    !e.Sync? && !e.Unlink?
  }

  /** The lookups of a job worked. */
  predicate Informed(w: World, job: SyncJob, optouts: Optouts) {
    match job
    case PlayerJob(u, run) =>
      run.gateway.Some? && forall k | k in Scope(w, u, run.gateway.value) :: run.optouts(k.guild) == Some(optouts(k.guild))
    case BulkJob(k, run) => run.optouts == Some(optouts(k.guild))
  }

  /** Every call a job found necessary was served, or answered that the link is gone. */
  predicate Landed(w: World, job: SyncJob) {
    match job
    case PlayerJob(u, run) =>
      && (forall k | k in Judged(w, u, run, Add) :: k in Added(w, u, run) + Orphaned(w, u, run))
      && (forall k | k in Judged(w, u, run, Remove) :: k in Removed(w, u, run) + Orphaned(w, u, run))
    case BulkJob(k, run) =>
      FormBound(w, k) && run.optouts.Some? ==> UploadLanded(w, k, run)
  }

  /** The list was in place, or its upload was served, or the link is gone. */
  predicate UploadLanded(w: World, k: Key, run: BulkRun)
    requires FormBound(w, k) && run.optouts.Some?
  {
    var all := Desired(w, k, run.optouts.value);
    var before := Members(w.remote, k);
    match Deliver(before, |all|, all, run.first).0
    case Done => true
    case LinkNotFound => true
    case LimitReached(limit) => Members(w.mirror, k) == all || Deliver(before, |Least(all, limit)|, Least(all, limit), run.second).0.LinkNotFound?
    case _ => Members(w.mirror, k) == all
  }

  ghost predicate Possible(s: Site, m: Move, optouts: Optouts) {
    match m
    case Handle(e) => Handled(e)
    case EditForm(_) => true
    case Attempt(job) => WorkOfJob(job) in s.unfinished
    case Succeed(job) => WorkOfJob(job) in s.unfinished && Informed(s.world, job, optouts) && Landed(s.world, job)
  }

  function Next(s: Site, m: Move): Site {
    match m
    case Handle(e) => Site(After(s.world, e), s.unfinished + Enqueued(s.world, e))
    case EditForm(f) => s.(unfinished := s.unfinished + BoundLinks(s.world, f))
    case Attempt(job) => s.(world := Step(s.world, job))
    case Succeed(job) => Site(Step(s.world, job), s.unfinished - multiset{WorkOfJob(job)})
  }

  predicate AtGoal(w: World, optouts: Optouts, a: Assignment) {
    a in w.mirror <==> Goal(w, optouts, a)
  }

  predicate Scheduled(s: Site, a: Assignment) {
    SyncLink(a.key) in s.unfinished || Reevaluate(a.user) in s.unfinished
  }

  /** Every user of every form-bound link is where they belong, or a job that reaches them is
      still to finish. */
  ghost predicate Accounted(s: Site, optouts: Optouts) {
    forall a: Assignment | FormBound(s.world, a.key) :: AtGoal(s.world, optouts, a) || Scheduled(s, a)
  }

  ghost predicate Sound(s: Site, optouts: Optouts) {
    WellFormed(s.world) && MirrorTracks(s.world) && Accounted(s, optouts)
  }

  /** Whether a user belongs on a link rests on the link and on that user's responses to its form. */
  lemma SameStanding(w: World, v: World, optouts: Optouts, a: Assignment)
    requires FormBound(w, a.key) && FormBound(v, a.key) && v.links[a.key] == w.links[a.key] && v.host == w.host
    requires forall r: Response | r.user == a.user && r.form == w.links[a.key].form.value :: r in v.responses <==> r in w.responses
    ensures Goal(v, optouts, a) <==> Goal(w, optouts, a)
  {
    DesiredMeans(w, a.key, optouts(a.key.guild), a.user);
    DesiredMeans(v, a.key, optouts(a.key.guild), a.user);
  }

  /** The standings an event can change are those its handler enqueues a job for. */
  lemma EventIsScheduled(s: Site, e: Event, optouts: Optouts, a: Assignment)
    requires Handled(e) && FormBound(After(s.world, e), a.key) && !Scheduled(Next(s, Handle(e)), a)
    ensures FormBound(s.world, a.key) && After(s.world, e).links[a.key] == s.world.links[a.key]
    ensures forall r: Response | r.user == a.user && r.form == s.world.links[a.key].form.value ::
      r in After(s.world, e).responses <==> r in s.world.responses
    ensures a in After(s.world, e).mirror <==> a in s.world.mirror
  {
    var (w, v) := (s.world, After(s.world, e));
    match e
    case Revise(i, _, _) => RevisedFor(w, e, a.user);
    case DeleteResponse(i) => DeletedFor(w, e, a.user);
    case ClearResponses(f) => BoundIsScheduled(s, f, a.key);
    case DeleteForm(f) => BoundIsScheduled(s, f, a.key);
    case _ =>
  }

  lemma BoundIsScheduled(s: Site, f: string, k: Key)
    ensures k in s.world.links && s.world.links[k].form == Some(f) ==> SyncLink(k) in s.unfinished + BoundLinks(s.world, f)
  {
    if k in s.world.links && s.world.links[k].form == Some(f) {
      assert SyncLink(k) in (set l | l in s.world.links && s.world.links[l].form == Some(f) :: SyncLink(l));
    }
  }

  lemma RevisedFor(w: World, e: Event, u: string)
    requires e.Revise? && (e.row < |w.responses| ==> w.responses[e.row].user != u)
    ensures forall r: Response | r.user == u :: r in After(w, e).responses <==> r in w.responses
  {
    var v := After(w, e);
    forall r: Response | r.user == u ensures r in v.responses <==> r in w.responses {
      if r in w.responses {
        var i :| 0 <= i < |w.responses| && w.responses[i] == r;
        assert v.responses[i] == r;
      }
      if r in v.responses {
        var i :| 0 <= i < |v.responses| && v.responses[i] == r;
        assert w.responses[i] == r;
      }
    }
  }

  lemma DeletedFor(w: World, e: Event, u: string)
    requires e.DeleteResponse? && (e.gone < |w.responses| ==> w.responses[e.gone].user != u)
    ensures forall r: Response | r.user == u :: r in After(w, e).responses <==> r in w.responses
  {
    if e.gone < |w.responses| {
      assert w.responses == w.responses[..e.gone] + [w.responses[e.gone]] + w.responses[e.gone + 1..];
    }
  }

  lemma HandleAccounts(s: Site, e: Event, optouts: Optouts)
    requires Sound(s, optouts) && Handled(e)
    ensures Sound(Next(s, Handle(e)), optouts)
  {
    var s' := Next(s, Handle(e));
    EventKeepsTables(s.world, e);
    forall a: Assignment | FormBound(s'.world, a.key) ensures AtGoal(s'.world, optouts, a) || Scheduled(s', a) {
      if !Scheduled(s', a) {
        EventIsScheduled(s, e, optouts, a);
        EventKeepsHost(s.world, e);
        SameStanding(s.world, s'.world, optouts, a);
        assert !Scheduled(s, a);
        assert AtGoal(s.world, optouts, a);
      }
    }
  }

  lemma EventKeepsHost(w: World, e: Event)
    requires Handled(e)
    ensures After(w, e).host == w.host
  {
  }

  /** A job can change no standing, and no membership but those it is there to repair. */
  lemma StepReaches(w: World, job: SyncJob, a: Assignment)
    requires WellFormed(w) && FormBound(Step(w, job), a.key)
    requires match job case PlayerJob(u, _) => a.user != u case BulkJob(k, _) => a.key != k
    ensures a in Step(w, job).mirror <==> a in w.mirror
  {
    match job
    case PlayerJob(u, run) => PlayerTouchesOnly(w, u, run, a);
    case BulkJob(k, run) =>
      BulkTouchesOnly(w, k, run, a.key);
      InMembers(w.mirror, a.key, a.user);
      InMembers(Step(w, job).mirror, a.key, a.user);
      assert a == Assignment(a.key, a.user);
  }

  lemma StepKeepsStandings(w: World, job: SyncJob, optouts: Optouts, a: Assignment)
    requires FormBound(Step(w, job), a.key)
    ensures FormBound(w, a.key) && (Goal(Step(w, job), optouts, a) <==> Goal(w, optouts, a))
  {
    var v := Step(w, job);
    if job.BulkJob? {
      var _ := BulkShape(w, job.key, job.bulk);
    }
    assert a.key in w.links && v.links[a.key] == w.links[a.key];
    SameStanding(w, v, optouts, a);
  }

  lemma StepKeepsTables(w: World, job: SyncJob)
    requires WellFormed(w) && MirrorTracks(w)
    ensures WellFormed(Step(w, job)) && MirrorTracks(Step(w, job))
  {
    match job
    case PlayerJob(u, run) => PlayerKeepsMirror(w, u, run);
    case BulkJob(k, run) => BulkKeepsMirror(w, k, run);
  }

  lemma AttemptAccounts(s: Site, job: SyncJob, optouts: Optouts)
    requires Sound(s, optouts) && WorkOfJob(job) in s.unfinished
    ensures Sound(Next(s, Attempt(job)), optouts)
  {
    var s' := Next(s, Attempt(job));
    StepKeepsTables(s.world, job);
    forall a: Assignment | FormBound(s'.world, a.key) ensures AtGoal(s'.world, optouts, a) || Scheduled(s', a) {
      if !Scheduled(s', a) {
        StepKeepsStandings(s.world, job, optouts, a);
        StepReaches(s.world, job, a);
        assert !Scheduled(s, a);
        assert AtGoal(s.world, optouts, a);
      }
    }
  }

  predicate Reaches(job: SyncJob, a: Assignment) {
    match job
    case PlayerJob(u, _) => a.user == u
    case BulkJob(k, _) => a.key == k
  }

  /** What one player job leaves on one link, when its lookups worked. */
  lemma PlayerSettles(w: World, u: string, run: PlayerRun, optouts: Optouts, k: Key)
    requires WellFormed(w) && Informed(w, PlayerJob(u, run), optouts) && FormBound(PlayerStep(w, u, run), k)
    ensures AtGoal(PlayerStep(w, u, run), optouts, Assignment(k, u)) <==>
      && (k in Judged(w, u, run, Add) ==> k in Added(w, u, run))
      && (k in Judged(w, u, run, Remove) ==> k in Removed(w, u, run))
  {
    var a := Assignment(k, u);
    StepKeepsStandings(w, PlayerJob(u, run), optouts, a);
    DesiredMeans(w, k, optouts(k.guild), u);
    if k !in Scope(w, u, run.gateway.value) {
      assert a !in w.mirror && !Answered(w, w.links[k], u) by {
        if Answered(w, w.links[k], u) || a in w.mirror {
          ScopeIsComplete(w, u, run.gateway.value, k);
        }
      }
    }
  }

  lemma AfterUploadHolds(w: World, k: Key, users: set<string>, outcome: Outcome)
    requires FormBound(w, k)
    ensures var v := AfterUpload(w, k, users, outcome).0;
      && (FormBound(v, k) <==> !outcome.LinkNotFound?)
      && (FormBound(v, k) ==> Members(v.mirror, k) == if outcome.Done? then users else Members(w.mirror, k))
  {
    RewriteMembers(w.mirror, k, users);
  }

  /** What one role-link job leaves on its link, when its lookup worked. */
  lemma BulkSettles(w: World, k: Key, run: BulkRun)
    requires FormBound(w, k) && run.optouts.Some?
    ensures var (v, all) := (BulkStep(w, k, run).0, Desired(w, k, run.optouts.value));
      UploadLanded(w, k, run) <==> (FormBound(v, k) ==> Members(v.mirror, k) == all)
  {
    var all := Desired(w, k, run.optouts.value);
    var before := Members(w.remote, k);
    var outcome := Deliver(before, |all|, all, run.first).0;
    AfterUploadHolds(w, k, all, outcome);
    if !w.links[k].grantAny && Conditions.ParseRows(w.links[k].rows) == [] {
      UnconditionedDesiresNobody(w, k, run.optouts.value);
    } else if outcome.LimitReached? {
      var capped := Least(all, outcome.limit);
      LeastSize(all, outcome.limit);
      AfterUploadHolds(w, k, capped, Deliver(before, |capped|, capped, run.second).0);
    }
  }

  lemma PlayerSettlesExactly(w: World, u: string, run: PlayerRun, optouts: Optouts)
    requires WellFormed(w) && Informed(w, PlayerJob(u, run), optouts)
    ensures Landed(w, PlayerJob(u, run)) <==>
      forall k | FormBound(PlayerStep(w, u, run), k) :: AtGoal(PlayerStep(w, u, run), optouts, Assignment(k, u))
  {
    var v := PlayerStep(w, u, run);
    forall k | FormBound(v, k)
      ensures AtGoal(v, optouts, Assignment(k, u)) <==>
        && (k in Judged(w, u, run, Add) ==> k in Added(w, u, run))
        && (k in Judged(w, u, run, Remove) ==> k in Removed(w, u, run))
    {
      PlayerSettles(w, u, run, optouts, k);
    }
    assert forall k | k in w.links :: k in v.links <==> k !in Orphaned(w, u, run);
  }

  lemma BulkSettlesExactly(w: World, k: Key, run: BulkRun, optouts: Optouts)
    requires WellFormed(w) && Informed(w, BulkJob(k, run), optouts)
    ensures Landed(w, BulkJob(k, run)) <==>
      forall u | FormBound(BulkStep(w, k, run).0, k) :: AtGoal(BulkStep(w, k, run).0, optouts, Assignment(k, u))
  {
    var v := BulkStep(w, k, run).0;
    if FormBound(w, k) {
      BulkSettles(w, k, run);
      forall u | FormBound(v, k)
        ensures AtGoal(v, optouts, Assignment(k, u)) <==> (u in Members(v.mirror, k) <==> u in Desired(w, k, optouts(k.guild)))
      {
        StepKeepsStandings(w, BulkJob(k, run), optouts, Assignment(k, u));
        InMembers(v.mirror, k, u);
      }
    } else {
      var _ := BulkShape(w, k, run);
    }
  }

  /** Exactly when a job whose lookups worked brings all it was there to repair to its goal: when
      each call it found necessary landed. */
  lemma SettlesExactly(w: World, job: SyncJob, optouts: Optouts)
    requires WellFormed(w) && Informed(w, job, optouts)
    ensures Landed(w, job) <==>
      forall a: Assignment | FormBound(Step(w, job), a.key) && Reaches(job, a) :: AtGoal(Step(w, job), optouts, a)
  {
    match job
    case PlayerJob(u, run) =>
      PlayerSettlesExactly(w, u, run, optouts);
      assert forall a: Assignment | a.user == u :: a == Assignment(a.key, u);
      assert forall k :: Assignment(k, u).key == k;
    case BulkJob(k, run) =>
      BulkSettlesExactly(w, k, run, optouts);
      assert forall a: Assignment | a.key == k :: a == Assignment(k, a.user);
      assert forall u :: Assignment(k, u).user == u;
  }

  /** A job without faults lands. */
  lemma CleanLands(w: World, job: SyncJob, optouts: Optouts)
    requires MirrorTracks(w) && Clean(job, optouts)
    ensures Informed(w, job, optouts) && Landed(w, job)
  {
    match job
    case PlayerJob(u, run) =>
      forall k | k in Judged(w, u, run, Add) ensures k in Added(w, u, run) {
      }
    case BulkJob(k, run) =>
      if FormBound(w, k) {
        var all := Desired(w, k, run.optouts.value);
        CleanDelivery(Members(w.remote, k), |all|, all, run.first);
      }
  }

  lemma SuccessAccounts(s: Site, job: SyncJob, optouts: Optouts)
    requires Sound(s, optouts) && Possible(s, Succeed(job), optouts)
    ensures Sound(Next(s, Succeed(job)), optouts)
  {
    var s' := Next(s, Succeed(job));
    StepKeepsTables(s.world, job);
    SettlesExactly(s.world, job, optouts);
    forall a: Assignment | FormBound(s'.world, a.key) ensures AtGoal(s'.world, optouts, a) || Scheduled(s', a) {
      if Reaches(job, a) {
        assert AtGoal(s'.world, optouts, a);
      } else if !Scheduled(s', a) {
        StepKeepsStandings(s.world, job, optouts, a);
        StepReaches(s.world, job, a);
        assert !Scheduled(s, a);
        assert AtGoal(s.world, optouts, a);
      }
    }
  }

  lemma MoveAccounts(s: Site, m: Move, optouts: Optouts)
    requires Sound(s, optouts) && Possible(s, m, optouts)
    ensures Sound(Next(s, m), optouts)
  {
    match m
    case Handle(e) => HandleAccounts(s, e, optouts);
    case EditForm(f) =>
      assert forall a: Assignment :: Scheduled(s, a) ==> Scheduled(Next(s, m), a);
    case Attempt(job) => AttemptAccounts(s, job, optouts);
    case Succeed(job) => SuccessAccounts(s, job, optouts);
  }

  /** A fresh install. */
  function FirstSite(host: Host): Site {
    Site(Empty(host), multiset{})
  }

  function Run(s: Site, moves: seq<Move>): Site
    decreases |moves|
  {
    if moves == [] then s else Run(Next(s, moves[0]), moves[1..])
  }

  ghost predicate AllPossible(s: Site, moves: seq<Move>, optouts: Optouts)
    decreases |moves|
  {
    moves != [] ==> Possible(s, moves[0], optouts) && AllPossible(Next(s, moves[0]), moves[1..], optouts)
  }

  lemma {:induction false} RunAccounts(s: Site, moves: seq<Move>, optouts: Optouts)
    requires Sound(s, optouts) && AllPossible(s, moves, optouts)
    ensures Sound(Run(s, moves), optouts)
    decreases |moves|
  {
    if moves != [] {
      MoveAccounts(s, moves[0], optouts);
      RunAccounts(Next(s, moves[0]), moves[1..], optouts);
    }
  }

  /** No change is forgotten. From a fresh install, over every history of requests, form edits,
      failed attempts and finished jobs, whoever is not where they belong on a form-bound link is
      reached by a job that has not finished. When no sync job is left, every such link lists
      exactly its qualifying members, here and at RoleLogic. */
  lemma NothingIsForgotten(host: Host, moves: seq<Move>, optouts: Optouts)
    requires AllPossible(FirstSite(host), moves, optouts)
    ensures var s := Run(FirstSite(host), moves);
      && Accounted(s, optouts)
      && (s.unfinished == multiset{} ==> forall k | FormBound(s.world, k) ::
            Members(s.world.mirror, k) == Members(s.world.remote, k) == Desired(s.world, k, optouts(k.guild)))
  {
    var s := Run(FirstSite(host), moves);
    RunAccounts(FirstSite(host), moves, optouts);
    if s.unfinished == multiset{} {
      forall k | FormBound(s.world, k)
        ensures Members(s.world.mirror, k) == Members(s.world.remote, k) == Desired(s.world, k, optouts(k.guild))
      {
        AllSettled(s, optouts, k);
      }
    }
  }

  lemma AllSettled(s: Site, optouts: Optouts, k: Key)
    requires Sound(s, optouts) && s.unfinished == multiset{} && FormBound(s.world, k)
    ensures Members(s.world.mirror, k) == Members(s.world.remote, k) == Desired(s.world, k, optouts(k.guild))
  {
    TrackedMembers(s.world, k);
    forall u ensures u in Members(s.world.mirror, k) <==> u in Desired(s.world, k, optouts(k.guild)) {
      InMembers(s.world.mirror, k, u);
      assert AtGoal(s.world, optouts, Assignment(k, u)) && !Scheduled(s, Assignment(k, u));
    }
  }

  lemma MovesCons(s: Site, m: Move, rest: seq<Move>, optouts: Optouts)
    ensures Run(s, [m] + rest) == Run(Next(s, m), rest)
    ensures AllPossible(s, [m] + rest, optouts) <==> Possible(s, m, optouts) && AllPossible(Next(s, m), rest, optouts)
  {
    assert ([m] + rest)[1..] == rest;
  }

  const ONE_LINK: Key := Key("g", "r")

  /** A form whose one link grants on any submission, synced, and then a submission. */
  function OneSubmission(u: string, run: BulkRun): seq<Move> {
    [Handle(CreateForm("f", "g"))] + ([Handle(Register(ONE_LINK))] + ([Handle(SaveConfig(ONE_LINK, Some("f"), true, []))]
      + ([Succeed(BulkJob(ONE_LINK, run))] + ([Handle(Submit("f", u, Null, None))] + []))))
  }

  function OneLinkWorld(host: Host): World {
    World(host, map["f" := "g"], map[ONE_LINK := Link(Some("f"), true, [])], [], {}, {})
  }

  lemma OneLinkIsSaved(host: Host)
    ensures var registered := After(After(Empty(host), CreateForm("f", "g")), Register(ONE_LINK));
      && registered == OneLinkWorld(host).(links := map[ONE_LINK := Link(None, false, [])])
      && After(registered, SaveConfig(ONE_LINK, Some("f"), true, [])) == OneLinkWorld(host)
  {
  }

  function LastSite(host: Host, u: string): Site {
    Site(OneLinkWorld(host).(responses := [Response("f", "g", u, Null, None)]), multiset{Reevaluate(u)})
  }

  lemma OneLinkIsQueued(host: Host)
    ensures var s := Next(Next(FirstSite(host), Handle(CreateForm("f", "g"))), Handle(Register(ONE_LINK)));
      Next(s, Handle(SaveConfig(ONE_LINK, Some("f"), true, []))) == Site(OneLinkWorld(host), multiset{SyncLink(ONE_LINK)})
  {
    OneLinkIsSaved(host);
  }

  lemma OneLinkIsSynced(host: Host, run: BulkRun, optouts: Optouts)
    requires Clean(BulkJob(ONE_LINK, run), optouts)
    ensures var s := Site(OneLinkWorld(host), multiset{SyncLink(ONE_LINK)});
      && Possible(s, Succeed(BulkJob(ONE_LINK, run)), optouts)
      && Next(s, Succeed(BulkJob(ONE_LINK, run))) == Site(OneLinkWorld(host), multiset{})
  {
    CleanLands(OneLinkWorld(host), BulkJob(ONE_LINK, run), optouts);
  }

  lemma OneSubmissionArrives(host: Host, u: string)
    requires u != ""
    ensures Next(Site(OneLinkWorld(host), multiset{}), Handle(Submit("f", u, Null, None))) == LastSite(host, u)
  {
  }

  lemma OneSubmissionLeads(host: Host, u: string, run: BulkRun, optouts: Optouts)
    requires u != "" && Clean(BulkJob(ONE_LINK, run), optouts)
    ensures AllPossible(FirstSite(host), OneSubmission(u, run), optouts)
    ensures Run(FirstSite(host), OneSubmission(u, run)) == LastSite(host, u)
  {
    var (m1, m2, m3) := (Handle(CreateForm("f", "g")), Handle(Register(ONE_LINK)), Handle(SaveConfig(ONE_LINK, Some("f"), true, [])));
    var (m4, m5) := (Succeed(BulkJob(ONE_LINK, run)), Handle(Submit("f", u, Null, None)));
    var (s1, s2) := (Next(FirstSite(host), m1), Next(Next(FirstSite(host), m1), m2));
    OneLinkIsQueued(host);
    OneLinkIsSynced(host, run, optouts);
    OneSubmissionArrives(host, u);
    MovesCons(Site(OneLinkWorld(host), multiset{}), m5, [], optouts);
    MovesCons(Next(s2, m3), m4, [m5] + [], optouts);
    MovesCons(s2, m3, [m4] + ([m5] + []), optouts);
    MovesCons(s1, m2, [m3] + ([m4] + ([m5] + [])), optouts);
    MovesCons(FirstSite(host), m1, [m2] + ([m3] + ([m4] + ([m5] + []))), optouts);
  }

  /** A member submits to a form whose one link grants on any submission, and RoleLogic fails to
      answer the one call of their sync: the job reports success and is completed, the member
      is not on the list, and nothing is left that would put them there. */
  lemma CompletedWithoutEffect(host: Host, u: string, bulk: BulkRun, player: PlayerRun, optouts: Optouts)
    requires u != "" && u !in optouts("g") && Clean(BulkJob(ONE_LINK, bulk), optouts)
    requires player.gateway.Some? && player.optouts("g") == Some(optouts("g")) && player.reply(ONE_LINK) == Fault
    ensures var (start, moves) := (FirstSite(host), OneSubmission(u, bulk));
      && AllPossible(start, moves, optouts) && Run(start, moves).unfinished == multiset{Reevaluate(u)}
      && var w := Run(start, moves).world;
      && PlayerResult(w, u, player) == Synced && Informed(w, PlayerJob(u, player), optouts)
      && PlayerStep(w, u, player) == w && !AtGoal(w, optouts, Assignment(ONE_LINK, u))
  {
    OneSubmissionLeads(host, u, bulk, optouts);
    var w := LastSite(host, u).world;
    assert w.responses[0] in w.responses && Meets(w, w.links[ONE_LINK], w.responses[0]);
    assert w.responses[0].user == u;
  }
}
