// Everything that happens to the tables over time: forms, responses and role configs come
// and go (src/routes/admin.rs, src/routes/form_render.rs, src/routes/plugin.rs) between runs
// of the sync jobs.
module Lifecycle {
  import opened Wrappers
  import opened Json
  import opened SyncModel
  import opened SyncTheory
  import Upload

  datatype Event =
    | CreateForm(newForm: string, guild: string)
    | Submit(form: string, user: string, answers: Value, score: Option<int>)
    | Revise(row: nat, newAnswers: Value, newScore: Option<int>)
    | DeleteResponse(gone: nat)
    | ClearResponses(cleared: string)
    | DeleteForm(deleted: string)
    | SaveConfig(saved: Key, boundForm: Option<string>, grantAny: bool, rows: seq<Value>)
    | Register(registered: Key)
    | DropLink(dropped: Key)
    | Sync(job: SyncJob)
    | Unlink(unlinked: string, reply: Key -> Upload.Reply)

  function Excluding(rs: seq<Response>, form: string): (r: seq<Response>)
    ensures forall x | x in r :: x in rs && x.form != form
    ensures forall x | x in rs && x.form != form :: x in r
  {
    if rs == [] then []
    else
      assert rs == [rs[0]] + rs[1..];
      (if rs[0].form == form then [] else [rs[0]]) + Excluding(rs[1..], form)
  }

  function After(w: World, e: Event): World {
    match e
    case CreateForm(f, g) => if f in w.home then w else w.(home := w.home[f := g])
    case Submit(f, u, answers, score) =>
      // The row's guild is the form's own; the author is the signed-in member.
      if f in w.home && u != "" then w.(responses := w.responses + [Response(f, w.home[f], u, answers, score)]) else w
    case Revise(i, answers, score) =>
      if i < |w.responses| then w.(responses := w.responses[i := w.responses[i].(answers := answers, score := score)]) else w
    case DeleteResponse(i) =>
      if i < |w.responses| then w.(responses := w.responses[..i] + w.responses[i + 1..]) else w
    case ClearResponses(f) => w.(responses := Excluding(w.responses, f))
    case DeleteForm(f) =>
      w.(links := map k | k in w.links :: if w.links[k].form == Some(f) then w.links[k].(form := None) else w.links[k],
         responses := Excluding(w.responses, f))
    case SaveConfig(k, form, grantAny, rows) =>
      // An unknown link is a 404; a form of another guild is refused.
      if k in w.links && (form.None? || (form.value in w.home && w.home[form.value] == k.guild))
      then w.(links := w.links[k := Link(form, grantAny, rows)]) else w
    case Register(k) =>
      // A known link only gets a new token; a new one starts with an empty list upstream.
      if k in w.links then w
      else w.(links := w.links[k := Link(None, false, [])], remote := Rewrite(w.remote, k, {}))
    case DropLink(k) => Drop(w, k)
    case Sync(job) => Step(w, job)
    case Unlink(u, reply) => UnlinkStep(w, u, reply)
  }

  function Empty(host: Host): World {
    World(host, map[], map[], [], {}, {})
  }

  function History(w: World, events: seq<Event>): World
    decreases |events|
  {
    if events == [] then w else History(After(w, events[0]), events[1..])
  }

  /** Every unlink met a RoleLogic that took the user off, or reported gone, each of their links. */
  predicate UnlinksLanded(w: World, events: seq<Event>)
    decreases |events|
  {
    events != [] ==>
      && (events[0].Unlink? ==>
            forall k | k in AssignedKeys(w, events[0].unlinked) :: events[0].reply(k).Accepted? || events[0].reply(k).Gone?)
      && UnlinksLanded(After(w, events[0]), events[1..])
  }

  lemma ResponseEventsKeepTables(w: World, e: Event)
    requires WellFormed(w) && MirrorTracks(w)
    requires e.CreateForm? || e.Submit? || e.Revise? || e.DeleteResponse? || e.ClearResponses?
    ensures WellFormed(After(w, e)) && MirrorTracks(After(w, e))
  {
    if e.Revise? && e.row < |w.responses| {
      assert w.responses[e.row] in w.responses;
    }
  }

  lemma LinkEventsKeepTables(w: World, e: Event)
    requires WellFormed(w) && MirrorTracks(w)
    requires e.DeleteForm? || e.SaveConfig? || e.Register? || e.DropLink?
    ensures WellFormed(After(w, e)) && MirrorTracks(After(w, e))
  {
  }

  lemma UnlinkKeepsTables(w: World, u: string, reply: Key -> Upload.Reply)
    requires WellFormed(w)
    ensures WellFormed(UnlinkStep(w, u, reply))
  {
  }

  lemma EventKeepsTables(w: World, e: Event)
    requires WellFormed(w) && MirrorTracks(w)
    ensures WellFormed(After(w, e))
    ensures !e.Unlink? ==> MirrorTracks(After(w, e))
  {
    match e
    case Sync(PlayerJob(u, run)) => PlayerKeepsMirror(w, u, run);
    case Sync(BulkJob(k, run)) => BulkKeepsMirror(w, k, run);
    case Unlink(u, reply) => UnlinkKeepsTables(w, u, reply);
    case CreateForm(_, _) => ResponseEventsKeepTables(w, e);
    case Submit(_, _, _, _) => ResponseEventsKeepTables(w, e);
    case Revise(_, _, _) => ResponseEventsKeepTables(w, e);
    case DeleteResponse(_) => ResponseEventsKeepTables(w, e);
    case ClearResponses(_) => ResponseEventsKeepTables(w, e);
    case _ => LinkEventsKeepTables(w, e);
  }

  /** Over every history of edits, submissions, deletions and sync jobs, whatever RoleLogic
      and the gateway answered, the foreign key and the guild rules hold, and the local table
      equals RoleLogic's lists as long as the unlinks landed. */
  lemma {:induction false} TablesStaySound(w: World, events: seq<Event>)
    requires WellFormed(w) && MirrorTracks(w) && UnlinksLanded(w, events)
    ensures WellFormed(History(w, events)) && MirrorTracks(History(w, events))
    decreases |events|
  {
    if events != [] {
      var e := events[0];
      EventKeepsTables(w, e);
      if e.Unlink? {
        UnlinkKeepsMirrorExactly(w, e.unlinked, e.reply);
      }
      TablesStaySound(After(w, e), events[1..]);
    }
  }

  /** From a fresh install, after any history: the two sync paths agree, and once a clean run
      has reached everyone nothing flaps. */
  lemma PathsAgreeAfterAnyHistory(host: Host, events: seq<Event>, jobs: seq<SyncJob>, jobs': seq<SyncJob>, later: seq<SyncJob>,
                                  optouts: Optouts, caps: Caps)
    requires UnlinksLanded(Empty(host), events)
    requires forall j | j in jobs :: Clean(j, optouts)
    requires forall j | j in jobs' :: Clean(j, optouts)
    requires Covers(History(Empty(host), events), UsersOf(jobs), KeysOf(jobs))
    requires Covers(History(Empty(host), events), UsersOf(jobs'), KeysOf(jobs'))
    requires forall j | j in later :: Ordinary(j, optouts, caps)
    ensures var w := History(Empty(host), events);
      && RunJobs(w, jobs) == RunJobs(w, jobs')
      && RunJobs(RunJobs(w, jobs), later) == Forget(RunJobs(w, jobs), LostLinks(RunJobs(w, jobs), later))
      && ((forall j | j in later :: NeverGone(j)) ==> RunJobs(RunJobs(w, jobs), later) == RunJobs(w, jobs))
  {
    TablesStaySound(Empty(host), events);
    var w := History(Empty(host), events);
    PathsAgree(w, jobs, jobs', optouts);
    ConvergedThenQuiet(w, jobs, later, optouts, caps);
  }
}
