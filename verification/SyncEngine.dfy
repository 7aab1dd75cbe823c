// The sync jobs of src/services/sync.rs as code: lookups, loops and in-place table updates,
// each proved to do what SyncModel says.
module SyncEngine {
  import opened Wrappers
  import opened Json
  import opened Order
  import opened Conditions
  import opened Upload
  import opened SyncModel

  /** Streams the response rows of one form into an ascending set of qualifying users, and
      cuts it to `limit`. */
  method QueryQualifying(host: Host, responses: seq<Response>, form: string, optouts: set<string>,
                         grantAny: bool, conditions: seq<Condition>, limit: Option<nat>)
    returns (ids: seq<string>)
    ensures Ascending(ids)
    ensures var all := set r | r in responses && r.form == form && r.user != "" && r.user !in optouts
        && Evaluate(host, grantAny, conditions, r.answers, r.score) :: r.user;
      Elems(ids) == if limit.Some? then Least(all, limit.value) else all
  {
    var qualifying: seq<string> := [];
    var i := 0;
    while i < |responses|
      invariant 0 <= i <= |responses|
      invariant Ascending(qualifying)
      invariant Elems(qualifying) == set r | r in responses[..i]
        && r.form == form && r.user != "" && r.user !in optouts
        && Evaluate(host, grantAny, conditions, r.answers, r.score) :: r.user
    {
      var r := responses[i];
      assert responses[..i + 1] == responses[..i] + [r];
      if r.form == form && r.user != "" && r.user !in optouts {
        if r.user in qualifying {
          // Already in on an earlier response.
          assert r.user in Elems(qualifying);
        } else if Evaluate(host, grantAny, conditions, r.answers, r.score) {
          qualifying := Insert(qualifying, r.user);
        }
      }
      i := i + 1;
    }
    assert responses[..|responses|] == responses;
    ids := qualifying;
    if limit.Some? {
      TruncateIsLeast(ids, limit.value);
      ids := Truncate(ids, limit.value);
    }
  }

  /** The ids of a link's assignments in the engine's own order. */
  method Sorted(users: set<string>) returns (ids: seq<string>)
    ensures Ascending(ids) && Elems(ids) == users
  {
    ids := [];
    var todo := users;
    while todo != {}
      invariant todo <= users
      invariant Ascending(ids) && Elems(ids) == users - todo
    {
      var u :| u in todo;
      ids := Insert(ids, u);
      todo := todo - {u};
    }
  }

  datatype Action = AddUser(key: Key) | RemoveUser(key: Key)

  function KeysAdding(actions: set<Action>): set<Key> {
    set x | x in actions && x.AddUser? :: x.key
  }

  function KeysRemoving(actions: set<Action>): set<Key> {
    set x | x in actions && x.RemoveUser? :: x.key
  }

  lemma AssignedGuildsAre(w: World, u: string, existing: set<Key>)
    requires existing == set a | a in w.mirror && a.user == u :: a.key
    ensures AssignedGuilds(w, u) == set k | k in existing :: k.guild
  {
    forall a | a in w.mirror && a.user == u ensures a.key in existing {
    }
  }

  lemma PlanIsJudgement(w: World, u: string, run: PlayerRun, roleLinks: set<Key>, existing: set<Key>,
                        optedOut: set<string>, unknown: set<string>, actions: set<Action>)
    requires run.gateway.Some? && roleLinks == Scope(w, u, run.gateway.value)
    requires existing == set a | a in w.mirror && a.user == u :: a.key
    requires optedOut == set k | k in roleLinks && run.optouts(k.guild).Some? && u in run.optouts(k.guild).value :: k.guild
    requires unknown == set k | k in roleLinks && run.optouts(k.guild).None? :: k.guild
    requires forall x | x in actions :: x.key in roleLinks && x.key.guild !in unknown
    requires forall k | k in roleLinks && k.guild !in unknown ::
      var qualifies := k.guild !in optedOut && Answered(w, w.links[k], u);
      (AddUser(k) in actions <==> qualifies && k !in existing) && (RemoveUser(k) in actions <==> !qualifies && k in existing)
    ensures KeysAdding(actions) == Judged(w, u, run, Add)
    ensures KeysRemoving(actions) == Judged(w, u, run, Remove)
  {
    forall k | k in roleLinks
      ensures k.guild in unknown <==> run.optouts(k.guild).None?
      ensures k.guild in optedOut <==> run.optouts(k.guild).Some? && u in run.optouts(k.guild).value
      ensures k in existing <==> Assignment(k, u) in w.mirror
    {
    }
    forall k ensures k in KeysAdding(actions) <==> k in Judged(w, u, run, Add) {
      assert k in KeysAdding(actions) <==> AddUser(k) in actions;
    }
    forall k ensures k in KeysRemoving(actions) <==> k in Judged(w, u, run, Remove) {
      assert k in KeysRemoving(actions) <==> RemoveUser(k) in actions;
    }
  }

  /** Each link has at most one action, and it is the one the model judged. */
  lemma EachLinkOnce(actions: set<Action>, x: Action, w: World, u: string, run: PlayerRun)
    requires KeysAdding(actions) == Judged(w, u, run, Add)
    requires KeysRemoving(actions) == Judged(w, u, run, Remove)
    requires x in actions
    ensures forall y | y in actions && y.key == x.key :: y == x
    ensures x.key in Judged(w, u, run, if x.AddUser? then Add else Remove)
  {
    assert x.key in if x.AddUser? then KeysAdding(actions) else KeysRemoving(actions);
    forall y | y in actions && y.key == x.key ensures y == x {
      assert y.key in if y.AddUser? then KeysAdding(actions) else KeysRemoving(actions);
    }
  }

  lemma MembersElsewhere(rows: set<Assignment>, u: string, added: set<Key>, removed: set<Key>, dropped: set<Key>, k: Key)
    requires k !in added + removed + dropped
    ensures Members(Apply(rows, u, added, removed, dropped), k) == Members(rows, k)
  {
  }

  /** The world after the actions on some of the links. */
  function Progress(w: World, u: string, run: PlayerRun, done: set<Key>): World {
    var (added, removed, dropped) := (Added(w, u, run) * done, Removed(w, u, run) * done, Orphaned(w, u, run) * done);
    w.(links := w.links - dropped,
       mirror := Apply(w.mirror, u, added, removed, dropped),
       remote := Apply(w.remote, u, added, removed, dropped))
  }

  lemma ApplyOneMore(rows: set<Assignment>, u: string, added: set<Key>, removed: set<Key>, dropped: set<Key>,
                     done: set<Key>, k: Key)
    requires k !in done && added !! removed
    ensures Apply(Apply(rows, u, added * done, removed * done, dropped * done),
                  u, added * {k}, removed * {k}, dropped * {k})
      == Apply(rows, u, added * (done + {k}), removed * (done + {k}), dropped * (done + {k}))
  {
  }

  /** Progress is made link by link. */
  lemma ProgressOneMore(w: World, u: string, run: PlayerRun, done: set<Key>, k: Key)
    requires k !in done
    ensures var (v, x) := (Progress(w, u, run, done), Progress(w, u, run, done + {k}));
      var (added, removed, dropped) := (Added(w, u, run) * {k}, Removed(w, u, run) * {k}, Orphaned(w, u, run) * {k});
      && x.links == v.links - dropped
      && x.mirror == Apply(v.mirror, u, added, removed, dropped)
      && x.remote == Apply(v.remote, u, added, removed, dropped)
  {
    var (added, removed, dropped) := (Added(w, u, run), Removed(w, u, run), Orphaned(w, u, run));
    ApplyOneMore(w.mirror, u, added, removed, dropped, done, k);
    ApplyOneMore(w.remote, u, added, removed, dropped, done, k);
    assert w.links - dropped * done - dropped * {k} == w.links - dropped * (done + {k});
  }

  lemma NoProgressYet(w: World, u: string, run: PlayerRun)
    ensures Progress(w, u, run, {}) == w
  {
    assert Apply(w.mirror, u, {}, {}, {}) == w.mirror && Apply(w.remote, u, {}, {}, {}) == w.remote;
  }

  lemma AllDone(w: World, u: string, run: PlayerRun, actions: set<Action>, done: set<Key>)
    requires KeysAdding(actions) == Judged(w, u, run, Add)
    requires KeysRemoving(actions) == Judged(w, u, run, Remove)
    requires forall x | x in actions :: x.key in done
    ensures Added(w, u, run) * done == Added(w, u, run)
    ensures Removed(w, u, run) * done == Removed(w, u, run)
    ensures Orphaned(w, u, run) * done == Orphaned(w, u, run)
  {
  }

  class Engine {
    const host: Host
    var home: map<string, string>
    var links: map<Key, Link>
    var responses: seq<Response>
    var mirror: set<Assignment>   // role_assignments
    var remote: set<Assignment>   // RoleLogic's lists

    function State(): World
      reads this
    {
      World(host, home, links, responses, mirror, remote)
    }

    constructor (w: World)
      ensures State() == w
    {
      host, home, links, responses, mirror, remote := w.host, w.home, w.links, w.responses, w.mirror, w.remote;
    }

    /** Adds one user to one list, then mirrors it. */
    method PerformAdd(k: Key, u: string, reply: Reply)
      modifies this`links, this`mirror, this`remote
      ensures var outcome := AddOutcome(Members(old(remote), k), u, reply);
        && links == (if outcome.LinkNotFound? then old(links) - {k} else old(links))
        && mirror == Apply(old(mirror), u, if outcome.Done? then {k} else {}, {}, if outcome.LinkNotFound? then {k} else {})
        && remote == Apply(old(remote), u, if outcome.Done? then {k} else {}, {}, if outcome.LinkNotFound? then {k} else {})
    {
      match AddOutcome(Members(remote, k), u, reply) {
        case LinkNotFound => DeleteOrphan(k);
        case Done =>
          remote := remote + {Assignment(k, u)};
          mirror := mirror + {Assignment(k, u)};
        case _ =>
      }
    }

    /** Takes one user off one list, then mirrors it. */
    method PerformRemove(k: Key, u: string, reply: Reply)
      modifies this`links, this`mirror, this`remote
      ensures var outcome := RemoveOutcome(reply);
        && links == (if outcome.LinkNotFound? then old(links) - {k} else old(links))
        && mirror == Apply(old(mirror), u, {}, if outcome.Done? then {k} else {}, if outcome.LinkNotFound? then {k} else {})
        && remote == Apply(old(remote), u, {}, if outcome.Done? then {k} else {}, if outcome.LinkNotFound? then {k} else {})
    {
      match RemoveOutcome(reply) {
        case LinkNotFound => DeleteOrphan(k);
        case Done =>
          remote := remote - {Assignment(k, u)};
          mirror := mirror - {Assignment(k, u)};
        case _ =>
      }
    }

    /** The row of a link RoleLogic reports deleted goes, and its assignments with it. */
    method DeleteOrphan(k: Key)
      modifies this`links, this`mirror, this`remote
      ensures State() == Drop(old(State()), k)
    {
      links := links - {k};
      mirror := Rewrite(mirror, k, {});
      remote := Rewrite(remote, k, {});
    }

    method SyncForPlayer(u: string, run: PlayerRun) returns (result: SyncResult)
      modifies this`links, this`mirror, this`remote
      ensures State() == PlayerStep(old(State()), u, run)
      ensures result == PlayerResult(old(State()), u, run)
    {
      ghost var w := State();
      if run.gateway.None? {
        return Errored(false);
      }
      var roleLinks, existing := SelectLinks(u, run.gateway.value);
      var optedOut, unknown := VetGuilds(u, roleLinks, run);
      var actions := PlanActions(u, roleLinks, existing, optedOut, unknown);
      PlanIsJudgement(w, u, run, roleLinks, existing, optedOut, unknown, actions);
      Execute(u, actions, run);
      if unknown != {} {
        return Errored(false);
      }
      return Synced;
    }

    /** The links that may concern a user, and the ones they are assigned to. */
    method SelectLinks(u: string, gateway: set<string>) returns (roleLinks: set<Key>, existing: set<Key>)
      ensures roleLinks == Scope(State(), u, gateway)
      ensures existing == set a | a in mirror && a.user == u :: a.key
    {
      ghost var w := State();
      var candidates := gateway + (set r | r in responses && r.user == u :: r.guild);
      existing := set a | a in mirror && a.user == u :: a.key;
      candidates := candidates + (set k | k in existing :: k.guild);
      AssignedGuildsAre(w, u, existing);
      assert candidates == gateway + ResponseGuilds(w, u) + AssignedGuilds(w, u);
      roleLinks := set k | k in links && links[k].form.Some? && k.guild in candidates;
      assert forall k :: k in roleLinks <==> k in Scope(w, u, gateway);
    }

    /** Looks up the opt-outs of every guild with a link in scope. */
    method VetGuilds(u: string, roleLinks: set<Key>, run: PlayerRun)
      returns (optedOut: set<string>, unknown: set<string>)
      ensures optedOut == set k | k in roleLinks && run.optouts(k.guild).Some? && u in run.optouts(k.guild).value :: k.guild
      ensures unknown == set k | k in roleLinks && run.optouts(k.guild).None? :: k.guild
    {
      optedOut, unknown := {}, {};
      var linkGuilds := set k | k in roleLinks :: k.guild;
      var todo := linkGuilds;
      while todo != {}
        invariant todo <= linkGuilds
        invariant optedOut == set g | g in linkGuilds - todo && run.optouts(g).Some? && u in run.optouts(g).value
        invariant unknown == set g | g in linkGuilds - todo && run.optouts(g).None?
      {
        var g :| g in todo;
        match run.optouts(g) {
          case Some(ids) => if u in ids { optedOut := optedOut + {g}; }
          case None => unknown := unknown + {g};
        }
        todo := todo - {g};
      }
    }

    /** Compares eligibility with the current assignments, link by link. */
    method PlanActions(u: string, roleLinks: set<Key>, existing: set<Key>, optedOut: set<string>, unknown: set<string>)
      returns (actions: set<Action>)
      requires forall k | k in roleLinks :: k in links && links[k].form.Some?
      ensures forall x | x in actions :: x.key in roleLinks && x.key.guild !in unknown
      ensures forall k | k in roleLinks && k.guild !in unknown ::
        var qualifies := k.guild !in optedOut && Answered(State(), links[k], u);
        (AddUser(k) in actions <==> qualifies && k !in existing) && (RemoveUser(k) in actions <==> !qualifies && k in existing)
    {
      actions := {};
      var todo := roleLinks;
      while todo != {}
        invariant todo <= roleLinks
        invariant forall x | x in actions :: x.key in roleLinks - todo && x.key.guild !in unknown
        invariant forall k | k in roleLinks - todo && k.guild !in unknown ::
          var qualifies := k.guild !in optedOut && Answered(State(), links[k], u);
          (AddUser(k) in actions <==> qualifies && k !in existing) && (RemoveUser(k) in actions <==> !qualifies && k in existing)
      {
        var k :| k in todo;
        todo := todo - {k};
        if k.guild in unknown {
          continue;
        }
        var qualifies := false;
        if k.guild !in optedOut {
          qualifies := exists r | r in responses :: r.form == links[k].form.value && r.user == u && Meets(State(), links[k], r);
        }
        if qualifies && k !in existing {
          actions := actions + {AddUser(k)};
        } else if !qualifies && k in existing {
          actions := actions + {RemoveUser(k)};
        }
      }
    }

    /** One action, performed while its own link is still as the job found it. */
    method Perform(x: Action, u: string, run: PlayerRun, ghost w: World)
      requires Members(remote, x.key) == Members(w.remote, x.key)
      requires x.key in Judged(w, u, run, if x.AddUser? then Add else Remove)
      modifies this`links, this`mirror, this`remote
      ensures links == old(links) - Orphaned(w, u, run) * {x.key}
      ensures mirror == Apply(old(mirror), u, Added(w, u, run) * {x.key}, Removed(w, u, run) * {x.key}, Orphaned(w, u, run) * {x.key})
      ensures remote == Apply(old(remote), u, Added(w, u, run) * {x.key}, Removed(w, u, run) * {x.key}, Orphaned(w, u, run) * {x.key})
    {
      ghost var k := x.key;
      match x {
        case AddUser(k) => PerformAdd(k, u, run.reply(k));
        case RemoveUser(k) => PerformRemove(k, u, run.reply(k));
      }
      assert Added(w, u, run) * {k} == if x.AddUser? && AddOutcome(Members(w.remote, k), u, run.reply(k)).Done? then {k} else {};
      assert Removed(w, u, run) * {k} == if x.RemoveUser? && RemoveOutcome(run.reply(k)).Done? then {k} else {};
      assert Orphaned(w, u, run) * {k} == if run.reply(k).Gone? then {k} else {};
    }

    /** Performs the actions in whatever order they complete. */
    method Execute(u: string, actions: set<Action>, run: PlayerRun)
      requires KeysAdding(actions) == Judged(State(), u, run, Add)
      requires KeysRemoving(actions) == Judged(State(), u, run, Remove)
      modifies this`links, this`mirror, this`remote
      ensures State() == PlayerStep(old(State()), u, run)
    {
      ghost var w := State();
      var todo := actions;
      ghost var done: set<Key> := {};
      NoProgressYet(w, u, run);
      while todo != {}
        invariant todo <= actions
        invariant forall x | x in todo :: x.key !in done
        invariant forall x | x in actions - todo :: x.key in done
        invariant State() == Progress(w, u, run, done)
      {
        var x :| x in todo;
        EachLinkOnce(actions, x, w, u, run);
        MembersElsewhere(w.remote, u, Added(w, u, run) * done, Removed(w, u, run) * done, Orphaned(w, u, run) * done, x.key);
        Perform(x, u, run, w);
        ProgressOneMore(w, u, run, done, x.key);
        todo := todo - {x};
        done := done + {x.key};
      }
      AllDone(w, u, run, actions, done);
    }

    method SyncForRoleLink(k: Key, run: BulkRun) returns (result: SyncResult)
      modifies this`links, this`mirror, this`remote
      ensures (State(), result) == BulkStep(old(State()), k, run)
    {
      if k !in links || links[k].form.None? {
        return Synced;
      }
      var link := links[k];
      var conditions := ParseRows(link.rows);
      if !link.grantAny && conditions == [] {
        result := Push(k, [], run.first);
        return;
      }
      if run.optouts.None? {
        return Errored(false);
      }
      var optouts := run.optouts.value;
      var qualifying := QueryQualifying(host, responses, link.form.value, optouts, link.grantAny, conditions, None);
      AscendingSize(qualifying);
      assert Elems(qualifying) == Desired(State(), k, optouts);
      var current := Sorted(Members(mirror, k));
      AscendingUnique(current, qualifying);
      if current == qualifying {
        return Synced;
      }
      var outcome, list := UploadUsers(Members(remote, k), qualifying, run.first);
      if outcome.LimitReached? {
        var capped := QueryQualifying(host, responses, link.form.value, optouts, link.grantAny, conditions, Some(outcome.limit));
        AscendingSize(capped);
        assert Elems(capped) == Least(Desired(State(), k, optouts), outcome.limit);
        result := Push(k, capped, run.second);
        return;
      }
      result := Settle(k, qualifying, outcome, list);
    }

    /** Uploads a list that will not be cut any further, and settles the outcome. */
    method Push(k: Key, ids: seq<string>, wire: Wire) returns (result: SyncResult)
      requires Ascending(ids)
      modifies this`links, this`mirror, this`remote
      ensures (State(), result)
        == AfterUpload(old(State()), k, Elems(ids), Deliver(Members(old(remote), k), |ids|, Elems(ids), wire).0)
    {
      var outcome, list := UploadUsers(Members(remote, k), ids, wire);
      result := Settle(k, ids, outcome, list);
    }

    /** Records the list RoleLogic is left with, and turns the outcome into local state: the
        mirror is rewritten only after RoleLogic took the list. */
    method Settle(k: Key, ids: seq<string>, outcome: Outcome, list: set<string>) returns (result: SyncResult)
      requires list == if outcome.Done? then Elems(ids) else Members(remote, k)
      modifies this`links, this`mirror, this`remote
      ensures (State(), result) == AfterUpload(old(State()), k, Elems(ids), outcome)
    {
      RewriteSame(remote, k);
      remote := Rewrite(remote, k, list);
      match outcome {
        case Done =>
          mirror := set a | a in mirror && a.key != k;
          if ids != [] {
            mirror := mirror + RowsFor(k, Elems(ids));
          }
          assert mirror == Rewrite(old(mirror), k, Elems(ids));
          return Synced;
        case LinkNotFound => DeleteOrphan(k); return Synced;
        case LinkDisabled => return Synced;
        case RemovalHeld => return Recheck;
        case LimitReached(_) => return Errored(true);
        case Failed => return Errored(false);
      }
    }

    method TakeOff(k: Key, u: string, reply: Reply)
      modifies this`links, this`mirror, this`remote
      ensures var (gone, off) := (if reply.Gone? then {k} else {}, if RemoveOutcome(reply).Done? then {k} else {});
        && links == old(links) - gone
        && mirror == (set a | a in old(mirror) && a.key !in gone)
        && remote == Apply(old(remote), u, {}, off, gone)
    {
      match RemoveOutcome(reply) {
        case Done => remote := remote - {Assignment(k, u)};
        case LinkNotFound => DeleteOrphan(k);
        case _ =>
      }
    }

    method RemoveAllAssignments(u: string, reply: Key -> Reply)
      modifies this`links, this`mirror, this`remote
      ensures State() == UnlinkStep(old(State()), u, reply)
    {
      ghost var w := State();
      ghost var keys := AssignedKeys(w, u);
      var todo := set a | a in mirror && a.user == u && a.key in links :: a.key;
      ghost var done: set<Key> := {};
      while todo != {}
        invariant todo + done == keys && todo !! done
        invariant links == w.links - Dropped(done, reply)
        invariant mirror == set a | a in w.mirror && a.key !in Dropped(done, reply)
        invariant remote == Apply(w.remote, u, {}, TakenOff(done, reply), Dropped(done, reply))
      {
        var k :| k in todo;
        TakeOff(k, u, reply(k));
        OneMoreDropped(done, k, reply);
        todo := todo - {k};
        done := done + {k};
      }
      mirror := set a | a in mirror && a.user != u;
    }
  }

  lemma OneMoreDropped(done: set<Key>, k: Key, reply: Key -> Reply)
    ensures Dropped(done + {k}, reply) == Dropped(done, reply) + if reply(k).Gone? then {k} else {}
    ensures TakenOff(done + {k}, reply) == TakenOff(done, reply) + if RemoveOutcome(reply(k)).Done? then {k} else {}
  {
  }

  function Dropped(keys: set<Key>, reply: Key -> Reply): set<Key> {
    set k | k in keys && reply(k).Gone?
  }

  function TakenOff(keys: set<Key>, reply: Key -> Reply): set<Key> {
    set k | k in keys && RemoveOutcome(reply(k)).Done?
  }
}
