// The tables and remote lists the sync engine keeps in step, and what one run of each sync
// job in src/services/sync.rs does to them, as functions from world to world.
module SyncModel {
  import opened Wrappers
  import opened Json
  import opened Order
  import opened Conditions
  import opened Upload

  datatype Key = Key(guild: string, role: string)

  /** `role_links`, with `conditions` as the stored JSON array. */
  datatype Link = Link(form: Option<string>, grantAny: bool, rows: seq<Value>)

  /** The columns of `form_responses` the sync engine reads. */
  datatype Response = Response(form: string, guild: string, user: string, answers: Value, score: Option<int>)

  /** A row of `role_assignments`, and equally a user on a RoleLogic list. */
  datatype Assignment = Assignment(key: Key, user: string)

  /** `home` records the guild of every form ever created; ids are never reused and a form
      never changes guild. */
  datatype World = World(
    host: Host,
    home: map<string, string>,
    links: map<Key, Link>,
    responses: seq<Response>,
    mirror: set<Assignment>,
    remote: set<Assignment>)

  predicate FormBound(w: World, k: Key) {
    k in w.links && w.links[k].form.Some?
  }

  /** The users a set of rows holds for one link. */
  function Members(rows: set<Assignment>, k: Key): set<string> {
    set a | a in rows && a.key == k :: a.user
  }

  function RowsFor(k: Key, users: set<string>): set<Assignment> {
    set u | u in users :: Assignment(k, u)
  }

  /** Replaces the rows of one link. */
  function Rewrite(rows: set<Assignment>, k: Key, users: set<string>): set<Assignment> {
    (set a | a in rows && a.key != k) + RowsFor(k, users)
  }

  lemma InMembers(rows: set<Assignment>, k: Key, u: string)
    ensures u in Members(rows, k) <==> Assignment(k, u) in rows
  {
  }

  lemma RewriteSame(rows: set<Assignment>, k: Key)
    ensures Rewrite(rows, k, Members(rows, k)) == rows
  {
  }

  // -------------------------------------------------------------------------
  // Who qualifies
  // -------------------------------------------------------------------------

  predicate Meets(w: World, link: Link, r: Response) {
    Evaluate(w.host, link.grantAny, ParseRows(link.rows), r.answers, r.score)
  }

  /** Some response of the user to the link's form meets the link's conditions. */
  predicate Answered(w: World, link: Link, u: string)
    requires link.form.Some?
  {
    exists r | r in w.responses :: r.form == link.form.value && r.user == u && Meets(w, link, r)
  }

  /** The set the bulk sync pushes. */
  function Desired(w: World, k: Key, optouts: set<string>): set<string>
    requires FormBound(w, k)
  {
    set r | r in w.responses
      && r.form == w.links[k].form.value && r.user != "" && r.user !in optouts && Meets(w, w.links[k], r)
      :: r.user
  }

  // -------------------------------------------------------------------------
  // Per-player sync
  // -------------------------------------------------------------------------

  /** What one player job meets: the gateway's guild list, the opt-out lookup of each guild
      (`None`: it failed) and RoleLogic's reply for each link. */
  datatype PlayerRun = PlayerRun(
    gateway: Option<set<string>>,
    optouts: string -> Option<set<string>>,
    reply: Key -> Reply)

  function ResponseGuilds(w: World, u: string): set<string> {
    set r | r in w.responses && r.user == u :: r.guild
  }

  function AssignedGuilds(w: World, u: string): set<string> {
    set a | a in w.mirror && a.user == u :: a.key.guild
  }

  /** Form-bound links in the union of the gateway's, the responses' and the assignments' guilds. */
  function Scope(w: World, u: string, gateway: set<string>): set<Key> {
    var guilds := gateway + ResponseGuilds(w, u) + AssignedGuilds(w, u);
    set k | k in w.links && w.links[k].form.Some? && k.guild in guilds
  }

  datatype Verdict = Leave | Add | Remove

  function Judge(w: World, u: string, run: PlayerRun, k: Key): Verdict
    requires FormBound(w, k)
  {
    match run.optouts(k.guild)
    case None => Leave
    case Some(optouts) =>
      var qualifies := u !in optouts && Answered(w, w.links[k], u);
      var listed := Assignment(k, u) in w.mirror;
      if qualifies && !listed then Add else if !qualifies && listed then Remove else Leave
  }

  function Judged(w: World, u: string, run: PlayerRun, v: Verdict): set<Key> {
    if run.gateway.None? then {}
    else set k | k in Scope(w, u, run.gateway.value) && Judge(w, u, run, k) == v
  }

  /** POST of one user: refused when the list is full, unless the user is on it already. */
  function AddOutcome(list: set<string>, u: string, reply: Reply): Outcome {
    match reply
    case Gone => LinkNotFound
    case Inactive => LinkDisabled
    case Accepted(cap) => if u !in list && Exceeds(|list| + 1, cap) then LimitReached(cap.value) else Done
    case _ => Failed
  }

  /** DELETE of one user. */
  function RemoveOutcome(reply: Reply): Outcome {
    match reply
    case Gone => LinkNotFound
    case Inactive => LinkDisabled
    case Accepted(_) => Done
    case _ => Failed
  }

  function Added(w: World, u: string, run: PlayerRun): set<Key> {
    set k | k in Judged(w, u, run, Add) && AddOutcome(Members(w.remote, k), u, run.reply(k)).Done?
  }

  function Removed(w: World, u: string, run: PlayerRun): set<Key> {
    set k | k in Judged(w, u, run, Remove) && RemoveOutcome(run.reply(k)).Done?
  }

  function Orphaned(w: World, u: string, run: PlayerRun): set<Key> {
    set k | k in Judged(w, u, run, Add) + Judged(w, u, run, Remove) && run.reply(k).Gone?
  }

  /** Rows after one user was added to some lists, taken off others, and some links dropped. */
  function Apply(rows: set<Assignment>, u: string, added: set<Key>, removed: set<Key>, dropped: set<Key>): set<Assignment> {
    set a | a in rows + (set k | k in added :: Assignment(k, u))
      && a.key !in dropped && !(a.user == u && a.key in removed)
  }

  datatype SyncResult = Synced | Recheck | Errored(terminal: bool)

  function PlayerStep(w: World, u: string, run: PlayerRun): World {
    var (added, removed, dropped) := (Added(w, u, run), Removed(w, u, run), Orphaned(w, u, run));
    w.(links := w.links - dropped,
       mirror := Apply(w.mirror, u, added, removed, dropped),
       remote := Apply(w.remote, u, added, removed, dropped))
  }

  /** A job reports an error exactly when the gateway lookup failed or some opt-out lookup it
      needed did. */
  function PlayerResult(w: World, u: string, run: PlayerRun): SyncResult {
    if run.gateway.None? then Errored(false)
    else if exists k | k in Scope(w, u, run.gateway.value) :: run.optouts(k.guild).None? then Errored(false)
    else Synced
  }

  // -------------------------------------------------------------------------
  // Per-role-link (bulk) sync
  // -------------------------------------------------------------------------

  datatype BulkRun = BulkRun(optouts: Option<set<string>>, first: Wire, second: Wire)

  function Drop(w: World, k: Key): World {
    w.(links := w.links - {k},
       mirror := Rewrite(w.mirror, k, {}),
       remote := Rewrite(w.remote, k, {}))
  }

  function Assign(w: World, k: Key, users: set<string>): World {
    w.(mirror := Rewrite(w.mirror, k, users), remote := Rewrite(w.remote, k, users))
  }

  /** What follows one upload of `users` that was not refused for size. */
  function AfterUpload(w: World, k: Key, users: set<string>, outcome: Outcome): (World, SyncResult) {
    match outcome
    case Done => (Assign(w, k, users), Synced)
    case LinkNotFound => (Drop(w, k), Synced)
    case LinkDisabled => (w, Synced)
    case RemovalHeld => (w, Recheck)
    case LimitReached(_) => (w, Errored(true))
    case Failed => (w, Errored(false))
  }

  function BulkStep(w: World, k: Key, run: BulkRun): (World, SyncResult) {
    if !FormBound(w, k) then (w, Synced)
    else
      var link := w.links[k];
      var before := Members(w.remote, k);
      if !link.grantAny && ParseRows(link.rows) == [] then
        AfterUpload(w, k, {}, Deliver(before, 0, {}, run.first).0)
      else if run.optouts.None? then (w, Errored(false))
      else
        var all := Desired(w, k, run.optouts.value);
        if Members(w.mirror, k) == all then (w, Synced)
        else
          var outcome := Deliver(before, |all|, all, run.first).0;
          if outcome.LimitReached? then
            var capped := Least(all, outcome.limit);
            AfterUpload(w, k, capped, Deliver(before, |capped|, capped, run.second).0)
          else AfterUpload(w, k, all, outcome)
  }

  // -------------------------------------------------------------------------
  // Account unlink
  // -------------------------------------------------------------------------

  function AssignedKeys(w: World, u: string): set<Key> {
    set a | a in w.mirror && a.user == u && a.key in w.links :: a.key
  }

  /** The mirror loses every row of the user, whatever RoleLogic answered. */
  function UnlinkStep(w: World, u: string, reply: Key -> Reply): World {
    var keys := AssignedKeys(w, u);
    var removed := set k | k in keys && RemoveOutcome(reply(k)).Done?;
    var dropped := set k | k in keys && reply(k).Gone?;
    w.(links := w.links - dropped,
       mirror := (set a | a in w.mirror && a.key !in dropped && a.user != u),
       remote := Apply(w.remote, u, {}, removed, dropped))
  }

  // -------------------------------------------------------------------------
  // Invariants
  // -------------------------------------------------------------------------

  /** The foreign key of `role_assignments`, the guild checks of the role-config page and of
      the submit handler, and signed-in respondents. */
  ghost predicate WellFormed(w: World) {
    && (forall a | a in w.mirror :: a.key in w.links)
    && (forall k | k in w.links :: w.links[k].form.Some? ==>
          w.links[k].form.value in w.home && w.home[w.links[k].form.value] == k.guild)
    && (forall r | r in w.responses :: r.form in w.home && w.home[r.form] == r.guild && r.user != "")
  }

  /** The local table lists exactly RoleLogic's members of every registered link. */
  ghost predicate MirrorTracks(w: World) {
    forall a: Assignment | a.key in w.links :: a in w.mirror <==> a in w.remote
  }
}
