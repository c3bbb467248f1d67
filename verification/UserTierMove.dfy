/** _move_to_user_tier of migration 055 as a function on table contents, and what a workspace runs
    before and after it. */
module UserTierMove {
  import opened Options
  import opened UserTierModel
  import F = ForkPlanner
  import V = VaultPlanner
  import S = SnapshotPlanner
  import opened VaultMeaning

  const BROKERAGES: set<string> := {"robinhood", "ibkr", "webull", "moomoo"}

  /** One row of workspace_mcp_servers: a local definition, a user-server switch or a built-in marker. */
  datatype Row = Local(fork: Fork) | UserMark(enabled: bool) | BuiltinMark(enabled: bool)

  datatype Server = Server(columns: Columns, enabled: bool, inNewWorkspaces: bool)

  /** The tables 055 reads and writes, each keyed by its unique key. */
  datatype Tables = Tables(
    workspaces: map<Id, Workspace>,
    rows: map<(Id, string), Row>,
    servers: map<(User, string), Server>,
    oauth: set<(User, string)>,
    vault: Vault,
    localVault: map<(Id, string), Secret>,
    snapshots: S.Cache,
    pluginRefs: map<User, set<string>>)

  /** The operator's configuration: each built-in and whether it ran, and account-wide disables. */
  datatype Operator = Operator(builtins: map<string, bool>, disables: set<string>) {
    function Ran(): set<string> { set n | n in builtins && builtins[n] }
    function Skipped(): set<string> { Ran() + BROKERAGES }
  }

  function Reserved(t: Tables, op: Operator): set<string> {
    op.builtins.Keys + BROKERAGES + (set k | k in t.rows && t.rows[k].BuiltinMark? :: k.1) + op.disables
  }

  ghost predicate ValidTables(t: Tables) {
    && (forall k :: k in t.rows ==>
        k.0 in t.workspaces && (t.rows[k].Local? ==> t.rows[k].fork.workspace == k.0 && t.rows[k].fork.name == k.1))
    && (forall k :: k in t.localVault ==>
        k.0 in t.workspaces && t.localVault[k].workspace == k.0 && t.localVault[k].name == k.1)
  }

  // ----- what the migration reads -----

  function Owners(keys: set<(User, string)>): set<User> { set k | k in keys :: k.0 }

  function Grouped(keys: set<(User, string)>): map<User, set<string>> {
    map u | u in Owners(keys) :: set k | k in keys && k.0 == u :: k.1
  }

  lemma {:induction false} GroupedNames(keys: set<(User, string)>, u: User, n: string)
    ensures n in NamesFor(Grouped(keys), u) <==> (u, n) in keys
  {
    if (u, n) in keys { assert u in Owners(keys); }
  }

  function Markers(t: Tables): map<Id, set<string>> {
    map w | w in t.workspaces :: set k | k in t.rows && k.0 == w && !t.rows[k].Local? :: k.1
  }

  lemma {:induction false} MarkerNames(t: Tables, w: Id, n: string)
    requires w in t.workspaces
    ensures n in NamesFor(Markers(t), w) <==> (w, n) in t.rows && !t.rows[(w, n)].Local?
  {
  }

  function ForkInputOf(t: Tables, op: Operator): F.ForkInput {
    F.ForkInput(t.workspaces, Grouped(t.servers.Keys), Grouped(t.oauth), Markers(t), Reserved(t, op), op.Skipped())
  }

  /** Names every catalog row and plugin of an account asks for. */
  function AccountRefs(t: Tables, u: User): set<string> {
    NamesFor(t.pluginRefs, u) + set k, n | k in t.servers && k.0 == u && n in V.ColumnRefs(t.servers[k].columns) :: n
  }

  function VaultInputOf(t: Tables, digests: map<(User, string), Option<Digest>>): V.VaultInput {
    V.VaultInput(t.workspaces, digests, map u | u in Owners(t.servers.Keys) + t.pluginRefs.Keys :: AccountRefs(t, u))
  }

  /** forks is the SELECT over the local rows, in any order. */
  ghost predicate ListsForks(t: Tables, forks: seq<Fork>) {
    && NoDuplicates(forks)
    && (forall f :: f in forks ==> (f.workspace, f.name) in t.rows && t.rows[(f.workspace, f.name)] == Local(f))
    && (forall k :: k in t.rows && t.rows[k].Local? ==> t.rows[k].fork in forks)
  }

  ghost predicate ListsSecrets(t: Tables, secrets: seq<Secret>) {
    && NoDuplicates(secrets)
    && (forall s :: s in secrets ==> (s.workspace, s.name) in t.localVault && t.localVault[(s.workspace, s.name)] == s)
    && (forall k :: k in t.localVault ==> t.localVault[k] in secrets)
  }

  /** Equal digests mean equal values, across both tiers; a missing digest says nothing. */
  ghost predicate SoundReading(t: Tables, digests: map<(User, string), Option<Digest>>, secrets: seq<Secret>) {
    && digests.Keys == t.vault.Keys
    && (forall k, s :: k in t.vault && s in secrets && s.digest.Some? && digests[k] == s.digest ==>
        t.vault[k] == s.value)
    && (forall a, b :: a in secrets && b in secrets && a.digest.Some? && a.digest == b.digest ==> a.value == b.value)
  }

  // ----- what the migration writes -----

  function RowOf(p: Promotion): Server { Server(p.columns, p.enabled, false) }

  /** INSERT of every promotion; None when one meets a row already there. */
  function Inserted(servers: map<(User, string), Server>, ps: seq<Promotion>): Option<map<(User, string), Server>> {
    if ps == [] then Some(servers)
    else
      var p := ps[|ps| - 1];
      match Inserted(servers, ps[..|ps| - 1])
      case None => None
      case Some(m) => if (p.user, p.name) in m then None else Some(m[(p.user, p.name) := RowOf(p)])
  }

  function WithoutLocal(rows: map<(Id, string), Row>): map<(Id, string), Row> {
    map k | k in rows && !rows[k].Local? :: rows[k]
  }

  /** INSERT ... ON CONFLICT: a user row already there is switched off, a built-in marker stands. */
  function Upserted(existing: Option<Row>): Row {
    match existing
    case None => UserMark(false)
    case Some(r) => if r.UserMark? then UserMark(false) else r
  }

  function SwitchedOff(rows: map<(Id, string), Row>, tombstones: set<(Id, string)>): map<(Id, string), Row> {
    map k | k in rows.Keys + tombstones ::
      if k in tombstones then Upserted(if k in rows then Some(rows[k]) else None) else rows[k]
  }

  /** The cached snapshots after the deletes and the renames, in that order. */
  function Restamped(cache: S.Cache, ps: seq<Promotion>, dropped: seq<Fork>): Option<S.Cache> {
    var rs := S.Renames(ps);
    S.RenameEach(S.Deleted(cache, S.Deletes(ps, dropped) + set r | r in rs :: (r.workspace, r.target)), rs)
  }

  /** INSERT of every copied secret; None when one meets a name already there. */
  function Copied(v: Vault, copies: seq<V.Copy>): Option<Vault> {
    if copies == [] then Some(v)
    else
      var c := copies[|copies| - 1];
      match Copied(v, copies[..|copies| - 1])
      case None => None
      case Some(m) => if (c.user, c.name) in m then None else Some(m[(c.user, c.name) := c.secret.value])
  }

  datatype Plan = Plan(forks: F.ForkPlan, vault: V.VaultPlan)

  function Planned(t: Tables, op: Operator, digests: map<(User, string), Option<Digest>>, forks: seq<Fork>,
      secrets: seq<Secret>): Option<Plan> {
    match F.PlannedForks(ForkInputOf(t, op), forks)
    case None => None
    case Some(fp) =>
      match V.PlannedVault(VaultInputOf(t, digests), secrets, fp.promotions)
      case None => None
      case Some(vp) => Some(Plan(fp, vp))
  }

  function Applied(t: Tables, plan: Plan): Option<Tables> {
    var servers := Inserted(t.servers, plan.vault.promotions);
    var snapshots := Restamped(t.snapshots, plan.vault.promotions, plan.forks.dropped);
    var vault := Copied(t.vault, plan.vault.copies);
    if servers.None? || snapshots.None? || vault.None? then None
    else Some(t.(
      servers := servers.value,
      rows := SwitchedOff(WithoutLocal(t.rows), plan.forks.tombstones),
      snapshots := snapshots.value,
      vault := vault.value,
      localVault := map[]))
  }

  // ----- what a workspace runs -----

  datatype Definition = OfWorkspace(workspace: Id, name: string) | OfAccount(user: User, name: string)

  /** The previous resolver: a local row ran unless switched off or under a skipped name. */
  predicate LocalRan(t: Tables, op: Operator, k: (Id, string)) {
    k in t.rows && t.rows[k].Local? && t.rows[k].fork.enabled && k.1 !in op.Skipped()
  }

  predicate Tombstoned(rows: map<(Id, string), Row>, k: (Id, string)) { k in rows && rows[k] == UserMark(false) }

  predicate Shadowed(t: Tables, op: Operator, k: (Id, string)) {
    k in t.rows && t.rows[k].Local? && k.1 !in op.Skipped()
  }

  /** The previous resolver: an enabled account server ran unless a running built-in holds its name,
      the workspace tombstoned it, or a local row, on or off, shadowed it. */
  predicate AccountRan(t: Tables, op: Operator, w: Id, k: (User, string)) {
    && k in t.servers && t.servers[k].enabled && k.1 !in op.Ran()
    && !Tombstoned(t.rows, (w, k.1)) && !Shadowed(t, op, (w, k.1))
  }

  /** The current resolver knows account servers and tombstones only. */
  predicate Runs(t: Tables, op: Operator, w: Id, k: (User, string)) {
    k in t.servers && t.servers[k].enabled && k.1 !in op.Ran() && !Tombstoned(t.rows, (w, k.1))
  }

  function LocalView(t: Tables, w: Id): map<string, Value> {
    map k | k in t.localVault && k.0 == w :: k.1 := t.localVault[k].value
  }

  /** What ran in w before, each definition with its references resolved: local ones against the
      workspace's merged set, where its own value wins, account ones against the account alone. */
  function RanBefore(t: Tables, op: Operator, w: Id): set<(Definition, Meaning)>
    requires w in t.workspaces
  {
    var u := t.workspaces[w].user;
    (set k | k in t.rows && k.0 == w && LocalRan(t, op, k) ::
       (OfWorkspace(w, k.1), MeaningOf(t.rows[k].fork.columns, AccountView(t.vault, u) + LocalView(t, w))))
    + set k | k in t.servers && k.0 == u && AccountRan(t, op, w, k) ::
        (OfAccount(u, k.1), MeaningOf(t.servers[k].columns, AccountView(t.vault, u)))
  }

  /** Where an account server came from: a promotion, or the account itself. */
  function Origin(ps: seq<Promotion>, k: (User, string)): Definition {
    if ps == [] then OfAccount(k.0, k.1)
    else
      var p := ps[|ps| - 1];
      if (p.user, p.name) == k then OfWorkspace(p.workspace, p.sourceName) else Origin(ps[..|ps| - 1], k)
  }

  function RunsAfter(t: Tables, op: Operator, ps: seq<Promotion>, w: Id): set<(Definition, Meaning)>
    requires w in t.workspaces
  {
    var u := t.workspaces[w].user;
    set k | k in t.servers && k.0 == u && Runs(t, op, w, k) ::
      (Origin(ps, k), MeaningOf(t.servers[k].columns, AccountView(t.vault, u)))
  }
}
