/** What the move of migration 055 leaves in each table: nothing local, one account row for every local
    server of a live workspace, no snapshot that has gone stale. */
module UserTierAfter {
  import opened Options
  import opened UserTierModel
  import F = ForkPlanner
  import V = VaultPlanner
  import S = SnapshotPlanner
  import opened VaultMeaning
  import opened UserTierMove
  import opened UserTierPreservation
  import opened UserTierTheorem

  /** The account row of local server k: new, resolving as the server did, switched on exactly if it ran,
      and off in workspaces to come. */
  ghost predicate CarriedBy(t: Tables, op: Operator, t': Tables, k: (Id, string), n: string)
    requires k in t.rows && t.rows[k].Local? && k.0 in t.workspaces
  {
    var u := t.workspaces[k.0].user;
    && (u, n) !in t.servers && (u, n) in t'.servers
    && (t'.servers[(u, n)].enabled <==> LocalRan(t, op, k)) && !t'.servers[(u, n)].inNewWorkspaces
    && MeaningOf(t'.servers[(u, n)].columns, AccountView(t'.vault, u))
       == MeaningOf(t.rows[k].fork.columns, AccountView(t.vault, u) + LocalView(t, k.0))
  }

  ghost predicate CarriesOne(t: Tables, op: Operator, t': Tables, u: User, n: string) {
    exists k :: k in t.rows && t.rows[k].Local? && k.0 in t.workspaces && t.workspaces[k.0].Live()
                && t.workspaces[k.0].user == u && CarriedBy(t, op, t', k, n)
  }

  ghost predicate BroughtBy(t: Tables, u: User, value: Value) {
    exists k :: k in t.localVault && k.0 in t.workspaces && t.workspaces[k.0].Live() && t.workspaces[k.0].user == u
                && t.localVault[k].value == value
  }

  ghost predicate EveryServerCarried(t: Tables, op: Operator, t': Tables) {
    forall k :: k in t.rows && t.rows[k].Local? && k.0 in t.workspaces && t.workspaces[k.0].Live() ==>
      exists n :: CarriedBy(t, op, t', k, n)
  }

  ghost predicate OnlyServersNew(t: Tables, op: Operator, t': Tables) {
    forall k :: k in t'.servers && k !in t.servers ==> CarriesOne(t, op, t', k.0, k.1)
  }

  ghost predicate OnlyOwnSecretsNew(t: Tables, t': Tables) {
    forall k :: k in t'.vault && k !in t.vault ==> BroughtBy(t, k.0, t'.vault[k])
  }

  ghost predicate TheRestStands(t: Tables, t': Tables) {
    && (forall k :: k in t.servers ==> k in t'.servers && t'.servers[k] == t.servers[k])
    && (forall k :: k in t.vault ==> k in t'.vault && t'.vault[k] == t.vault[k])
    && (forall k :: k in t.rows && t.rows[k].BuiltinMark? ==> k in t'.rows && t'.rows[k] == t.rows[k])
    && (forall k :: k in t'.rows ==> !t'.rows[k].Local?) && t'.localVault == map[]
    && t'.workspaces == t.workspaces && t'.oauth == t.oauth && t'.pluginRefs == t.pluginRefs
  }

  /** Every local server of a live workspace, on or off, has its account row, and no other row is new;
      each new value is a secret of a live workspace of that account; every account row, value and marker
      there was stands; nothing local is left. */
  ghost predicate AllMoved(t: Tables, op: Operator, t': Tables) {
    EveryServerCarried(t, op, t') && OnlyServersNew(t, op, t') && OnlyOwnSecretsNew(t, t') && TheRestStands(t, t')
  }

  lemma {:induction false} RowsAfter(rows: map<(Id, string), Row>, tombstones: set<(Id, string)>)
    ensures var rows' := SwitchedOff(WithoutLocal(rows), tombstones);
            && (forall k :: k in rows' ==> !rows'[k].Local?)
            && (forall k :: k in rows && rows[k].BuiltinMark? ==> k in rows' && rows'[k] == rows[k])
  {
  }

  lemma {:induction false} AccountRowsStand(t: Tables, op: Operator, live: seq<Fork>, ps: seq<Promotion>, plan: Plan)
    requires NamedFromTables(t, op, live, ps) && SameServers(ps, plan.vault.promotions)
        && F.NamesUnique(plan.vault.promotions)
    requires Applied(t, plan).Some?
    ensures forall k :: k in t.servers ==>
        k in Applied(t, plan).value.servers && Applied(t, plan).value.servers[k] == t.servers[k]
  {
    var qs := plan.vault.promotions;
    forall j | 0 <= j < |qs| ensures (qs[j].user, qs[j].name) !in t.servers {
      PromotedNameIsClear(t, op, live, ps, j);
    }
    InsertsLand(t.servers, qs);
  }

  lemma {:induction false} ServerCarried(t: Tables, op: Operator, digests: Digests, forks: seq<Fork>,
      secrets: seq<Secret>, live: seq<Fork>, ps: seq<Promotion>, st: V.VaultState, plan: Plan, k: (Id, string))
      returns (n: string)
    requires Readable(t, digests, forks, secrets) && PlanOf(t, op, digests, forks, secrets, live, ps, st, plan)
    requires Applied(t, plan).Some?
    requires k in t.rows && t.rows[k].Local? && k.0 in t.workspaces && t.workspaces[k.0].Live()
    ensures CarriedBy(t, op, Applied(t, plan).value, k, n)
  {
    var i :| 0 <= i < |live| && t.rows[k] == Local(live[i]);
    PromotedNameIsClear(t, op, live, ps, i);
    PromotedServerKept(t, op, digests, forks, secrets, live, ps, st, plan, i, k.0);
    hide PlanOf, Planned, Applied, NamedFromTables, MeaningOf, AccountView, LocalView, Origin, Runs, Reserved;
    n := ps[i].name;
  }

  lemma {:induction false} VaultStands(t: Tables, op: Operator, digests: Digests, forks: seq<Fork>,
      secrets: seq<Secret>, live: seq<Fork>, ps: seq<Promotion>, st: V.VaultState, plan: Plan)
    requires Readable(t, digests, forks, secrets) && PlanOf(t, op, digests, forks, secrets, live, ps, st, plan)
    requires Applied(t, plan).Some?
    ensures forall k :: k in t.vault ==>
        k in Applied(t, plan).value.vault && Applied(t, plan).value.vault[k] == t.vault[k]
  {
    hide NamedFromTables, V.Merged, V.RepointAll, SameServers, F.NamesUnique, Planned, Inserted, Restamped, SwitchedOff;
    VaultLands(t, op, digests, forks, secrets, live, ps, st, plan);
    LiveSecretKeys(t, digests, secrets);
    var rows := LiveSecretsOf(t, digests, secrets);
    AccountKept(VaultInputOf(t, digests), rows, ps, t.vault);
  }

  lemma {:induction false} AppliedParts(t: Tables, plan: Plan)
    requires Applied(t, plan).Some?
    ensures var t' := Applied(t, plan).value;
            && t'.rows == SwitchedOff(WithoutLocal(t.rows), plan.forks.tombstones) && t'.localVault == map[]
            && t'.workspaces == t.workspaces && t'.oauth == t.oauth && t'.pluginRefs == t.pluginRefs
  {
  }

  lemma {:induction false} OtherRowsStand(t: Tables, op: Operator, digests: Digests, forks: seq<Fork>,
      secrets: seq<Secret>, live: seq<Fork>, ps: seq<Promotion>, st: V.VaultState, plan: Plan)
    requires Readable(t, digests, forks, secrets) && PlanOf(t, op, digests, forks, secrets, live, ps, st, plan)
    requires Applied(t, plan).Some?
    ensures TheRestStands(t, Applied(t, plan).value)
  {
    hide Readable, Planned, Applied, SwitchedOff, WithoutLocal, NamedFromTables, F.NamesUnique, SameServers;
    hide V.Merged, V.RepointAll, LiveOf, LiveSecretsOf, F.PlannedForks, F.Tombstones;
    AppliedParts(t, plan);
    AccountRowsStand(t, op, live, ps, plan);
    VaultStands(t, op, digests, forks, secrets, live, ps, st, plan);
    RowsAfter(t.rows, plan.forks.tombstones);
  }

  lemma {:induction false} ServersCarried(t: Tables, op: Operator, digests: Digests, forks: seq<Fork>,
      secrets: seq<Secret>, live: seq<Fork>, ps: seq<Promotion>, st: V.VaultState, plan: Plan)
    requires Readable(t, digests, forks, secrets) && PlanOf(t, op, digests, forks, secrets, live, ps, st, plan)
    requires Applied(t, plan).Some?
    ensures EveryServerCarried(t, op, Applied(t, plan).value)
  {
    hide Readable, PlanOf, CarriedBy, Applied;
    forall k | k in t.rows && t.rows[k].Local? && k.0 in t.workspaces && t.workspaces[k.0].Live()
      ensures exists n :: CarriedBy(t, op, Applied(t, plan).value, k, n) {
      var n := ServerCarried(t, op, digests, forks, secrets, live, ps, st, plan, k);
    }
  }

  lemma {:induction false} CarriedAt(t: Tables, op: Operator, digests: Digests, forks: seq<Fork>,
      secrets: seq<Secret>, live: seq<Fork>, ps: seq<Promotion>, st: V.VaultState, plan: Plan, i: nat)
    requires Readable(t, digests, forks, secrets) && PlanOf(t, op, digests, forks, secrets, live, ps, st, plan)
    requires Applied(t, plan).Some? && i < |ps|
    ensures CarriesOne(t, op, Applied(t, plan).value, ps[i].user, ps[i].name)
  {
    hide Planned, Applied, MeaningOf, AccountView, LocalView, Origin, Runs, Reserved, V.Merged, V.RepointAll, Readable;
    PromotedNameIsClear(t, op, live, ps, i);
    PromotedServerKept(t, op, digests, forks, secrets, live, ps, st, plan, i, ps[i].workspace);
    hide PlanOf, NamedFromTables;
    assert CarriedBy(t, op, Applied(t, plan).value, (ps[i].workspace, ps[i].sourceName), ps[i].name);
  }

  lemma {:induction false} NewRowsCarry(t: Tables, op: Operator, digests: Digests, forks: seq<Fork>,
      secrets: seq<Secret>, live: seq<Fork>, ps: seq<Promotion>, st: V.VaultState, plan: Plan)
    requires Readable(t, digests, forks, secrets) && PlanOf(t, op, digests, forks, secrets, live, ps, st, plan)
    requires Applied(t, plan).Some?
    ensures OnlyServersNew(t, op, Applied(t, plan).value)
  {
    hide Readable, Planned, Applied, CarriesOne, NamedFromTables, SameServers, F.NamesUnique, V.Merged, V.RepointAll;
    ServersAfter(t, op, live, ps, plan);
    hide PlanOf;
    forall k | k in Applied(t, plan).value.servers && k !in t.servers
      ensures CarriesOne(t, op, Applied(t, plan).value, k.0, k.1) {
      var i :| 0 <= i < |ps| && (ps[i].user, ps[i].name) == k;
      CarriedAt(t, op, digests, forks, secrets, live, ps, st, plan, i);
    }
  }

  /** A copy is of the secret it names, for that secret's own user. */
  lemma {:induction false} CopiesAreSecrets(inp: V.VaultInput, live: seq<Secret>, ps: seq<Promotion>, n: nat)
    requires V.AllKnown(inp, live) && n <= |live| && V.Merged(inp, live, ps, n).Some?
    ensures forall c :: c in V.Merged(inp, live, ps, n).value.copies ==>
              c.secret in live && inp.Knows(c.secret) && c.user == inp.UserOf(c.secret)
  {
    hide V.SecretNameFor, V.SearchFor;
    if n == 0 {
    } else {
      CopiesAreSecrets(inp, live, ps, n - 1);
      var st, name := LastMerged(inp, live, ps, n);
      hide V.Merged;
    }
  }

  lemma {:induction false} LandedFrom(v: Vault, copies: seq<V.Copy>)
    ensures forall k :: k in Landed(v, copies) && k !in v ==>
              exists c :: c in copies && (c.user, c.name) == k && Landed(v, copies)[k] == c.secret.value
    decreases |copies|
  {
    if copies == [] {
    } else {
      var init, c := copies[..|copies| - 1], copies[|copies| - 1];
      LandedFrom(v, init);
      assert forall d :: d in init ==> d in copies;
      assert c in copies;
    }
  }

  lemma {:induction false} NewValuesBrought(t: Tables, op: Operator, digests: Digests, forks: seq<Fork>,
      secrets: seq<Secret>, live: seq<Fork>, ps: seq<Promotion>, st: V.VaultState, plan: Plan)
    requires Readable(t, digests, forks, secrets) && PlanOf(t, op, digests, forks, secrets, live, ps, st, plan)
    requires Applied(t, plan).Some?
    ensures OnlyOwnSecretsNew(t, Applied(t, plan).value)
  {
    hide NamedFromTables, V.Merged, V.RepointAll, SameServers, F.NamesUnique, Planned, Inserted, Restamped, SwitchedOff;
    hide Landed, LiveSecretsOf, NoDuplicates;
    VaultLands(t, op, digests, forks, secrets, live, ps, st, plan);
    LiveSecretRows(t, digests, secrets);
    var inp, rows := VaultInputOf(t, digests), LiveSecretsOf(t, digests, secrets);
    CopiesAreSecrets(inp, rows, ps, |rows|);
    LandedFrom(t.vault, st.copies);
    forall k | k in Landed(t.vault, st.copies) && k !in t.vault
      ensures BroughtBy(t, k.0, Landed(t.vault, st.copies)[k]) {
      var c :| c in st.copies && (c.user, c.name) == k && Landed(t.vault, st.copies)[k] == c.secret.value;
      var j := (c.secret.workspace, c.secret.name);
      assert c.secret in rows;
      assert j in t.localVault && t.localVault[j] == c.secret;
    }
  }

  /** The whole move, table by table. */
  lemma {:induction false} EverythingMoves(t: Tables, op: Operator, digests: Digests, forks: seq<Fork>,
      secrets: seq<Secret>)
    requires Readable(t, digests, forks, secrets) && Planned(t, op, digests, forks, secrets).Some?
    ensures var plan := Planned(t, op, digests, forks, secrets).value;
            Applied(t, plan).Some? && AllMoved(t, op, Applied(t, plan).value)
  {
    hide Readable, Planned, PlanOf, EveryServerCarried, OnlyServersNew, OnlyOwnSecretsNew, TheRestStands, Applied;
    PlanApplies(t, op, digests, forks, secrets);
    var live, ps, st, plan := OpenPlan(t, op, digests, forks, secrets);
    PlanOfIsPlanned(t, op, digests, forks, secrets, live, ps, st, plan);
    ServersCarried(t, op, digests, forks, secrets, live, ps, st, plan);
    NewRowsCarry(t, op, digests, forks, secrets, live, ps, st, plan);
    NewValuesBrought(t, op, digests, forks, secrets, live, ps, st, plan);
    OtherRowsStand(t, op, digests, forks, secrets, live, ps, st, plan);
  }

  // ----- the switches -----

  /** Switched off in w: a promoted name, but for the server's own workspace if it ran there; or the
      name of a local server that kept an account server, or a connection's, out of w. */
  ghost predicate SwitchedIn(t: Tables, op: Operator, ps: seq<Promotion>, w: Id, n: string) {
    && w in t.workspaces && t.workspaces[w].Live()
    && var u := t.workspaces[w].user;
       || (exists p :: p in ps && p.user == u && p.name == n
                       && (w != p.workspace || !LocalRan(t, op, (w, p.sourceName))))
       || (Shadowed(t, op, (w, n)) && ((u, n) in t.servers || (u, n) in t.oauth))
  }

  lemma {:induction false} SwitchesOfOne(t: Tables, op: Operator, live: seq<Fork>, ps: seq<Promotion>, i: nat,
      w: Id, n: string)
    requires NamedFromTables(t, op, live, ps) && i < |ps|
    ensures (w, n) in F.TombstonesOf(ForkInputOf(t, op), ps[i]) <==>
            && w in t.workspaces && t.workspaces[w].Live() && t.workspaces[w].user == ps[i].user
            && (|| (ps[i].name == n && (w != ps[i].workspace || !LocalRan(t, op, (w, ps[i].sourceName))))
                || (w == ps[i].workspace && n == ps[i].sourceName && n !in op.Skipped()
                    && ((ps[i].user, n) in t.servers || (ps[i].user, n) in t.oauth)))
  {
    PromotedNameIsClear(t, op, live, ps, i);
    HeldNames(t, op, ps[i].user, ps[i].sourceName);
    hide NamedFromTables, Reserved, Markers, Grouped;
  }

  /** The tombstones of a plan are exactly those. */
  lemma {:induction false} TombstonesExactly(t: Tables, op: Operator, live: seq<Fork>, ps: seq<Promotion>, w: Id,
      n: string)
    requires NamedFromTables(t, op, live, ps) && ValidTables(t)
    ensures (w, n) in F.Tombstones(ForkInputOf(t, op), ps) <==> SwitchedIn(t, op, ps, w, n)
  {
    hide NamedFromTables, F.TombstonesOf, F.Tombstones, ForkInputOf, LocalRan;
    forall i | 0 <= i < |ps|
      ensures (w, n) in F.TombstonesOf(ForkInputOf(t, op), ps[i]) ==> SwitchedIn(t, op, ps, w, n)
    {
      SwitchesOfOne(t, op, live, ps, i, w, n);
      PromotedNameIsClear(t, op, live, ps, i);
      assert ps[i] in ps;
    }
    if SwitchedIn(t, op, ps, w, n) {
      if p :| p in ps && p.user == t.workspaces[w].user && p.name == n
              && (w != p.workspace || !LocalRan(t, op, (w, p.sourceName))) {
        var i :| 0 <= i < |ps| && ps[i] == p;
        SwitchesOfOne(t, op, live, ps, i, w, n);
      } else {
        var i := ShadowingFork(t, op, live, ps, w, n);
        PromotedNameIsClear(t, op, live, ps, i);
        SwitchesOfOne(t, op, live, ps, i, w, n);
      }
    }
  }

  /** What is under a key of workspace_mcp_servers: a built-in marker as it was, a switched name off, any
      other mark as it was. */
  function RowThen(row: Option<Row>, switched: bool): Option<Row> {
    if row.Some? && row.value.BuiltinMark? then row
    else if switched then Some(UserMark(false))
    else if row.Some? && row.value.UserMark? then row
    else None
  }

  function RowAt(rows: map<(Id, string), Row>, k: (Id, string)): Option<Row> {
    if k in rows then Some(rows[k]) else None
  }

  lemma {:induction false} SwitchedRow(rows: map<(Id, string), Row>, tombstones: set<(Id, string)>, k: (Id, string))
    ensures RowAt(SwitchedOff(WithoutLocal(rows), tombstones), k) == RowThen(RowAt(rows, k), k in tombstones)
  {
  }

  /** Every row of workspace_mcp_servers after the move, by what was there and what had to be switched. */
  lemma {:induction false} RowsExactly(t: Tables, op: Operator, digests: Digests, forks: seq<Fork>,
      secrets: seq<Secret>, k: (Id, string))
    requires Readable(t, digests, forks, secrets) && Planned(t, op, digests, forks, secrets).Some?
    ensures var plan := Planned(t, op, digests, forks, secrets).value;
            Applied(t, plan).Some?
            && RowAt(Applied(t, plan).value.rows, k)
               == RowThen(RowAt(t.rows, k), SwitchedIn(t, op, plan.forks.promotions, k.0, k.1))
  {
    hide Planned, NamedFromTables, SwitchedIn, Inserted, Restamped, Copied, V.Merged, V.RepointAll, SwitchedOff;
    PlanApplies(t, op, digests, forks, secrets);
    var live, ps, st, plan := OpenPlan(t, op, digests, forks, secrets);
    TombstonesExactly(t, op, live, ps, k.0, k.1);
    SwitchedRow(t.rows, plan.forks.tombstones, k);
    hide Readable;
  }

  // ----- stale snapshots -----

  /** Names whose snapshots nothing may read any more: a server of a dead workspace, and a promoted one
      whose references changed, under its old name and its new one. */
  ghost predicate Stale(t: Tables, qs: seq<Promotion>, w: Id, n: string) {
    || ((w, n) in t.rows && t.rows[(w, n)].Local? && w in t.workspaces && !t.workspaces[w].Live())
    || (exists q :: q in qs && q.refsRewritten && q.workspace == w && (q.sourceName == n || q.name == n))
  }

  lemma {:induction false} DroppedExactly(t: Tables, op: Operator, forks: seq<Fork>, w: Id, n: string)
    requires ValidTables(t) && ListsForks(t, forks)
    ensures var dropped := Filter(Sorted(forks, F.FORK_STAMP), F.Dead(ForkInputOf(t, op)));
            (exists f :: f in dropped && (f.workspace, f.name) == (w, n)) <==>
            (w, n) in t.rows && t.rows[(w, n)].Local? && w in t.workspaces && !t.workspaces[w].Live()
  {
    SameRows(forks, Sorted(forks, F.FORK_STAMP));
    hide Sorted, NoDuplicates;
    var dropped := Filter(Sorted(forks, F.FORK_STAMP), F.Dead(ForkInputOf(t, op)));
    if (w, n) in t.rows && t.rows[(w, n)].Local? && w in t.workspaces && !t.workspaces[w].Live() {
      assert t.rows[(w, n)].fork in dropped;
    }
  }

  lemma {:induction false} StaleIsDeleted(t: Tables, op: Operator, forks: seq<Fork>, qs: seq<Promotion>,
      dropped: seq<Fork>, w: Id, n: string)
    requires ValidTables(t) && ListsForks(t, forks)
    requires dropped == Filter(Sorted(forks, F.FORK_STAMP), F.Dead(ForkInputOf(t, op)))
    ensures Stale(t, qs, w, n) <==> (w, n) in S.Deletes(qs, dropped)
  {
    hide Sorted, Filter, NoDuplicates, ForkInputOf;
    DroppedExactly(t, op, forks, w, n);
  }

  /** A rename never lands where snapshots went stale. */
  lemma {:induction false} TargetIsNotStale(t: Tables, qs: seq<Promotion>, r: S.Rename)
    requires S.Unchained(qs) && r in S.Renames(qs)
    requires forall q :: q in qs ==> q.workspace in t.workspaces && t.workspaces[q.workspace].Live()
    ensures !Stale(t, qs, r.workspace, r.target)
  {
    var i :| 0 <= i < |qs| && S.RenamesOf(qs[i]) == [r];
  }

  /** After the deletes and the renames no stale snapshot is left, under its old name or its new one. */
  lemma {:induction false} StaleSnapshotsGo(t: Tables, op: Operator, digests: Digests, forks: seq<Fork>,
      secrets: seq<Secret>, k: S.Key)
    requires Readable(t, digests, forks, secrets) && Planned(t, op, digests, forks, secrets).Some?
    requires var plan := Planned(t, op, digests, forks, secrets).value;
             Stale(t, plan.vault.promotions, k.0, k.1)
    ensures var plan := Planned(t, op, digests, forks, secrets).value;
            Applied(t, plan).Some? && k !in Applied(t, plan).value.snapshots
  {
    PlanApplies(t, op, digests, forks, secrets);
    var live, ps, st, plan := OpenPlan(t, op, digests, forks, secrets);
    var qs, dropped, rs := plan.vault.promotions, plan.forks.dropped, S.Renames(plan.vault.promotions);
    PlanIsUnchained(t, op, live, ps, qs);
    forall q | q in qs ensures q.workspace in t.workspaces && t.workspaces[q.workspace].Live() {
      var i :| 0 <= i < |qs| && qs[i] == q;
      PromotedNameIsClear(t, op, live, ps, i);
    }
    SnapshotsRelabel(t, op, live, ps, qs, dropped);
    StaleIsDeleted(t, op, forks, qs, dropped, k.0, k.1);
    hide Readable, Planned, PlanOf, NamedFromTables, S.Unchained, SameServers, F.NamesUnique, S.RenameEach, S.Deletes;
    hide S.Independent;
    if k in Applied(t, plan).value.snapshots {
      var names := S.Deletes(qs, dropped) + set r | r in rs :: (r.workspace, r.target);
      var j :| j in S.Deleted(t.snapshots, names) && S.RelabelBy(rs)(j) == k;
      S.TargetCases(rs, j.0, j.1);
      if j.1 != k.1 {
        var i :| 0 <= i < |rs| && rs[i].workspace == j.0 && rs[i].source == j.1 && rs[i].target == k.1;
        TargetIsNotStale(t, qs, rs[i]);
      }
    }
  }

  lemma {:induction false} UnnamedStands(cache: S.Cache, stale: set<(Id, string)>, rs: seq<S.Rename>, d: S.Cache,
      k: S.Key)
    requires S.MovesBy(S.Deleted(cache, stale), d, S.RelabelBy(rs))
    requires k in cache && (k.0, k.1) !in stale
    requires forall r :: r in rs && r.workspace == k.0 ==> r.source != k.1
    ensures k in d && d[k] == cache[k]
  {
    NotStaleStays(cache, stale, k);
    forall i | 0 <= i < |rs| && rs[i].workspace == k.0 ensures rs[i].source != k.1 { assert rs[i] in rs; }
    S.TargetCases(rs, k.0, k.1);
    hide S.Deleted, S.Target;
    assert S.RelabelBy(rs)(k) == k;
  }

  lemma {:induction false} RenamesNameServers(qs: seq<Promotion>, w: Id, n: string)
    requires forall q :: q in qs && q.workspace == w ==> q.sourceName != n && q.name != n
    ensures forall r :: r in S.Renames(qs) && r.workspace == w ==> r.source != n && r.target != n
  {
    forall r | r in S.Renames(qs) && r.workspace == w ensures r.source != n && r.target != n {
      var i :| 0 <= i < |qs| && S.RenamesOf(qs[i]) == [r];
      assert qs[i] in qs;
    }
  }

  /** Snapshots of every other name stand: those of account servers, of built-ins, of dead names. */
  lemma {:induction false} OtherSnapshotsStand(t: Tables, op: Operator, digests: Digests, forks: seq<Fork>,
      secrets: seq<Secret>, k: S.Key)
    requires Readable(t, digests, forks, secrets) && Planned(t, op, digests, forks, secrets).Some?
    requires k in t.snapshots
    requires var plan := Planned(t, op, digests, forks, secrets).value;
             && ((k.0, k.1) in t.rows && t.rows[(k.0, k.1)].Local? && k.0 in t.workspaces ==> t.workspaces[k.0].Live())
             && forall q :: q in plan.vault.promotions && q.workspace == k.0 ==> q.sourceName != k.1 && q.name != k.1
    ensures var plan := Planned(t, op, digests, forks, secrets).value;
            Applied(t, plan).Some? && k in Applied(t, plan).value.snapshots
            && Applied(t, plan).value.snapshots[k] == t.snapshots[k]
  {
    hide NamedFromTables, F.NamesUnique, S.RenameEach, S.Deletes, S.Independent, S.MovesBy, S.Renames, Planned;
    hide Inserted, Copied, SwitchedOff, V.Merged, V.RepointAll, SameServers;
    PlanApplies(t, op, digests, forks, secrets);
    var live, ps, st, plan := OpenPlan(t, op, digests, forks, secrets);
    var qs, dropped, rs := plan.vault.promotions, plan.forks.dropped, S.Renames(plan.vault.promotions);
    SnapshotsRelabel(t, op, live, ps, qs, dropped);
    StaleIsDeleted(t, op, forks, qs, dropped, k.0, k.1);
    RenamesNameServers(qs, k.0, k.1);
    var stale := S.Deletes(qs, dropped) + set r | r in rs :: (r.workspace, r.target);
    UnnamedStands(t.snapshots, stale, rs, Restamped(t.snapshots, qs, dropped).value, k);
  }
}
