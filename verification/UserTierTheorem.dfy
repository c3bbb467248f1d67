/** The main results about migration 055. */
module UserTierTheorem {
  import opened Options
  import opened UserTierModel
  import F = ForkPlanner
  import V = VaultPlanner
  import S = SnapshotPlanner
  import N = ServerNames
  import opened VaultMeaning
  import opened UserTierMove
  import opened UserTierPreservation

  type Digests = map<(User, string), Option<Digest>>

  /** What the migration may rely on: the tables' keys, complete reads and sound digests. */
  ghost predicate Readable(t: Tables, digests: Digests, forks: seq<Fork>, secrets: seq<Secret>) {
    ValidTables(t) && ListsForks(t, forks) && ListsSecrets(t, secrets) && SoundReading(t, digests, secrets)
  }

  lemma {:induction false} RepointingKeepsServers(renames: map<(Id, string), string>, ps: seq<Promotion>)
    ensures SameServers(ps, V.RepointAll(renames, ps))
  {
    hide V.RewriteColumns;
  }

  lemma {:induction false} SameServersUnique(ps: seq<Promotion>, qs: seq<Promotion>)
    requires SameServers(ps, qs) && F.NamesUnique(ps)
    ensures F.NamesUnique(qs)
  {
  }

  /** The plan's parts, named. */
  ghost predicate PlanOf(t: Tables, op: Operator, digests: Digests, forks: seq<Fork>, secrets: seq<Secret>,
                         live: seq<Fork>, ps: seq<Promotion>, st: V.VaultState, plan: Plan) {
    && Planned(t, op, digests, forks, secrets) == Some(plan)
    && live == LiveOf(t, op, forks)
    && F.PlannedForks(ForkInputOf(t, op), forks) == Some(plan.forks) && ps == plan.forks.promotions
    && plan.forks.tombstones == F.Tombstones(ForkInputOf(t, op), ps)
    && plan.forks.dropped == Filter(Sorted(forks, F.FORK_STAMP), F.Dead(ForkInputOf(t, op)))
    && NamedFromTables(t, op, live, ps)
    && V.Merged(VaultInputOf(t, digests), LiveSecretsOf(t, digests, secrets), ps,
        |LiveSecretsOf(t, digests, secrets)|) == Some(st)
    && plan.vault == V.VaultPlan(st.copies, st.renames, V.RepointAll(st.renames, ps))
    && SameServers(ps, plan.vault.promotions) && F.NamesUnique(plan.vault.promotions)
  }

  lemma {:induction false} OpenPlan(t: Tables, op: Operator, digests: Digests, forks: seq<Fork>, secrets: seq<Secret>)
    returns (live: seq<Fork>, ps: seq<Promotion>, st: V.VaultState, plan: Plan)
    requires Readable(t, digests, forks, secrets)
    requires Planned(t, op, digests, forks, secrets).Some?
    ensures PlanOf(t, op, digests, forks, secrets, live, ps, st, plan)
  {
    hide F.Promotions, F.Tombstones, V.Merged, V.RepointAll, F.NamesUnique;
    plan := Planned(t, op, digests, forks, secrets).value;
    live, ps := LiveOf(t, op, forks), plan.forks.promotions;
    PlanIsNamedFromTables(t, op, forks);
    var secretRows := LiveSecretsOf(t, digests, secrets);
    st := V.Merged(VaultInputOf(t, digests), secretRows, ps, |secretRows|).value;
    RepointingKeepsServers(st.renames, ps);
    SameServersUnique(ps, plan.vault.promotions);
  }

  lemma {:induction false} PlanOfIsPlanned(t: Tables, op: Operator, digests: Digests, forks: seq<Fork>,
      secrets: seq<Secret>, live: seq<Fork>, ps: seq<Promotion>, st: V.VaultState, plan: Plan)
    requires PlanOf(t, op, digests, forks, secrets, live, ps, st, plan)
    ensures Planned(t, op, digests, forks, secrets) == Some(plan)
  {
  }

  // ----- nothing the migration writes can collide -----

  /** A suffix never takes another fork's name: the reason renames cannot chase each other. */
  lemma {:induction false} PlanIsUnchained(t: Tables, op: Operator, live: seq<Fork>, ps: seq<Promotion>,
      qs: seq<Promotion>)
    requires NamedFromTables(t, op, live, ps) && SameServers(ps, qs)
    ensures S.Unchained(qs)
  {
    forall i, j | 0 <= i < |ps| && 0 <= j < |ps| && ps[i].workspace == ps[j].workspace
      ensures ps[i].name != ps[i].sourceName ==> ps[i].name != ps[j].sourceName
      ensures i != j ==> ps[i].sourceName != ps[j].sourceName && ps[i].name != ps[j].name
    {
      PromotionsUnchained(t, op, live, ps, i, j);
    }
  }

  lemma {:induction false} PromotionsUnchained(t: Tables, op: Operator, live: seq<Fork>, ps: seq<Promotion>, i: nat,
      j: nat)
    requires NamedFromTables(t, op, live, ps) && i < |ps| && j < |ps| && ps[i].workspace == ps[j].workspace
    ensures ps[i].name != ps[i].sourceName ==> ps[i].name != ps[j].sourceName
    ensures i != j ==> ps[i].sourceName != ps[j].sourceName && ps[i].name != ps[j].name
  {
    var inp := ForkInputOf(t, op);
    assert F.WellNamed(inp, live, ps[i], i) && F.WellNamed(inp, live, ps[j], j);
    assert live[j].name in F.Originals(inp, live, ps[j].user);
    if i != j { assert live[i].name != live[j].name; }
  }

  lemma {:induction false} TargetsAreCleared(cache: S.Cache, rs: seq<S.Rename>, others: set<(Id, string)>)
    ensures S.TargetsClear(S.Deleted(cache, others + set r | r in rs :: (r.workspace, r.target)), rs)
  {
    forall i | 0 <= i < |rs| ensures (rs[i].workspace, rs[i].target) in (set r | r in rs :: (r.workspace, r.target)) {
      assert rs[i] in rs;
    }
  }

  /** A planned migration always applies: no insert and no rename ever meets a row already there,
      and the snapshot renames, run one by one, amount to one simultaneous relabelling. */
  lemma {:induction false} PlanApplies(t: Tables, op: Operator, digests: Digests, forks: seq<Fork>,
      secrets: seq<Secret>)
    requires Readable(t, digests, forks, secrets)
    requires Planned(t, op, digests, forks, secrets).Some?
    ensures Applied(t, Planned(t, op, digests, forks, secrets).value).Some?
  {
    hide Readable, Restamped, Inserted, Copied, NamedFromTables, SameServers, F.NamesUnique, V.RepointAll, V.Merged;
    var live, ps, st, plan := OpenPlan(t, op, digests, forks, secrets);
    ServersInsert(t, op, live, ps, plan.vault.promotions);
    VaultLands(t, op, digests, forks, secrets, live, ps, st, plan);
    SnapshotsRelabel(t, op, live, ps, plan.vault.promotions, plan.forks.dropped);
  }

  lemma {:induction false} ServersInsert(t: Tables, op: Operator, live: seq<Fork>, ps: seq<Promotion>,
      qs: seq<Promotion>)
    requires NamedFromTables(t, op, live, ps) && SameServers(ps, qs) && F.NamesUnique(qs)
    ensures Inserted(t.servers, qs).Some?
  {
    hide NamedFromTables;
    forall i | 0 <= i < |qs| ensures (qs[i].user, qs[i].name) !in t.servers {
      PromotedNameIsClear(t, op, live, ps, i);
    }
    InsertsLand(t.servers, qs);
  }

  lemma {:induction false} SnapshotsRelabel(t: Tables, op: Operator, live: seq<Fork>, ps: seq<Promotion>,
      qs: seq<Promotion>, dropped: seq<Fork>)
    requires NamedFromTables(t, op, live, ps) && SameServers(ps, qs)
    ensures S.Independent(S.Renames(qs)) && Restamped(t.snapshots, qs, dropped).Some?
    ensures var stale := S.Deletes(qs, dropped) + set r | r in S.Renames(qs) :: (r.workspace, r.target);
            S.MovesBy(S.Deleted(t.snapshots, stale), Restamped(t.snapshots, qs, dropped).value,
                S.RelabelBy(S.Renames(qs)))
  {
    hide NamedFromTables;
    var rs := S.Renames(qs);
    PlanIsUnchained(t, op, live, ps, qs);
    S.RenamesAreIndependent(qs);
    TargetsAreCleared(t.snapshots, rs, S.Deletes(qs, dropped));
    S.SequentialIsSimultaneous(S.Deleted(t.snapshots, S.Deletes(qs, dropped) + set r | r in rs ::
        (r.workspace, r.target)), rs);
  }

  lemma {:induction false} VaultLands(t: Tables, op: Operator, digests: Digests, forks: seq<Fork>, secrets: seq<Secret>,
                   live: seq<Fork>, ps: seq<Promotion>, st: V.VaultState, plan: Plan)
    requires Readable(t, digests, forks, secrets)
    requires PlanOf(t, op, digests, forks, secrets, live, ps, st, plan)
    ensures Copied(t.vault, plan.vault.copies) == Some(Landed(t.vault, st.copies))
  {
    hide NamedFromTables, V.Merged, V.RepointAll, SameServers, F.NamesUnique, Planned;
    var rows := LiveSecretsOf(t, digests, secrets);
    LiveSecretKeys(t, digests, secrets);
    MergedKeepsInvariant(VaultInputOf(t, digests), rows, ps, t.vault, |rows|);
    CopiesLand(t.vault, st.copies);
  }

  // ----- each definition keeps running where it ran -----

  /** A promoted server runs after in exactly the workspace its original ran in, if it ran at all,
      and every one of its references resolves there to what it resolved to before. Its account row is
      switched on exactly if the original ran, and never for workspaces to come. */
  lemma {:induction false} PromotedServerKept(t: Tables, op: Operator, digests: Digests, forks: seq<Fork>,
      secrets: seq<Secret>, live: seq<Fork>, ps: seq<Promotion>, st: V.VaultState, plan: Plan, i: nat, w: Id)
    requires Readable(t, digests, forks, secrets)
    requires PlanOf(t, op, digests, forks, secrets, live, ps, st, plan)
    requires Applied(t, plan).Some? && i < |ps|
    requires w in t.workspaces && t.workspaces[w].Live() && t.workspaces[w].user == ps[i].user
    ensures var t', p := Applied(t, plan).value, ps[i];
            var k := (p.user, p.name);
            && (Runs(t', op, w, k) <==> w == p.workspace && LocalRan(t, op, (w, p.sourceName)))
            && Origin(plan.vault.promotions, k) == OfWorkspace(p.workspace, p.sourceName)
            && k in t'.servers && (p.workspace, p.sourceName) in t.rows && t.rows[(p.workspace, p.sourceName)].Local?
            && (t'.servers[k].enabled <==> LocalRan(t, op, (p.workspace, p.sourceName)))
            && !t'.servers[k].inNewWorkspaces
            && MeaningOf(t'.servers[k].columns, AccountView(t'.vault, p.user))
               == MeaningOf(t.rows[(p.workspace, p.sourceName)].fork.columns,
                   AccountView(t.vault, p.user) + LocalView(t, p.workspace))
  {
    var qs := plan.vault.promotions;
    PromotedNameIsClear(t, op, live, ps, i);
    AppliedServer(t, op, live, ps, st, plan, i);
    PromotedSwitches(t, op, live, ps, i, w);
    OriginOfPromotion(qs, i);
    VaultLands(t, op, digests, forks, secrets, live, ps, st, plan);
    PromotedColumnsKept(t, op, digests, forks, secrets, live, ps, st, plan, i);
    hide NamedFromTables, Readable, PlanOf, Planned, Origin, MeaningOf, AccountView;
    assert ps[i].name !in op.Ran() by { assert op.Ran() <= op.builtins.Keys; }
  }

  lemma {:induction false} AppliedServer(t: Tables, op: Operator, live: seq<Fork>, ps: seq<Promotion>,
      st: V.VaultState, plan: Plan, i: nat)
    requires NamedFromTables(t, op, live, ps) && SameServers(ps, plan.vault.promotions)
        && F.NamesUnique(plan.vault.promotions)
    requires plan.vault.promotions == V.RepointAll(st.renames, ps)
    requires Applied(t, plan).Some? && i < |ps|
    ensures var k := (ps[i].user, ps[i].name);
            k in Applied(t, plan).value.servers &&
            Applied(t, plan).value.servers[k] == RowOf(V.Repointed(st.renames, ps[i]))
    ensures V.Repointed(st.renames, ps[i]).enabled == ps[i].enabled
  {
    hide V.RewriteColumns;
    var qs := plan.vault.promotions;
    forall j | 0 <= j < |qs| ensures (qs[j].user, qs[j].name) !in t.servers {
      PromotedNameIsClear(t, op, live, ps, j);
    }
    InsertsLand(t.servers, qs);
  }

  lemma {:induction false} PromotedColumnsKept(t: Tables, op: Operator, digests: Digests, forks: seq<Fork>,
      secrets: seq<Secret>, live: seq<Fork>, ps: seq<Promotion>, st: V.VaultState, plan: Plan, i: nat)
    requires Readable(t, digests, forks, secrets)
    requires PlanOf(t, op, digests, forks, secrets, live, ps, st, plan) && i < |ps|
    ensures MeaningOf(V.Repointed(st.renames, ps[i]).columns, AccountView(Landed(t.vault, st.copies), ps[i].user))
            == MeaningOf(ps[i].columns, AccountView(t.vault, ps[i].user) + LocalView(t, ps[i].workspace))
  {
    hide V.Merged, V.RepointAll, SameServers, F.NamesUnique, Planned, MeaningOf, AccountView;
    PromotedNameIsClear(t, op, live, ps, i);
    LiveSecretKeys(t, digests, secrets);
    LocalViewIsListed(t, digests, secrets, ps[i].workspace);
    PromotedMeaningKept(VaultInputOf(t, digests), LiveSecretsOf(t, digests, secrets), ps, t.vault, ps[i],
        LocalView(t, ps[i].workspace));
  }

  /** An account server runs after in exactly the live workspaces it ran in before, and every one
      of its references still resolves as it did: no workspace secret reaches it. */
  lemma {:induction false} AccountServerKept(t: Tables, op: Operator, digests: Digests, forks: seq<Fork>,
      secrets: seq<Secret>, live: seq<Fork>, ps: seq<Promotion>, st: V.VaultState, plan: Plan, n: string, w: Id)
    requires Readable(t, digests, forks, secrets)
    requires PlanOf(t, op, digests, forks, secrets, live, ps, st, plan)
    requires Applied(t, plan).Some?
    requires w in t.workspaces && t.workspaces[w].Live() && (t.workspaces[w].user, n) in t.servers
    ensures var t', k := Applied(t, plan).value, (t.workspaces[w].user, n);
            && (Runs(t', op, w, k) <==> AccountRan(t, op, w, k))
            && Origin(plan.vault.promotions, k) == OfAccount(k.0, k.1)
            && k in t'.servers
            && MeaningOf(t'.servers[k].columns, AccountView(t'.vault, k.0)) ==
                MeaningOf(t.servers[k].columns, AccountView(t.vault, k.0))
  {
    hide V.RepointAll, MeaningOf;
    var qs, k := plan.vault.promotions, (t.workspaces[w].user, n);
    forall j | 0 <= j < |qs| ensures (qs[j].user, qs[j].name) !in t.servers {
      PromotedNameIsClear(t, op, live, ps, j);
    }
    InsertsLand(t.servers, qs);
    OriginOfAccount(qs, k);
    AccountSwitches(t, op, live, ps, w, n);
    VaultLands(t, op, digests, forks, secrets, live, ps, st, plan);
    AccountColumnsKept(t, op, digests, forks, secrets, live, ps, st, plan, k);
  }

  lemma {:induction false} AccountColumnsKept(t: Tables, op: Operator, digests: Digests, forks: seq<Fork>,
      secrets: seq<Secret>, live: seq<Fork>, ps: seq<Promotion>, st: V.VaultState, plan: Plan, k: (User, string))
    requires Readable(t, digests, forks, secrets)
    requires PlanOf(t, op, digests, forks, secrets, live, ps, st, plan) && k in t.servers
    ensures MeaningOf(t.servers[k].columns, AccountView(Landed(t.vault, st.copies), k.0))
            == MeaningOf(t.servers[k].columns, AccountView(t.vault, k.0))
  {
    hide V.Merged, V.RepointAll, SameServers, F.NamesUnique, Planned, NamedFromTables, MeaningOf, V.ColumnRefs;
    var inp, rows := VaultInputOf(t, digests), LiveSecretsOf(t, digests, secrets);
    LiveSecretKeys(t, digests, secrets);
    AccountKept(inp, rows, ps, t.vault);
    var c := t.servers[k].columns;
    var v := Landed(t.vault, st.copies);
    forall n | n in V.ColumnRefs(c)
      ensures n in AccountView(t.vault, k.0) <==> n in AccountView(v, k.0)
      ensures n in AccountView(t.vault, k.0) ==> AccountView(v, k.0)[n] == AccountView(t.vault, k.0)[n]
    {
      assert k.0 in Owners(t.servers.Keys);
      assert n in AccountRefs(t, k.0);
      assert n in V.Asked(inp, rows, ps, k.0);
      assert (k.0, n) in v <==> (k.0, n) in t.vault;
    }
    RewriteNothing(c);
    ColumnsKeepMeaning(c, map[], AccountView(t.vault, k.0), AccountView(v, k.0));
  }

  // ----- the whole picture -----

  /** In every live workspace the migration changes nothing about what runs: the definitions that
      ran before are exactly those that run after, each resolving every reference to the same value
      or the same absence. */
  lemma {:induction false} MigrationPreservesEveryWorkspace(t: Tables, op: Operator, digests: Digests,
      forks: seq<Fork>, secrets: seq<Secret>, w: Id)
    requires Readable(t, digests, forks, secrets)
    requires Planned(t, op, digests, forks, secrets).Some?
    requires w in t.workspaces && t.workspaces[w].Live()
    ensures var plan := Planned(t, op, digests, forks, secrets).value;
            Applied(t, plan).Some? &&
            RunsAfter(Applied(t, plan).value, op, plan.vault.promotions, w) == RanBefore(t, op, w)
  {
    hide Readable, Planned, Applied, MeaningOf, Origin, Runs, LocalRan, AccountRan;
    PlanApplies(t, op, digests, forks, secrets);
    var live, ps, st, plan := OpenPlan(t, op, digests, forks, secrets);
    var t' := Applied(t, plan).value;
    var qs, u := plan.vault.promotions, t.workspaces[w].user;
    ServersAfter(t, op, live, ps, plan);
    forall x | x in RunsAfter(t', op, qs, w) ensures x in RanBefore(t, op, w) {
      var k :| k in t'.servers && k.0 == u && Runs(t', op, w, k)
               && x == (Origin(qs, k), MeaningOf(t'.servers[k].columns, AccountView(t'.vault, u)));
      if k in t.servers {
        AccountServerKept(t, op, digests, forks, secrets, live, ps, st, plan, k.1, w);
      } else {
        var i :| 0 <= i < |ps| && (ps[i].user, ps[i].name) == k;
        PromotedServerKept(t, op, digests, forks, secrets, live, ps, st, plan, i, w);
      }
    }
    forall x | x in RanBefore(t, op, w) ensures x in RunsAfter(t', op, qs, w) {
      BeforeIsAfter(t, op, digests, forks, secrets, live, ps, st, plan, w, x);
    }
  }

  /** No live fork's account holds, reserves and brings more names than a search can pass over. */
  ghost predicate RoomForForks(t: Tables, op: Operator, forks: seq<Fork>) {
    var inp, live := ForkInputOf(t, op), LiveOf(t, op, forks);
    forall i :: 0 <= i < |live| ==> F.Room(inp, live, live[i]) <= N.SUFFIX_TRIES - 2
  }

  /** Nor does any live secret's account. */
  ghost predicate RoomForSecrets(t: Tables, digests: Digests, secrets: seq<Secret>, ps: seq<Promotion>) {
    var inp, live := VaultInputOf(t, digests), LiveSecretsOf(t, digests, secrets);
    forall i :: 0 <= i < |live| ==> V.Room(inp, live, ps, live[i]) <= N.SUFFIX_TRIES - 2
  }

  /** The migration always has a plan unless some account by itself comes past the 9,998 names of a
      search; how many accounts there are does not matter. */
  lemma {:induction false} PlanExists(t: Tables, op: Operator, digests: Digests, forks: seq<Fork>, secrets: seq<Secret>)
    requires RoomForForks(t, op, forks)
    requires forall ps ::
      F.Promotions(ForkInputOf(t, op), LiveOf(t, op, forks), |LiveOf(t, op, forks)|) == Some(ps) ==>
        RoomForSecrets(t, digests, secrets, ps)
    ensures Planned(t, op, digests, forks, secrets).Some?
  {
    var inp, live := ForkInputOf(t, op), LiveOf(t, op, forks);
    hide F.Room, V.Room, F.Tombstones, V.RepointAll;
    F.PlanIsTotal(inp, live, |live|);
    var ps := F.Promotions(inp, live, |live|).value;
    assert RoomForSecrets(t, digests, secrets, ps);
    var rows := LiveSecretsOf(t, digests, secrets);
    V.MergeIsTotal(VaultInputOf(t, digests), rows, ps, |rows|);
    hide F.Promotions, V.Merged;
  }

  lemma {:induction false} ServersAfter(t: Tables, op: Operator, live: seq<Fork>, ps: seq<Promotion>, plan: Plan)
    requires NamedFromTables(t, op, live, ps) && SameServers(ps, plan.vault.promotions)
        && F.NamesUnique(plan.vault.promotions)
    requires Applied(t, plan).Some?
    ensures Applied(t, plan).value.workspaces == t.workspaces
    ensures forall k :: k in Applied(t, plan).value.servers && k !in t.servers ==>
        exists i :: 0 <= i < |ps| && (ps[i].user, ps[i].name) == k
  {
    var qs := plan.vault.promotions;
    forall j | 0 <= j < |qs| ensures (qs[j].user, qs[j].name) !in t.servers {
      PromotedNameIsClear(t, op, live, ps, j);
    }
    InsertsLand(t.servers, qs);
    forall k | k in Applied(t, plan).value.servers && k !in t.servers
      ensures exists i :: 0 <= i < |ps| && (ps[i].user, ps[i].name) == k {
      assert Promotes(qs, k);
      var i :| 0 <= i < |qs| && (qs[i].user, qs[i].name) == k;
      assert (ps[i].user, ps[i].name) == k;
    }
  }

  lemma {:induction false} BeforeIsAfter(t: Tables, op: Operator, digests: Digests, forks: seq<Fork>,
      secrets: seq<Secret>, live: seq<Fork>, ps: seq<Promotion>, st: V.VaultState, plan: Plan, w: Id,
      x: (Definition, Meaning))
    requires Readable(t, digests, forks, secrets)
    requires PlanOf(t, op, digests, forks, secrets, live, ps, st, plan)
    requires Applied(t, plan).Some? && Applied(t, plan).value.workspaces == t.workspaces
    requires w in t.workspaces && t.workspaces[w].Live()
    requires x in RanBefore(t, op, w)
    ensures x in RunsAfter(Applied(t, plan).value, op, plan.vault.promotions, w)
  {
    hide Readable, PlanOf, Applied, MeaningOf, Origin, Runs, AccountRan, AccountView, LocalView;
    var u := t.workspaces[w].user;
    if k :| k in t.rows && k.0 == w && LocalRan(t, op, k)
            && x == (OfWorkspace(w, k.1),
                MeaningOf(t.rows[k].fork.columns, AccountView(t.vault, u) + LocalView(t, w))) {
      LocalIsAfter(t, op, digests, forks, secrets, live, ps, st, plan, w, k.1);
    } else {
      var k :| k in t.servers && k.0 == u && AccountRan(t, op, w, k)
               && x == (OfAccount(u, k.1), MeaningOf(t.servers[k].columns, AccountView(t.vault, u)));
      AccountServerKept(t, op, digests, forks, secrets, live, ps, st, plan, k.1, w);
    }
  }

  lemma {:induction false} LocalIsAfter(t: Tables, op: Operator, digests: Digests, forks: seq<Fork>,
      secrets: seq<Secret>, live: seq<Fork>, ps: seq<Promotion>, st: V.VaultState, plan: Plan, w: Id, n: string)
    requires Readable(t, digests, forks, secrets)
    requires PlanOf(t, op, digests, forks, secrets, live, ps, st, plan)
    requires Applied(t, plan).Some? && Applied(t, plan).value.workspaces == t.workspaces
    requires w in t.workspaces && t.workspaces[w].Live()
    requires LocalRan(t, op, (w, n))
    ensures (OfWorkspace(w, n),
        MeaningOf(t.rows[(w, n)].fork.columns, AccountView(t.vault, t.workspaces[w].user) + LocalView(t, w)))
            in RunsAfter(Applied(t, plan).value, op, plan.vault.promotions, w)
  {
    var i := ShadowingFork(t, op, live, ps, w, n);
    PromotedNameIsClear(t, op, live, ps, i);
    PromotedServerKept(t, op, digests, forks, secrets, live, ps, st, plan, i, w);
    hide Readable, PlanOf, Planned, Applied, MeaningOf, Origin, Runs, AccountView, LocalView, NamedFromTables, Reserved;
    var k := (ps[i].user, ps[i].name);
    assert Runs(Applied(t, plan).value, op, w, k);
  }

  // ----- cached tool snapshots -----

  /** A promoted server whose references were not rewritten finds every one of its cached snapshots
      under its new name. */
  lemma {:induction false} SnapshotsFollow(t: Tables, op: Operator, digests: Digests, forks: seq<Fork>,
      secrets: seq<Secret>, i: nat, hash: string)
    requires Readable(t, digests, forks, secrets)
    requires Planned(t, op, digests, forks, secrets).Some?
    requires var qs := Planned(t, op, digests, forks, secrets).value.vault.promotions;
             i < |qs| && !qs[i].refsRewritten && (qs[i].workspace, qs[i].sourceName, hash) in t.snapshots
    ensures var plan := Planned(t, op, digests, forks, secrets).value;
            var q := plan.vault.promotions[i];
            Applied(t, plan).Some? &&
            (q.workspace, q.name, hash) in Applied(t, plan).value.snapshots &&
            Applied(t, plan).value.snapshots[(q.workspace, q.name, hash)] ==
                t.snapshots[(q.workspace, q.sourceName, hash)]
  {
    PlanApplies(t, op, digests, forks, secrets);
    var live, ps, st, plan := OpenPlan(t, op, digests, forks, secrets);
    var qs, dropped := plan.vault.promotions, plan.forks.dropped;
    PromotedNameIsClear(t, op, live, ps, i);
    PlanIsUnchained(t, op, live, ps, qs);
    DroppedAreDead(t, op, forks, dropped);
    hide Readable, Planned, PlanOf, NamedFromTables, S.Deleted, S.Unchained, SameServers, F.NamesUnique, S.Renames,
        S.RenameEach, S.RewrittenNames;
    S.SourceIsNotStale(qs, i);
    S.NewNameOf(qs, i);
    SnapshotsRelabel(t, op, live, ps, qs, dropped);
    var k := (qs[i].workspace, qs[i].sourceName, hash);
    var stale := S.Deletes(qs, dropped) + set r | r in S.Renames(qs) :: (r.workspace, r.target);
    assert (k.0, k.1) !in stale;
    NotStaleStays(t.snapshots, stale, k);
    assert S.RelabelBy(S.Renames(qs))(k) == (qs[i].workspace, qs[i].name, hash);
  }

  lemma {:induction false} NotStaleStays(cache: S.Cache, stale: set<(Id, string)>, k: S.Key)
    requires k in cache && (k.0, k.1) !in stale
    ensures k in S.Deleted(cache, stale) && S.Deleted(cache, stale)[k] == cache[k]
  {
  }

  lemma {:induction false} DroppedAreDead(t: Tables, op: Operator, forks: seq<Fork>, dropped: seq<Fork>)
    requires dropped == Filter(Sorted(forks, F.FORK_STAMP), F.Dead(ForkInputOf(t, op)))
    ensures forall j :: 0 <= j < |dropped| ==>
        dropped[j].workspace in t.workspaces && !t.workspaces[dropped[j].workspace].Live()
  {
    forall j | 0 <= j < |dropped|
      ensures dropped[j].workspace in t.workspaces && !t.workspaces[dropped[j].workspace].Live() {
      assert dropped[j] in dropped;
    }
  }
}
