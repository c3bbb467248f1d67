/** Who keeps a name in the move of migration 055, said of the tables it reads. */
module KeptNamesInTables {
  import opened Options
  import opened UserTierModel
  import opened ServerNames
  import opened VaultRefs
  import F = ForkPlanner
  import opened VaultPlanner
  import opened VaultMeaning
  import opened UserTierMove
  import opened UserTierPreservation
  import opened UserTierTheorem
  import opened KeptNames

  /** The id is each table's primary key. */
  ghost predicate IdsUnique(t: Tables) {
    && (forall a, b ::
          a in t.rows && b in t.rows && t.rows[a].Local? && t.rows[b].Local? && t.rows[a].fork.id == t.rows[b].fork.id
          ==> a == b)
    && (forall a, b :: a in t.localVault && b in t.localVault && t.localVault[a].id == t.localVault[b].id ==> a == b)
  }

  predicate LiveLocal(t: Tables, k: (Id, string)) {
    k in t.rows && t.rows[k].Local? && k.0 in t.workspaces && t.workspaces[k.0].Live()
  }

  /** No account server, connection, built-in, brokerage, built-in marker or operator's disable has it. */
  predicate Unheld(t: Tables, op: Operator, u: User, n: string) {
    && (u, n) !in t.servers && (u, n) !in t.oauth
    && n !in op.builtins && n !in BROKERAGES && n !in op.disables
    && forall j :: j in t.rows && j.1 == n ==> !t.rows[j].BuiltinMark?
  }

  lemma {:induction false} OpenInTables(t: Tables, op: Operator, u: User, n: string)
    ensures Open(ForkInputOf(t, op), u, n) <==> IsLegal(n) && Unheld(t, op, u, n)
  {
    UserTierPreservation.HeldNames(t, op, u, n);
    hide IsLegal;
  }

  /** Of the user's servers that arrive with the name, this is the oldest. */
  ghost predicate OldestOfName(t: Tables, k: (Id, string))
    requires LiveLocal(t, k)
  {
    forall j :: LiveLocal(t, j) && j.1 == k.1 && t.workspaces[j.0].user == t.workspaces[k.0].user && j != k ==>
      Older(t.rows[k].fork.created, t.rows[k].fork.id, t.rows[j].fork.created, t.rows[j].fork.id)
  }

  lemma {:induction false} RowsAreForks(t: Tables, op: Operator, forks: seq<Fork>, k: (Id, string))
    requires ValidTables(t) && ListsForks(t, forks) && IdsUnique(t) && LiveLocal(t, k)
    ensures forall a, b :: a in forks && b in forks && a.id == b.id ==> a == b
    ensures var inp, f := ForkInputOf(t, op), t.rows[k].fork;
            && f in forks && F.Live(inp)(f) && f.workspace == k.0 && f.name == k.1
            && (OldestOfName(t, k) <==> forall g ::
                  g in forks && F.Live(inp)(g) && g.name == f.name && inp.UserOf(g) == inp.UserOf(f) && g != f
                  ==> Older(f.created, f.id, g.created, g.id))
  {
    var inp, f := ForkInputOf(t, op), t.rows[k].fork;
    hide Reserved, Grouped, Markers, Older;
    forall g | g in forks && F.Live(inp)(g)
      ensures LiveLocal(t, (g.workspace, g.name)) && t.rows[(g.workspace, g.name)].fork == g { }
  }

  lemma {:induction false} NoMarkerAtOwnName(t: Tables, op: Operator, forks: seq<Fork>)
    requires ValidTables(t) && ListsForks(t, forks)
    ensures OneRowPerName(ForkInputOf(t, op), LiveOf(t, op, forks))
  {
    var live := LiveOf(t, op, forks);
    LiveRows(t, op, forks);
    forall i | 0 <= i < |live| ensures live[i].name !in NamesFor(Markers(t), live[i].workspace) {
      assert live[i] in live;
      MarkerNames(t, live[i].workspace, live[i].name);
    }
  }

  /** A local server keeps its name exactly when the name is legal, nothing holds or reserves it, and no
      older local server of the user's live workspaces has it. */
  lemma {:induction false} ServerKeepsItsName(t: Tables, op: Operator, digests: Digests, forks: seq<Fork>,
      secrets: seq<Secret>, k: (Id, string)) returns (i: nat)
    requires Readable(t, digests, forks, secrets) && IdsUnique(t)
    requires Planned(t, op, digests, forks, secrets).Some? && LiveLocal(t, k)
    ensures var ps, u := Planned(t, op, digests, forks, secrets).value.vault.promotions, t.workspaces[k.0].user;
            && i < |ps| && ps[i].workspace == k.0 && ps[i].sourceName == k.1
            && (ps[i].name == k.1 <==> IsLegal(k.1) && Unheld(t, op, u, k.1) && OldestOfName(t, k))
  {
    var f, inp := t.rows[k].fork, ForkInputOf(t, op);
    RowsAreForks(t, op, forks, k);
    NoMarkerAtOwnName(t, op, forks);
    i := OldestServerKeepsItsName(inp, forks, f);
    OpenInTables(t, op, t.workspaces[k.0].user, k.1);
    var live, ps, st, plan := OpenPlan(t, op, digests, forks, secrets);
    hide Readable, Unheld, OldestOfName, IsLegal, Open, Older, F.PlannedForks, NamedFromTables, F.Tombstones, Merged;
  }

  predicate LiveSecret(t: Tables, k: (Id, string)) {
    k in t.localVault && k.0 in t.workspaces && t.workspaces[k.0].Live()
  }

  /** The account's vault itself is asked for the name: by a plugin, by an account server, or by a local
      server whose own workspace has no secret of that name. */
  ghost predicate AskedOfAccount(t: Tables, u: User, n: string) {
    || n in NamesFor(t.pluginRefs, u)
    || (exists k :: k in t.servers && k.0 == u && n in ColumnRefs(t.servers[k].columns))
    || (exists k :: LiveLocal(t, k) && t.workspaces[k.0].user == u && n in ColumnRefs(t.rows[k].fork.columns)
                    && (k.0, n) !in t.localVault)
  }

  lemma {:induction false} AccountRefsInTables(t: Tables, digests: Digests, u: User, n: string)
    ensures n in NamesFor(VaultInputOf(t, digests).referenced, u) <==>
            n in NamesFor(t.pluginRefs, u)
            || exists k :: k in t.servers && k.0 == u && n in ColumnRefs(t.servers[k].columns)
  {
    hide ColumnRefs;
    if k :| k in t.servers && k.0 == u && n in ColumnRefs(t.servers[k].columns) { assert u in Owners(t.servers.Keys); }
  }

  lemma {:induction false} LocalNamesInTables(t: Tables, digests: Digests, secrets: seq<Secret>, w: Id, n: string)
    requires ValidTables(t) && ListsSecrets(t, secrets) && w in t.workspaces && t.workspaces[w].Live()
    ensures n in LocalNames(LiveSecretsOf(t, digests, secrets), w) <==> (w, n) in t.localVault
  {
    LiveSecretRows(t, digests, secrets);
    hide LiveSecretsOf, NoDuplicates;
    var live := LiveSecretsOf(t, digests, secrets);
    if (w, n) in t.localVault {
      var s := t.localVault[(w, n)];
      assert s in live;
      var i :| 0 <= i < |live| && live[i] == s;
    }
    if n in LocalNames(live, w) {
      var i :| 0 <= i < |live| && live[i].workspace == w && live[i].name == n;
      assert live[i] in live;
    }
  }

  lemma {:induction false} AskedInTables(t: Tables, op: Operator, digests: Digests, secrets: seq<Secret>,
      live: seq<Fork>, ps: seq<Promotion>, u: User, n: string)
    requires ValidTables(t) && ListsSecrets(t, secrets) && NamedFromTables(t, op, live, ps)
    ensures n in Asked(VaultInputOf(t, digests), LiveSecretsOf(t, digests, secrets), ps, u) <==> AskedOfAccount(t, u, n)
  {
    hide ColumnRefs, VaultInputOf, LiveSecretsOf, LocalNames;
    var rows := LiveSecretsOf(t, digests, secrets);
    AccountRefsInTables(t, digests, u, n);
    forall i | 0 <= i < |ps|
      ensures LiveLocal(t, (ps[i].workspace, ps[i].sourceName)) && ps[i].user == t.workspaces[ps[i].workspace].user
      ensures ps[i].columns == t.rows[(ps[i].workspace, ps[i].sourceName)].fork.columns
      ensures n in AskedBy(rows, ps[i]) <==> n in ColumnRefs(ps[i].columns) && (ps[i].workspace, n) !in t.localVault
    {
      PromotedNameIsClear(t, op, live, ps, i);
      LocalNamesInTables(t, digests, secrets, ps[i].workspace, n);
    }
    forall k | LiveLocal(t, k) ensures exists i :: 0 <= i < |ps| && (ps[i].workspace, ps[i].sourceName) == k {
      var i :| 0 <= i < |live| && t.rows[k] == Local(live[i]);
      PromotedNameIsClear(t, op, live, ps, i);
      assert (ps[i].workspace, ps[i].sourceName) == k;
    }
    hide NamedFromTables, NamesFor, AskedBy;
  }

  /** The account holds the secret's own name under the same known digest. */
  predicate HeldAlready(t: Tables, digests: Digests, k: (Id, string))
    requires digests.Keys == t.vault.Keys && LiveSecret(t, k)
  {
    var own := (t.workspaces[k.0].user, k.1);
    own in t.vault && t.localVault[k].digest.Some? && digests[own] == t.localVault[k].digest
  }

  ghost predicate OldestSecret(t: Tables, k: (Id, string))
    requires LiveSecret(t, k)
  {
    forall j :: LiveSecret(t, j) && j.1 == k.1 && t.workspaces[j.0].user == t.workspaces[k.0].user && j != k ==>
      Older(t.localVault[k].created, t.localVault[k].id, t.localVault[j].created, t.localVault[j].id)
  }

  lemma {:induction false} RowsAreSecrets(t: Tables, digests: Digests, secrets: seq<Secret>, k: (Id, string))
    requires ValidTables(t) && ListsSecrets(t, secrets) && IdsUnique(t) && LiveSecret(t, k)
    ensures forall a, b :: a in secrets && b in secrets && a.id == b.id ==> a == b
    ensures var inp, s := VaultInputOf(t, digests), t.localVault[k];
            && s in secrets && Live(inp)(s) && s.workspace == k.0 && s.name == k.1
            && (OldestSecret(t, k) <==> forall a ::
                  a in secrets && Live(inp)(a) && a.name == s.name && inp.UserOf(a) == inp.UserOf(s) && a != s
                  ==> Older(s.created, s.id, a.created, a.id))
  {
    var inp, s := VaultInputOf(t, digests), t.localVault[k];
    hide AccountRefs, Older;
    forall a | a in secrets && Live(inp)(a)
      ensures LiveSecret(t, (a.workspace, a.name)) && t.localVault[(a.workspace, a.name)] == a { }
  }

  /** A secret whose value the account already holds under its name collapses into it: it keeps its name
      and is not copied. */
  lemma {:induction false} HeldValueCollapses(t: Tables, op: Operator, digests: Digests, forks: seq<Fork>,
      secrets: seq<Secret>, k: (Id, string))
    requires Readable(t, digests, forks, secrets) && Planned(t, op, digests, forks, secrets).Some?
    requires LiveSecret(t, k) && HeldAlready(t, digests, k)
    ensures var plan := Planned(t, op, digests, forks, secrets).value.vault;
            k !in plan.renames && forall c :: c in plan.copies ==> c.secret != t.localVault[k]
  {
    var live, ps, st, plan := OpenPlan(t, op, digests, forks, secrets);
    var inp, rows := VaultInputOf(t, digests), LiveSecretsOf(t, digests, secrets);
    LiveSecretKeys(t, digests, secrets);
    LiveSecretRows(t, digests, secrets);
    hide Planned, Merged, LiveSecretsOf, NamedFromTables, KeysUnique, F.PlannedForks, F.Tombstones, RepointAll;
    hide SecretNameFor, Asked, NoDuplicates, F.NamesUnique, SameServers;
    var i :| 0 <= i < |rows| && rows[i] == t.localVault[k];
    SecretKeptExactly(inp, rows, ps, i);
    RenamedItself(inp, rows, ps, i, |rows|);
    EqualValueCollapses(inp, rows, ps, i);
    CopiesOf(inp, rows, ps, i, |rows|);
  }

  /** Of the secrets of a user's live workspaces that arrive with one name the account does not hold, none
      keeps it if the account is asked for it; else the oldest does, and each other one exactly when it
      is known to have the oldest's value. */
  lemma {:induction false} SecretKeepsItsName(t: Tables, op: Operator, digests: Digests, forks: seq<Fork>,
      secrets: seq<Secret>, oldest: (Id, string), k: (Id, string))
    requires Readable(t, digests, forks, secrets) && IdsUnique(t)
    requires Planned(t, op, digests, forks, secrets).Some?
    requires LiveSecret(t, oldest) && LiveSecret(t, k) && OldestSecret(t, oldest)
    requires oldest.1 == k.1 && t.workspaces[oldest.0].user == t.workspaces[k.0].user
    requires (t.workspaces[k.0].user, k.1) !in t.vault
    ensures k !in Planned(t, op, digests, forks, secrets).value.vault.renames <==>
            && !AskedOfAccount(t, t.workspaces[k.0].user, k.1)
            && (k == oldest
                || (t.localVault[k].digest.Some? && t.localVault[k].digest == t.localVault[oldest].digest))
  {
    var live, ps, st, plan := OpenPlan(t, op, digests, forks, secrets);
    var inp := VaultInputOf(t, digests);
    LiveSecretKeys(t, digests, secrets);
    RowsAreSecrets(t, digests, secrets, oldest);
    RowsAreSecrets(t, digests, secrets, k);
    AskedInTables(t, op, digests, secrets, live, ps, t.workspaces[k.0].user, k.1);
    hide NamedFromTables, KeysUnique, NoDuplicates, F.PlannedForks, F.Tombstones, AskedOfAccount, Asked, OldestSecret;
    hide Merged, RepointAll, F.NamesUnique, SameServers, Older;
    assert PlannedVault(inp, secrets, ps) == Some(plan.vault);
    hide Planned, PlannedVault, LiveSecretsOf;
    OldestSecretKeepsItsName(inp, secrets, ps, t.localVault[oldest], t.localVault[k]);
  }

  lemma {:induction false} RewrittenAt(t: Tables, op: Operator, digests: Digests, forks: seq<Fork>,
      secrets: seq<Secret>, live: seq<Fork>, ps: seq<Promotion>, st: VaultState, plan: Plan, i: nat)
    requires PlanOf(t, op, digests, forks, secrets, live, ps, st, plan) && i < |ps| && !ps[i].refsRewritten
    ensures var q := plan.vault.promotions[i];
            var rewritten := exists n :: n in ColumnRefs(ps[i].columns) && (ps[i].workspace, n) in plan.vault.renames;
            (q.refsRewritten <==> rewritten) && (q.columns != ps[i].columns <==> rewritten)
  {
    hide Merged, F.PlannedForks, F.Tombstones, F.NamesUnique, ColumnRefs, Planned, NamedFromTables;
    hide SameServers, IsRefName;
    var rows := LiveSecretsOf(t, digests, secrets);
    RenamesChange(VaultInputOf(t, digests), rows, ps, |rows|);
    RewrittenExactly(st.renames, ps[i]);
  }

  lemma {:induction false} PromotionOf(t: Tables, op: Operator, digests: Digests, forks: seq<Fork>,
      secrets: seq<Secret>, live: seq<Fork>, ps: seq<Promotion>, st: VaultState, plan: Plan, k: (Id, string))
      returns (i: nat)
    requires ValidTables(t) && PlanOf(t, op, digests, forks, secrets, live, ps, st, plan) && LiveLocal(t, k)
    ensures i < |ps| == |plan.vault.promotions|
    ensures ps[i].workspace == k.0 && ps[i].sourceName == k.1
    ensures ps[i].columns == t.rows[k].fork.columns && !ps[i].refsRewritten
    ensures plan.vault.promotions[i].workspace == k.0 && plan.vault.promotions[i].sourceName == k.1
  {
    hide Merged, F.PlannedForks, F.Tombstones, F.NamesUnique, Planned, RepointAll, NamedFromTables, Reserved;
    assert k == (k.0, k.1);
    i := ShadowingFork(t, op, live, ps, k.0, k.1);
    PromotedNameIsClear(t, op, live, ps, i);
  }

  /** A server's references are rewritten, and its snapshots with them given up, exactly when it names a
      secret of its workspace that was renamed. */
  lemma {:induction false} ServerRewrittenExactly(t: Tables, op: Operator, digests: Digests, forks: seq<Fork>,
      secrets: seq<Secret>, k: (Id, string)) returns (i: nat)
    requires Readable(t, digests, forks, secrets) && Planned(t, op, digests, forks, secrets).Some?
    requires LiveLocal(t, k)
    ensures var plan := Planned(t, op, digests, forks, secrets).value.vault;
            && i < |plan.promotions| && plan.promotions[i].workspace == k.0 && plan.promotions[i].sourceName == k.1
            && var rewritten := exists n :: n in ColumnRefs(t.rows[k].fork.columns) && (k.0, n) in plan.renames;
               && (plan.promotions[i].refsRewritten <==> rewritten)
               && (plan.promotions[i].columns != t.rows[k].fork.columns <==> rewritten)
  {
    assert ValidTables(t);
    hide Readable, Planned, PlanOf, ColumnRefs, ValidTables;
    var live, ps, st, plan := OpenPlan(t, op, digests, forks, secrets);
    PlanOfIsPlanned(t, op, digests, forks, secrets, live, ps, st, plan);
    i := PromotionOf(t, op, digests, forks, secrets, live, ps, st, plan, k);
    RewrittenAt(t, op, digests, forks, secrets, live, ps, st, plan, i);
  }

  /** So a server that, of its workspace's secrets, names only such as collapse moves with its columns as
      they were and its snapshots kept. */
  lemma {:induction false} ServerStandsUnrewritten(t: Tables, op: Operator, digests: Digests, forks: seq<Fork>,
      secrets: seq<Secret>, k: (Id, string)) returns (i: nat)
    requires Readable(t, digests, forks, secrets) && Planned(t, op, digests, forks, secrets).Some?
    requires LiveLocal(t, k)
    requires forall n :: n in ColumnRefs(t.rows[k].fork.columns) && (k.0, n) in t.localVault ==>
      HeldAlready(t, digests, (k.0, n))
    ensures var ps := Planned(t, op, digests, forks, secrets).value.vault.promotions;
            && i < |ps| && ps[i].workspace == k.0 && ps[i].sourceName == k.1
            && ps[i].columns == t.rows[k].fork.columns && !ps[i].refsRewritten
  {
    hide Planned, Merged, F.PlannedForks, F.Tombstones, F.NamesUnique, LiveSecretsOf, ColumnRefs, NamedFromTables;
    i := ServerRewrittenExactly(t, op, digests, forks, secrets, k);
    var live, ps, st, plan := OpenPlan(t, op, digests, forks, secrets);
    RenamedAreSecrets(t, digests, secrets, ps);
    hide PlanOf;
    forall n | n in ColumnRefs(t.rows[k].fork.columns) ensures (k.0, n) !in plan.vault.renames {
      if (k.0, n) in t.localVault { HeldValueCollapses(t, op, digests, forks, secrets, (k.0, n)); }
    }
  }

  lemma {:induction false} RenamedAreSecrets(t: Tables, digests: Digests, secrets: seq<Secret>, ps: seq<Promotion>)
    requires ValidTables(t) && ListsSecrets(t, secrets) && SoundReading(t, digests, secrets)
    requires var live := LiveSecretsOf(t, digests, secrets);
             Merged(VaultInputOf(t, digests), live, ps, |live|).Some?
    ensures var live := LiveSecretsOf(t, digests, secrets);
            forall k :: k in Merged(VaultInputOf(t, digests), live, ps, |live|).value.renames ==> k in t.localVault
  {
    var inp, live := VaultInputOf(t, digests), LiveSecretsOf(t, digests, secrets);
    LiveSecretKeys(t, digests, secrets);
    LiveSecretRows(t, digests, secrets);
    MergedKeepsInvariant(inp, live, ps, t.vault, |live|);
    hide Merged, LiveSecretsOf, NoDuplicates, KeysUnique, SoundDigests;
    forall k | k in Merged(inp, live, ps, |live|).value.renames ensures k in t.localVault {
      var j :| 0 <= j < |live| && live[j].workspace == k.0 && live[j].name == k.1;
      assert live[j] in live;
    }
  }
}
