/** Migration 055 as a whole keeps what every live workspace runs, and what it resolves to. */
module UserTierPreservation {
  import opened Options
  import opened UserTierModel
  import F = ForkPlanner
  import V = VaultPlanner
  import S = SnapshotPlanner
  import opened VaultMeaning
  import opened UserTierMove

  // ----- facts about a plan made from valid tables -----

  /** live is exactly the local rows of live workspaces, and ps names each of them. */
  ghost predicate NamedFromTables(t: Tables, op: Operator, live: seq<Fork>, ps: seq<Promotion>) {
    var inp := ForkInputOf(t, op);
    && F.AllKnown(inp, live) && |ps| == |live|
    && (forall i :: 0 <= i < |live| ==>
        (live[i].workspace, live[i].name) in t.rows && t.rows[(live[i].workspace, live[i].name)] == Local(live[i])
                                        && t.workspaces[live[i].workspace].Live())
    && (forall k :: k in t.rows && t.rows[k].Local? && k.0 in t.workspaces && t.workspaces[k.0].Live() ==>
        exists i :: 0 <= i < |live| && t.rows[k] == Local(live[i]))
    && (forall i, j :: 0 <= i < j < |live| && live[i].workspace == live[j].workspace ==> live[i].name != live[j].name)
    && (forall i :: 0 <= i < |live| ==> F.WellNamed(inp, live, ps[i], i))
    && F.NamesUnique(ps)
  }

  function LiveOf(t: Tables, op: Operator, forks: seq<Fork>): seq<Fork> {
    F.LiveForks(ForkInputOf(t, op), Sorted(forks, F.FORK_STAMP))
  }

  lemma {:induction false} LiveRows(t: Tables, op: Operator, forks: seq<Fork>)
    requires ValidTables(t) && ListsForks(t, forks)
    ensures NoDuplicates(LiveOf(t, op, forks))
    ensures forall f :: f in LiveOf(t, op, forks) <==> f in forks && t.workspaces[f.workspace].Live()
  {
    var inp := ForkInputOf(t, op);
    SameRows(forks, Sorted(forks, F.FORK_STAMP));
    FilterNoDuplicates(Sorted(forks, F.FORK_STAMP), F.Live(inp));
    forall f ensures f in LiveOf(t, op, forks) <==> f in forks && t.workspaces[f.workspace].Live() {
      assert f in forks ==> (f.workspace, f.name) in t.rows;
    }
  }

  lemma {:induction false} PlanIsNamedFromTables(t: Tables, op: Operator, forks: seq<Fork>)
    requires ValidTables(t) && ListsForks(t, forks)
    requires F.PlannedForks(ForkInputOf(t, op), forks).Some?
    ensures NamedFromTables(t, op, LiveOf(t, op, forks), F.PlannedForks(ForkInputOf(t, op), forks).value.promotions)
  {
    hide F.WellNamed, F.ForkNameFor;
    var inp, live := ForkInputOf(t, op), LiveOf(t, op, forks);
    LiveRows(t, op, forks);
    F.PromotionsAreWellNamed(inp, live, |live|);
    forall k | k in t.rows && t.rows[k].Local? && t.workspaces[k.0].Live()
      ensures exists i :: 0 <= i < |live| && t.rows[k] == Local(live[i])
    {
      assert t.rows[k].fork in live;
    }
    forall i, j | 0 <= i < j < |live| && live[i].workspace == live[j].workspace ensures live[i].name != live[j].name {
      assert live[i] in live && live[j] in live;
    }
    forall i | 0 <= i < |live|
      ensures (live[i].workspace, live[i].name) in t.rows && t.rows[(live[i].workspace, live[i].name)] == Local(live[i])
      ensures t.workspaces[live[i].workspace].Live()
    {
      assert live[i] in live;
    }
  }

  lemma {:induction false} HeldNames(t: Tables, op: Operator, u: User, n: string)
    ensures n in ForkInputOf(t, op).Held(u) <==> (u, n) in t.servers || (u, n) in t.oauth
  {
    GroupedNames(t.servers.Keys, u, n);
    GroupedNames(t.oauth, u, n);
  }

  /** A promoted name, against everything that could switch it on or off by accident. */
  lemma {:induction false} PromotedNameIsClear(t: Tables, op: Operator, live: seq<Fork>, ps: seq<Promotion>, i: nat)
    requires NamedFromTables(t, op, live, ps) && i < |ps|
    ensures live[i].workspace in t.workspaces && t.workspaces[live[i].workspace].Live()
    ensures (live[i].workspace, live[i].name) in t.rows && t.rows[(live[i].workspace, live[i].name)] == Local(live[i])
    ensures ps[i] == Promotion(t.workspaces[live[i].workspace].user, live[i].workspace, live[i].name, ps[i].name,
        live[i].columns,
                               live[i].enabled && live[i].name !in op.Skipped(), false)
    ensures ps[i].name !in Reserved(t, op)
    ensures (ps[i].user, ps[i].name) !in t.servers && (ps[i].user, ps[i].name) !in t.oauth
    ensures (ps[i].workspace, ps[i].name) in t.rows ==> t.rows[(ps[i].workspace, ps[i].name)].Local?
    ensures forall w :: (w, ps[i].name) in t.rows ==> !t.rows[(w, ps[i].name)].BuiltinMark?
  {
    var inp, p := ForkInputOf(t, op), ps[i];
    assert F.WellNamed(inp, live, p, i);
    HeldNames(t, op, p.user, p.name);
    assert inp.Knows(live[i]);
    MarkerNames(t, p.workspace, p.name);
    forall w | (w, p.name) in t.rows ensures !t.rows[(w, p.name)].BuiltinMark? {
      var k := (w, p.name);
      assert t.rows[k].BuiltinMark? ==> k.1 in Reserved(t, op);
    }
  }

  lemma {:induction false} OnePromotionPerName(t: Tables, op: Operator, live: seq<Fork>, ps: seq<Promotion>, i: nat,
      j: nat)
    requires NamedFromTables(t, op, live, ps) && i < |ps| && j < |ps|
    requires ps[i].user == ps[j].user && ps[i].name == ps[j].name
    ensures i == j
  {
  }

  // ----- which tombstones a plan writes -----

  /** A promoted name is switched off in exactly the live workspaces where its definition never ran. */
  lemma {:induction false} PromotedTombstones(t: Tables, op: Operator, live: seq<Fork>, ps: seq<Promotion>, i: nat,
      w: Id)
    requires NamedFromTables(t, op, live, ps) && i < |ps|
    requires w in t.workspaces && t.workspaces[w].Live() && t.workspaces[w].user == ps[i].user
    ensures (w, ps[i].name) in F.Tombstones(ForkInputOf(t, op), ps) <==> w != ps[i].workspace || !ps[i].enabled
  {
    hide F.Tombstones, NamedFromTables, Reserved, F.WellNamed, F.NamesUnique;
    var inp, p := ForkInputOf(t, op), ps[i];
    if (w, p.name) in F.Tombstones(inp, ps) {
      var j :| 0 <= j < |ps| && (w, p.name) in F.TombstonesOf(inp, ps[j]);
      PromotedNameIsClear(t, op, live, ps, i);
      PromotedNameIsClear(t, op, live, ps, j);
      HeldNames(t, op, ps[j].user, p.name);
      OnePromotionPerName(t, op, live, ps, i, j);
    }
    if w != p.workspace || !p.enabled {
      assert inp.LiveFor(w, p.user);
      assert (w, p.name) in F.TombstonesOf(inp, p);
    }
  }

  lemma {:induction false} AccountTombstoneShadows(t: Tables, op: Operator, live: seq<Fork>, ps: seq<Promotion>,
      j: nat, w: Id, n: string)
    requires NamedFromTables(t, op, live, ps) && j < |ps|
    requires w in t.workspaces && (t.workspaces[w].user, n) in t.servers
    requires (w, n) in F.TombstonesOf(ForkInputOf(t, op), ps[j])
    ensures Shadowed(t, op, (w, n))
  {
    PromotedNameIsClear(t, op, live, ps, j);
    hide NamedFromTables, Reserved, F.WellNamed, F.NamesUnique;
  }

  lemma {:induction false} ShadowIsTombstoned(t: Tables, op: Operator, live: seq<Fork>, ps: seq<Promotion>, i: nat)
    requires NamedFromTables(t, op, live, ps) && i < |ps|
    requires (ps[i].user, ps[i].sourceName) in t.servers
    requires Shadowed(t, op, (ps[i].workspace, ps[i].sourceName))
    ensures (ps[i].workspace, ps[i].sourceName) in F.TombstonesOf(ForkInputOf(t, op), ps[i])
  {
    hide NamedFromTables;
    HeldNames(t, op, ps[i].user, ps[i].sourceName);
  }

  /** An account server's own name is switched off in exactly the workspaces whose local row shadowed it. */
  lemma {:induction false} AccountTombstones(t: Tables, op: Operator, live: seq<Fork>, ps: seq<Promotion>, w: Id,
      n: string)
    requires NamedFromTables(t, op, live, ps) && ValidTables(t)
    requires w in t.workspaces && t.workspaces[w].Live() && (t.workspaces[w].user, n) in t.servers
    ensures (w, n) in F.Tombstones(ForkInputOf(t, op), ps) <==> Shadowed(t, op, (w, n))
  {
    hide F.Tombstones, F.TombstonesOf, NamedFromTables;
    var inp := ForkInputOf(t, op);
    if (w, n) in F.Tombstones(inp, ps) {
      var j :| 0 <= j < |ps| && (w, n) in F.TombstonesOf(inp, ps[j]);
      AccountTombstoneShadows(t, op, live, ps, j, w, n);
    }
    if Shadowed(t, op, (w, n)) {
      var i := ShadowingFork(t, op, live, ps, w, n);
      PromotedNameIsClear(t, op, live, ps, i);
      ShadowIsTombstoned(t, op, live, ps, i);
    }
  }

  lemma {:induction false} ShadowingFork(t: Tables, op: Operator, live: seq<Fork>, ps: seq<Promotion>, w: Id,
      n: string) returns (i: nat)
    requires NamedFromTables(t, op, live, ps) && ValidTables(t)
    requires w in t.workspaces && t.workspaces[w].Live()
    requires (w, n) in t.rows && t.rows[(w, n)].Local?
    ensures i < |ps| == |live| && live[i].workspace == w && live[i].name == n
  {
    hide F.WellNamed, F.NamesUnique;
    var k := (w, n);
    i :| 0 <= i < |live| && t.rows[k] == Local(live[i]);
  }

  function RowsAfter(t: Tables, op: Operator, ps: seq<Promotion>): map<(Id, string), Row> {
    SwitchedOff(WithoutLocal(t.rows), F.Tombstones(ForkInputOf(t, op), ps))
  }

  /** Each promoted copy is on in its own workspace alone, and only if its original ran there. */
  lemma {:induction false} PromotedSwitches(t: Tables, op: Operator, live: seq<Fork>, ps: seq<Promotion>, i: nat, w: Id)
    requires NamedFromTables(t, op, live, ps) && i < |ps|
    requires w in t.workspaces && t.workspaces[w].Live() && t.workspaces[w].user == ps[i].user
    ensures Tombstoned(RowsAfter(t, op, ps), (w, ps[i].name)) <==> w != ps[i].workspace || !ps[i].enabled
  {
    hide F.Tombstones, NamedFromTables;
    PromotedTombstones(t, op, live, ps, i, w);
    PromotedNameIsClear(t, op, live, ps, i);
  }

  /** Every account server is off after exactly where it was tombstoned or shadowed before. */
  lemma {:induction false} AccountSwitches(t: Tables, op: Operator, live: seq<Fork>, ps: seq<Promotion>, w: Id,
      n: string)
    requires NamedFromTables(t, op, live, ps) && ValidTables(t)
    requires w in t.workspaces && t.workspaces[w].Live() && (t.workspaces[w].user, n) in t.servers
    ensures Tombstoned(RowsAfter(t, op, ps), (w, n)) <==> Tombstoned(t.rows, (w, n)) || Shadowed(t, op, (w, n))
  {
    hide F.Tombstones, NamedFromTables;
    AccountTombstones(t, op, live, ps, w, n);
  }

  // ----- the inserts -----

  /** qs is ps with columns rewritten: the same servers under the same names. */
  ghost predicate SameServers(ps: seq<Promotion>, qs: seq<Promotion>) {
    |qs| == |ps| && forall i :: 0 <= i < |ps| ==>
      && qs[i].user == ps[i].user && qs[i].workspace == ps[i].workspace && qs[i].sourceName == ps[i].sourceName
      && qs[i].name == ps[i].name && qs[i].enabled == ps[i].enabled
  }

  lemma {:induction false} OriginOfPromotion(qs: seq<Promotion>, i: nat)
    requires F.NamesUnique(qs) && i < |qs|
    ensures Origin(qs, (qs[i].user, qs[i].name)) == OfWorkspace(qs[i].workspace, qs[i].sourceName)
  {
    var init := qs[..|qs| - 1];
    if i < |init| { OriginOfPromotion(init, i); }
  }

  lemma {:induction false} OriginOfAccount(qs: seq<Promotion>, k: (User, string))
    requires forall i :: 0 <= i < |qs| ==> (qs[i].user, qs[i].name) != k
    ensures Origin(qs, k) == OfAccount(k.0, k.1)
  {
    if qs == [] {
    } else {
      OriginOfAccount(qs[..|qs| - 1], k);
    }
  }

  ghost predicate Promotes(qs: seq<Promotion>, k: (User, string)) {
    exists i :: 0 <= i < |qs| && (qs[i].user, qs[i].name) == k
  }

  lemma {:induction false} PromotesGrows(init: seq<Promotion>, p: Promotion)
    ensures forall k :: Promotes(init + [p], k) <==> Promotes(init, k) || k == (p.user, p.name)
  {
    var qs := init + [p];
    forall k ensures Promotes(qs, k) <==> Promotes(init, k) || k == (p.user, p.name) {
      if Promotes(init, k) {
        var i :| 0 <= i < |init| && (init[i].user, init[i].name) == k;
        assert qs[i] == init[i];
      }
      assert qs[|init|] == p;
    }
  }

  /** Every insert lands, on a name of its own, and no existing server changes. */
  lemma {:induction false} InsertsLand(servers: map<(User, string), Server>, qs: seq<Promotion>)
    requires F.NamesUnique(qs)
    requires forall i :: 0 <= i < |qs| ==> (qs[i].user, qs[i].name) !in servers
    ensures Inserted(servers, qs).Some?
    ensures forall k :: k in Inserted(servers, qs).value <==> k in servers || Promotes(qs, k)
    ensures forall k :: k in servers ==> Inserted(servers, qs).value[k] == servers[k]
    ensures forall i :: 0 <= i < |qs| ==> (qs[i].user, qs[i].name) in Inserted(servers, qs).value
                                          && Inserted(servers, qs).value[(qs[i].user, qs[i].name)] == RowOf(qs[i])
  {
    if qs == [] {
    } else {
      var init, p := qs[..|qs| - 1], qs[|qs| - 1];
      InsertsLand(servers, init);
      assert !Promotes(init, (p.user, p.name));
      assert qs == init + [p];
      hide Promotes, F.NamesUnique;
      PromotesGrows(init, p);
    }
  }

  // ----- the vault side -----

  function LiveSecretsOf(t: Tables, digests: map<(User, string), Option<Digest>>, secrets: seq<Secret>): seq<Secret> {
    V.LiveSecrets(VaultInputOf(t, digests), Sorted(secrets, V.SECRET_STAMP))
  }

  lemma {:induction false} LiveSecretRows(t: Tables, digests: map<(User, string), Option<Digest>>, secrets: seq<Secret>)
    requires ValidTables(t) && ListsSecrets(t, secrets)
    ensures var live := LiveSecretsOf(t, digests, secrets);
            NoDuplicates(live) && forall s :: s in live <==> s in secrets && t.workspaces[s.workspace].Live()
  {
    var inp, sorted := VaultInputOf(t, digests), Sorted(secrets, V.SECRET_STAMP);
    SameRows(secrets, sorted);
    FilterNoDuplicates(sorted, V.Live(inp));
    forall s ensures s in LiveSecretsOf(t, digests, secrets) <==> s in secrets && t.workspaces[s.workspace].Live() {
      assert s in secrets ==> (s.workspace, s.name) in t.localVault;
    }
  }

  lemma {:induction false} LiveSecretKeys(t: Tables, digests: map<(User, string), Option<Digest>>, secrets: seq<Secret>)
    requires ValidTables(t) && ListsSecrets(t, secrets) && SoundReading(t, digests, secrets)
    ensures var live := LiveSecretsOf(t, digests, secrets);
            KeysUnique(live) && SoundDigests(VaultInputOf(t, digests), t.vault, live)
  {
    var live := LiveSecretsOf(t, digests, secrets);
    LiveSecretRows(t, digests, secrets);
    forall i, j | 0 <= i < j < |live| && live[i].workspace == live[j].workspace ensures live[i].name != live[j].name {
      assert live[i] in live && live[j] in live;
    }
  }

  lemma {:induction false} LocalViewIsListed(t: Tables, digests: map<(User, string), Option<Digest>>,
      secrets: seq<Secret>, w: Id)
    requires ValidTables(t) && ListsSecrets(t, secrets)
    requires w in t.workspaces && t.workspaces[w].Live()
    ensures LocalViewOf(LiveSecretsOf(t, digests, secrets), w, LocalView(t, w))
  {
    var live := LiveSecretsOf(t, digests, secrets);
    LiveSecretRows(t, digests, secrets);
    forall n | n in LocalView(t, w) ensures n in V.LocalNames(live, w) {
      assert t.localVault[(w, n)] in live;
    }
    forall s | s in live && s.workspace == w ensures s.name in LocalView(t, w) && LocalView(t, w)[s.name] == s.value {
      assert (s.workspace, s.name) in t.localVault;
    }
    forall n | n in V.LocalNames(live, w) ensures n in LocalView(t, w) {
      var i :| 0 <= i < |live| && live[i].workspace == w && live[i].name == n;
      assert live[i] in live;
    }
  }

  lemma {:induction false} CopiesLand(v: Vault, copies: seq<V.Copy>)
    requires Fresh(v, copies)
    ensures Copied(v, copies) == Some(Landed(v, copies))
  {
    if copies == [] {
    } else {
      CopiesLand(v, copies[..|copies| - 1]);
    }
  }
}
