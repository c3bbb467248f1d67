/** The statements _move_to_user_tier runs, in their order, on mutable tables. */
module UserTierDatabase {
  import opened Options
  import opened UserTierModel
  import F = ForkPlanner
  import V = VaultPlanner
  import S = SnapshotPlanner
  import opened VaultMeaning
  import opened UserTierMove
  import opened UserTierPreservation
  import opened UserTierTheorem
  import opened UserTierAfter

  lemma {:induction false} SwitchOneMore(rows: map<(Id, string), Row>, done: set<(Id, string)>, k: (Id, string))
    requires k !in done
    ensures var off := SwitchedOff(rows, done);
            SwitchedOff(rows, done + {k}) == off[k := Upserted(if k in off then Some(off[k]) else None)]
  {
  }

  lemma {:induction false} InsertFailsOn(servers: map<(User, string), Server>, ps: seq<Promotion>, n: nat)
    requires n <= |ps| && Inserted(servers, ps[..n]).None?
    ensures Inserted(servers, ps).None?
    decreases |ps|
  {
    if n < |ps| {
      assert ps[..|ps| - 1][..n] == ps[..n];
      InsertFailsOn(servers, ps[..|ps| - 1], n);
    } else {
      assert ps[..n] == ps;
    }
  }

  lemma {:induction false} CopyFailsOn(v: Vault, copies: seq<V.Copy>, n: nat)
    requires n <= |copies| && Copied(v, copies[..n]).None?
    ensures Copied(v, copies).None?
    decreases |copies|
  {
    if n < |copies| {
      assert copies[..|copies| - 1][..n] == copies[..n];
      CopyFailsOn(v, copies[..|copies| - 1], n);
    } else {
      assert copies[..n] == copies;
    }
  }

  lemma {:induction false} RenameFailsOn(c: S.Cache, rs: seq<S.Rename>, n: nat)
    requires n <= |rs| && S.RenameEach(c, rs[..n]).None?
    ensures S.RenameEach(c, rs).None?
    decreases |rs|
  {
    if n < |rs| {
      assert rs[..|rs| - 1][..n] == rs[..n];
      RenameFailsOn(c, rs[..|rs| - 1], n);
    } else {
      assert rs[..n] == rs;
    }
  }

  // ----- what a run of inserts comes to -----

  /** No two promotions share a key, and none is held yet. */
  ghost predicate KeysFree(servers: map<(User, string), Server>, ps: seq<Promotion>) {
    F.NamesUnique(ps) && forall i :: 0 <= i < |ps| ==> (ps[i].user, ps[i].name) !in servers
  }

  /** Exactly the planned rows are added; every row there was stands. */
  ghost predicate RowsAdded(a: map<(User, string), Server>, b: map<(User, string), Server>, ps: seq<Promotion>) {
    && (forall k :: k in b <==> k in a || Promotes(ps, k))
    && (forall k :: k in a ==> b[k] == a[k])
    && (forall i :: 0 <= i < |ps| ==>
          (ps[i].user, ps[i].name) in b && b[(ps[i].user, ps[i].name)] == Server(ps[i].columns, ps[i].enabled, false))
  }

  lemma {:induction false} OneMoreFree(servers: map<(User, string), Server>, init: seq<Promotion>, p: Promotion)
    requires KeysFree(servers, init) && (p.user, p.name) !in servers && !Promotes(init, (p.user, p.name))
    ensures KeysFree(servers, init + [p])
  {
  }

  lemma {:induction false} FreeRowsAdded(servers: map<(User, string), Server>, ps: seq<Promotion>)
    requires KeysFree(servers, ps)
    ensures Inserted(servers, ps).Some? && RowsAdded(servers, Inserted(servers, ps).value, ps)
  {
    InsertsLand(servers, ps);
    hide Promotes, Inserted;
  }

  lemma {:induction false} InsertedWereFree(servers: map<(User, string), Server>, ps: seq<Promotion>)
    requires Inserted(servers, ps).Some?
    ensures KeysFree(servers, ps)
    decreases |ps|
  {
    if ps == [] {
    } else {
      var init, p := ps[..|ps| - 1], ps[|ps| - 1];
      InsertedWereFree(servers, init);
      hide KeysFree;
      FreeRowsAdded(servers, init);
      OneMoreFree(servers, init, p);
      assert ps == init + [p];
    }
  }

  /** No two copies share a name, and none is held yet. */
  ghost predicate CopyNamesFree(v: Vault, copies: seq<V.Copy>) {
    && (forall i :: 0 <= i < |copies| ==> (copies[i].user, copies[i].name) !in v)
    && (forall i, j :: 0 <= i < j < |copies| && copies[i].user == copies[j].user ==> copies[i].name != copies[j].name)
  }

  ghost predicate CopiesTo(copies: seq<V.Copy>, k: (User, string)) {
    exists i :: 0 <= i < |copies| && (copies[i].user, copies[i].name) == k
  }

  lemma {:induction false} CopiesToGrows(init: seq<V.Copy>, c: V.Copy)
    ensures forall k :: CopiesTo(init + [c], k) <==> CopiesTo(init, k) || k == (c.user, c.name)
  {
    var all := init + [c];
    forall k ensures CopiesTo(all, k) <==> CopiesTo(init, k) || k == (c.user, c.name) {
      if CopiesTo(init, k) {
        var i :| 0 <= i < |init| && (init[i].user, init[i].name) == k;
        assert all[i] == init[i];
      }
      assert all[|init|] == c;
    }
  }

  /** Copied values stand under their names, no value there was changes, and nothing else appears. */
  ghost predicate ValuesAdded(a: Vault, b: Vault, copies: seq<V.Copy>) {
    && (forall k :: k in b <==> k in a || CopiesTo(copies, k))
    && (forall k :: k in a ==> b[k] == a[k])
    && (forall i :: 0 <= i < |copies| ==>
          (copies[i].user, copies[i].name) in b && b[(copies[i].user, copies[i].name)] == copies[i].secret.value)
  }

  lemma {:induction false} OneMoreCopyFree(v: Vault, init: seq<V.Copy>, c: V.Copy)
    requires CopyNamesFree(v, init) && (c.user, c.name) !in v && !CopiesTo(init, (c.user, c.name))
    ensures CopyNamesFree(v, init + [c])
  {
  }

  lemma {:induction false} LastCopyIsFree(v: Vault, init: seq<V.Copy>, c: V.Copy)
    ensures init + [c] == (init + [c])[..|init|] + [c]
    ensures CopyNamesFree(v, init + [c]) ==>
        CopyNamesFree(v, init) && (c.user, c.name) !in v && !CopiesTo(init, (c.user, c.name))
  {
    var all := init + [c];
    assert all[|init|] == c && forall i :: 0 <= i < |init| ==> all[i] == init[i];
  }

  lemma {:induction false} FreeValuesAdded(v: Vault, copies: seq<V.Copy>)
    requires CopyNamesFree(v, copies)
    ensures Copied(v, copies).Some? && ValuesAdded(v, Copied(v, copies).value, copies)
    decreases |copies|
  {
    if copies == [] {
    } else {
      var init, c := copies[..|copies| - 1], copies[|copies| - 1];
      LastCopyIsFree(v, init, c);
      hide CopiesTo, CopyNamesFree;
      assert copies == init + [c];
      FreeValuesAdded(v, init);
      CopiesToGrows(init, c);
    }
  }

  lemma {:induction false} CopiedWereFree(v: Vault, copies: seq<V.Copy>)
    requires Copied(v, copies).Some?
    ensures CopyNamesFree(v, copies)
    decreases |copies|
  {
    if copies == [] {
    } else {
      var init, c := copies[..|copies| - 1], copies[|copies| - 1];
      CopiedWereFree(v, init);
      hide CopyNamesFree;
      FreeValuesAdded(v, init);
      OneMoreCopyFree(v, init, c);
      assert copies == init + [c];
    }
  }

  class Database {
    var workspaces: map<Id, Workspace>
    var rows: map<(Id, string), Row>
    var servers: map<(User, string), Server>
    var oauth: set<(User, string)>
    var vault: Vault
    var localVault: map<(Id, string), Secret>
    var snapshots: S.Cache
    var pluginRefs: map<User, set<string>>

    ghost function View(): Tables
      reads this
    {
      Tables(workspaces, rows, servers, oauth, vault, localVault, snapshots, pluginRefs)
    }

    method InsertServers(ps: seq<Promotion>) returns (ok: bool)
      modifies this`servers
      ensures ok <==> Inserted(old(servers), ps).Some?
      ensures ok ==> servers == Inserted(old(servers), ps).value
      ensures ok <==> KeysFree(old(servers), ps)
      ensures ok ==> RowsAdded(old(servers), servers, ps)
    {
      if KeysFree(servers, ps) { FreeRowsAdded(servers, ps); }
      if Inserted(servers, ps).Some? { InsertedWereFree(servers, ps); }
      hide KeysFree, RowsAdded;
      ghost var before := servers;
      for i := 0 to |ps|
        invariant Inserted(before, ps[..i]) == Some(servers)
      {
        assert ps[..i + 1][..i] == ps[..i];
        if (ps[i].user, ps[i].name) in servers {
          InsertFailsOn(before, ps, i + 1);
          return false;
        }
        servers := servers[(ps[i].user, ps[i].name) := Server(ps[i].columns, ps[i].enabled, false)];
      }
      assert ps[..|ps|] == ps;
      ok := true;
    }

    method DeleteLocalRows()
      modifies this`rows
      ensures rows == WithoutLocal(old(rows))
    {
      rows := map k | k in rows && !rows[k].Local? :: rows[k];
    }

    method WriteTombstones(tombstones: set<(Id, string)>)
      modifies this`rows
      ensures rows == SwitchedOff(old(rows), tombstones)
    {
      var todo := tombstones;
      ghost var before, done := rows, {};
      while todo != {}
        invariant todo + done == tombstones && todo !! done
        invariant rows == SwitchedOff(before, done)
        decreases todo
      {
        var k :| k in todo;
        SwitchOneMore(before, done, k);
        if k !in rows {
          rows := rows[k := UserMark(false)];
        } else if rows[k].UserMark? {
          rows := rows[k := UserMark(false)];
        }
        todo, done := todo - {k}, done + {k};
      }
    }

    method DeleteSnapshots(names: set<(Id, string)>)
      modifies this`snapshots
      ensures snapshots == S.Deleted(old(snapshots), names)
    {
      snapshots := map k | k in snapshots && (k.0, k.1) !in names :: snapshots[k];
    }

    method RenameSnapshots(rs: seq<S.Rename>) returns (ok: bool)
      modifies this`snapshots
      ensures ok <==> S.RenameEach(old(snapshots), rs).Some?
      ensures ok ==> snapshots == S.RenameEach(old(snapshots), rs).value
      ensures S.Independent(rs) && S.TargetsClear(old(snapshots), rs) ==>
          ok && S.MovesBy(old(snapshots), snapshots, S.RelabelBy(rs))
    {
      hide S.Independent, S.TargetsClear, S.MovesBy, S.RenameOne, S.RelabelBy;
      if S.Independent(rs) && S.TargetsClear(snapshots, rs) { S.SequentialIsSimultaneous(snapshots, rs); }
      ghost var before := snapshots;
      for i := 0 to |rs|
        invariant S.RenameEach(before, rs[..i]) == Some(snapshots)
      {
        assert rs[..i + 1][..i] == rs[..i];
        var renamed := S.RenameOne(snapshots, rs[i]);
        if renamed.None? {
          RenameFailsOn(before, rs, i + 1);
          return false;
        }
        snapshots := renamed.value;
      }
      assert rs[..|rs|] == rs;
      ok := true;
    }

    method CopySecrets(copies: seq<V.Copy>) returns (ok: bool)
      modifies this`vault
      ensures ok <==> Copied(old(vault), copies).Some?
      ensures ok ==> vault == Copied(old(vault), copies).value
      ensures ok <==> CopyNamesFree(old(vault), copies)
      ensures ok ==> ValuesAdded(old(vault), vault, copies)
    {
      if CopyNamesFree(vault, copies) { FreeValuesAdded(vault, copies); }
      if Copied(vault, copies).Some? { CopiedWereFree(vault, copies); }
      hide CopyNamesFree, ValuesAdded;
      ghost var before := vault;
      for i := 0 to |copies|
        invariant Copied(before, copies[..i]) == Some(vault)
      {
        assert copies[..i + 1][..i] == copies[..i];
        if (copies[i].user, copies[i].name) in vault {
          CopyFailsOn(before, copies, i + 1);
          return false;
        }
        vault := vault[(copies[i].user, copies[i].name) := copies[i].secret.value];
      }
      assert copies[..|copies|] == copies;
      ok := true;
    }

    /** Each copy is made before the rows it came from are deleted; every local row is gone before
        a tombstone is written; snapshots are cleared before they are renamed. */
    method ApplyPlan(plan: Plan) returns (ok: bool)
      modifies this
      ensures ok <==> Applied(old(View()), plan).Some?
      ensures ok ==> View() == Applied(old(View()), plan).value
    {
      hide KeysFree, RowsAdded, CopyNamesFree, ValuesAdded, S.Independent, S.TargetsClear, S.MovesBy;
      hide Inserted, Copied, SwitchedOff, WithoutLocal, S.Renames, S.Deletes, S.Deleted, S.RenameEach;
      var inserted := InsertServers(plan.vault.promotions);
      if !inserted { return false; }
      DeleteLocalRows();
      WriteTombstones(plan.forks.tombstones);
      var deletes, renames := S.PlanToolSchemas(plan.vault.promotions, plan.forks.dropped);
      DeleteSnapshots(deletes + set r | r in renames :: (r.workspace, r.target));
      var renamed := RenameSnapshots(renames);
      if !renamed { return false; }
      var copied := CopySecrets(plan.vault.copies);
      if !copied { return false; }
      localVault := map[];
      ok := true;
    }

    method MakePlan(op: Operator, digests: Digests, forks: seq<Fork>, secrets: seq<Secret>) returns (plan: Option<Plan>)
      requires Readable(View(), digests, forks, secrets)
      ensures plan == Planned(View(), op, digests, forks, secrets)
    {
      hide F.PlannedForks, V.PlannedVault, Reserved, AccountRefs;
      var t := Tables(workspaces, rows, servers, oauth, vault, localVault, snapshots, pluginRefs);
      forall i | 0 <= i < |forks| ensures ForkInputOf(t, op).Knows(forks[i]) {
        assert forks[i] in forks;
        assert (forks[i].workspace, forks[i].name) in t.rows;
      }
      forall i | 0 <= i < |secrets| ensures VaultInputOf(t, digests).Knows(secrets[i]) {
        assert secrets[i] in secrets;
        assert (secrets[i].workspace, secrets[i].name) in t.localVault;
      }
      var forkPlan := F.PlanForks(ForkInputOf(t, op), forks);
      if forkPlan.None? { return None; }
      var vaultPlan := V.PlanVault(VaultInputOf(t, digests), secrets, forkPlan.value.promotions);
      if vaultPlan.None? { return None; }
      plan := Some(Plan(forkPlan.value, vaultPlan.value));
    }

    /** The whole move. A failed name search raises before anything is written; nothing else can
        fail, every live workspace runs afterwards what it ran before, and every local server, running
        or not, has its account row. */
    method MoveToUserTier(op: Operator, digests: Digests, forks: seq<Fork>, secrets: seq<Secret>)
      returns (plan: Option<Plan>)
      requires Readable(View(), digests, forks, secrets)
      modifies this
      ensures plan == Planned(old(View()), op, digests, forks, secrets)
      ensures plan.None? ==> View() == old(View())
      ensures plan.Some? ==> Applied(old(View()), plan.value) == Some(View()) && workspaces == old(workspaces)
      ensures plan.Some? ==> forall w :: w in old(workspaces) && old(workspaces)[w].Live() ==>
                RunsAfter(View(), op, plan.value.vault.promotions, w) == RanBefore(old(View()), op, w)
      ensures plan.Some? ==> AllMoved(old(View()), op, View())
    {
      hide Readable, Planned, Applied, RunsAfter, RanBefore, AllMoved;
      ghost var before := View();
      plan := MakePlan(op, digests, forks, secrets);
      if plan.Some? {
        PlanApplies(before, op, digests, forks, secrets);
        EverythingMoves(before, op, digests, forks, secrets);
        var ok := ApplyPlan(plan.value);
        AppliedKeepsWorkspaces(before, plan.value);
        forall w | w in before.workspaces && before.workspaces[w].Live()
          ensures RunsAfter(View(), op, plan.value.vault.promotions, w) == RanBefore(before, op, w)
        {
          MigrationPreservesEveryWorkspace(before, op, digests, forks, secrets, w);
        }
      }
    }
  }

  lemma {:induction false} AppliedKeepsWorkspaces(t: Tables, plan: Plan)
    requires Applied(t, plan).Some?
    ensures Applied(t, plan).value.workspaces == t.workspaces
  {
  }
}
