/** What plan_vault preserves: the value behind every reference, and every value already held. */
module VaultMeaning {
  import opened Options
  import opened UserTierModel
  import opened ServerNames
  import opened VaultRefs
  import opened VaultPlanner

  type Vault = map<(User, string), Value>

  /** The user vault once the planned copies are inserted. */
  function Landed(v: Vault, copies: seq<Copy>): Vault {
    if copies == [] then v
    else
      var c := copies[|copies| - 1];
      Landed(v, copies[..|copies| - 1])[(c.user, c.name) := c.secret.value]
  }

  /** No copy lands on a name already there, so no insert can fail or overwrite. */
  predicate Fresh(v: Vault, copies: seq<Copy>) {
    copies == [] ||
    var c, init := copies[|copies| - 1], copies[..|copies| - 1];
    Fresh(v, init) && (c.user, c.name) !in Landed(v, init)
  }

  /** The table key UNIQUE(workspace_id, name). */
  ghost predicate KeysUnique(live: seq<Secret>) {
    forall i, j :: 0 <= i < j < |live| && live[i].workspace == live[j].workspace ==> live[i].name != live[j].name
  }

  /** Equal digests mean equal values; a missing digest says nothing. */
  ghost predicate SoundDigests(inp: VaultInput, v: Vault, live: seq<Secret>) {
    && inp.userSecrets.Keys == v.Keys
    && (forall k, s :: k in v && s in live && s.digest.Some? && inp.userSecrets[k] == s.digest ==> v[k] == s.value)
    && (forall s, t :: s in live && t in live && s.digest.Some? && s.digest == t.digest ==> s.value == t.value)
  }

  function TargetName(renames: map<(Id, string), string>, s: Secret): string {
    if (s.workspace, s.name) in renames then renames[(s.workspace, s.name)] else s.name
  }

  ghost predicate Extends(v0: Vault, v: Vault) { forall k :: k in v0 ==> k in v && v[k] == v0[k] }

  ghost predicate HeldMatches(st: VaultState, live: seq<Secret>, v: Vault) {
    && st.held.Keys == v.Keys
    && forall k, s :: k in v && s in live && s.digest.Some? && st.held[k] == s.digest ==> v[k] == s.value
  }

  /** The first n secrets are readable in the account under their target names. */
  ghost predicate Arrived(inp: VaultInput, live: seq<Secret>, n: nat, renames: map<(Id, string), string>, v: Vault)
    requires AllKnown(inp, live) && n <= |live|
  {
    forall j :: 0 <= j < n ==>
      var k := (inp.UserOf(live[j]), TargetName(renames, live[j])); k in v && v[k] == live[j].value
  }

  ghost predicate RenamesFrom(live: seq<Secret>, n: nat, renames: map<(Id, string), string>)
    requires n <= |live|
  {
    forall k :: k in renames ==>
      && (exists j :: 0 <= j < n && live[j].workspace == k.0 && live[j].name == k.1)
      && (IsRefName(k.1) ==> IsRefName(renames[k]))
  }

  ghost predicate AskedUntouched(inp: VaultInput, live: seq<Secret>, ps: seq<Promotion>, v0: Vault, v: Vault)
    requires AllKnown(inp, live)
  {
    forall k :: k in v && k.1 in Asked(inp, live, ps, k.0) ==> k in v0
  }

  ghost predicate Invariant(inp: VaultInput, live: seq<Secret>, ps: seq<Promotion>, v0: Vault, n: nat, st: VaultState)
    requires AllKnown(inp, live) && n <= |live|
  {
    var v := Landed(v0, st.copies);
    && Fresh(v0, st.copies)
    && Extends(v0, v)
    && HeldMatches(st, live, v)
    && Arrived(inp, live, n, st.renames, v)
    && RenamesFrom(live, n, st.renames)
    && AskedUntouched(inp, live, ps, v0, v)
  }

  /** What placing one secret does to the vault: nothing, or one new name. */
  lemma {:induction false} PlacedLands(v0: Vault, st: VaultState, u: User, s: Secret, name: string)
    requires st.held.Keys == Landed(v0, st.copies).Keys && Fresh(v0, st.copies)
    ensures var st' := Placed(st, u, s, name);
            var v, v' := Landed(v0, st.copies), Landed(v0, st'.copies);
            Fresh(v0, st'.copies) &&
            v' == if (u, name) in st.held then v else v[(u, name) := s.value]
  {
    var st' := Placed(st, u, s, name);
    if (u, name) !in st.held {
      assert st'.copies[..|st.copies|] == st.copies;
    }
  }

  lemma {:induction false} ArrivedStep(inp: VaultInput, live: seq<Secret>, n: nat, st: VaultState, name: string,
      v: Vault, v': Vault)
    requires AllKnown(inp, live) && n < |live| && KeysUnique(live)
    requires Arrived(inp, live, n, st.renames, v) && RenamesFrom(live, n, st.renames)
    requires Extends(v, v')
    requires (inp.UserOf(live[n]), name) in v' && v'[(inp.UserOf(live[n]), name)] == live[n].value
    ensures Arrived(inp, live, n + 1, Placed(st, inp.UserOf(live[n]), live[n], name).renames, v')
  {
    var s := live[n];
    var renames' := Placed(st, inp.UserOf(s), s, name).renames;
    assert (s.workspace, s.name) !in st.renames;
    assert TargetName(renames', s) == name;
    forall j | 0 <= j < n ensures TargetName(renames', live[j]) == TargetName(st.renames, live[j]) {
      assert live[j].workspace != s.workspace || live[j].name != s.name;
    }
  }

  lemma {:induction false} RenamesStep(inp: VaultInput, live: seq<Secret>, n: nat, st: VaultState, name: string)
    requires AllKnown(inp, live) && n < |live|
    requires RenamesFrom(live, n, st.renames)
    requires IsRefName(live[n].name) ==> IsRefName(name)
    ensures RenamesFrom(live, n + 1, Placed(st, inp.UserOf(live[n]), live[n], name).renames)
  {
    var s := live[n];
    var renames' := Placed(st, inp.UserOf(s), s, name).renames;
    forall k | k in renames'
      ensures exists j :: 0 <= j < n + 1 && live[j].workspace == k.0 && live[j].name == k.1
    {
      if k in st.renames {
        var j :| 0 <= j < n && live[j].workspace == k.0 && live[j].name == k.1;
      } else {
        assert live[n].workspace == k.0 && live[n].name == k.1;
      }
    }
  }

  lemma {:induction false} HeldStep(st: VaultState, live: seq<Secret>, u: User, s: Secret, name: string, v: Vault)
    requires HeldMatches(st, live, v) && s in live
    requires forall t :: t in live && t.digest.Some? && t.digest == s.digest ==> t.value == s.value
    requires (u, name) in v ==> v[(u, name)] == s.value
    ensures HeldMatches(Placed(st, u, s, name), live, if (u, name) in v then v else v[(u, name) := s.value])
  {
  }

  lemma {:induction false} InvariantStep(inp: VaultInput, live: seq<Secret>, ps: seq<Promotion>, v0: Vault, n: nat,
      st: VaultState, name: string)
    requires AllKnown(inp, live) && n < |live| && KeysUnique(live) && SoundDigests(inp, v0, live)
    requires Invariant(inp, live, ps, v0, n, st)
    requires MayUse(SearchFor(inp, live, ps, st, live[n]), name)
    requires IsRefName(live[n].name) ==> IsRefName(name)
    ensures Invariant(inp, live, ps, v0, n + 1, Placed(st, inp.UserOf(live[n]), live[n], name))
  {
    hide Originals, Asked, Landed, Fresh, Arrived, RenamesFrom, IsRefName;
    var s, u := live[n], inp.UserOf(live[n]);
    var st' := Placed(st, u, s, name);
    PlacedLands(v0, st, u, s, name);
    var v, v' := Landed(v0, st.copies), Landed(v0, st'.copies);
    if (u, name) in v { assert st.held[(u, name)] == s.digest; }
    HeldStep(st, live, u, s, name, v);
    ArrivedStep(inp, live, n, st, name, v, v');
    RenamesStep(inp, live, n, st, name);
  }

  lemma {:induction false} NothingMerged(inp: VaultInput, live: seq<Secret>, ps: seq<Promotion>, v0: Vault)
    requires AllKnown(inp, live) && SoundDigests(inp, v0, live)
    ensures Merged(inp, live, ps, 0).Some? && Invariant(inp, live, ps, v0, 0, Merged(inp, live, ps, 0).value)
  {
    hide Asked, Originals;
  }

  /** The last secret placed, when n of them are merged. */
  lemma {:induction false} LastMerged(inp: VaultInput, live: seq<Secret>, ps: seq<Promotion>, n: nat)
    returns (st: VaultState, name: string)
    requires AllKnown(inp, live) && 0 < n <= |live| && Merged(inp, live, ps, n).Some?
    ensures Merged(inp, live, ps, n - 1) == Some(st)
    ensures SecretNameFor(SearchFor(inp, live, ps, st, live[n - 1])) == Some(name)
    ensures Merged(inp, live, ps, n) == Some(Placed(st, inp.UserOf(live[n - 1]), live[n - 1], name))
  {
    hide SecretNameFor, SearchFor, Placed;
    st := Merged(inp, live, ps, n - 1).value;
    name := SecretNameFor(SearchFor(inp, live, ps, st, live[n - 1])).value;
  }

  lemma {:induction false} MergeStepKeepsInvariant(
    inp: VaultInput, live: seq<Secret>, ps: seq<Promotion>, v0: Vault, n: nat, st: VaultState, name: string)
    requires AllKnown(inp, live) && n < |live| && KeysUnique(live) && SoundDigests(inp, v0, live)
    requires Invariant(inp, live, ps, v0, n, st)
    requires SecretNameFor(SearchFor(inp, live, ps, st, live[n])) == Some(name)
    ensures Invariant(inp, live, ps, v0, n + 1, Placed(st, inp.UserOf(live[n]), live[n], name))
  {
    hide SecretNameFor, SearchFor, Placed, Invariant, KeysUnique, SoundDigests, MayUse;
    SecretNameIsUsable(SearchFor(inp, live, ps, st, live[n]));
    SearchSecret(inp, live, ps, st, live[n]);
    InvariantStep(inp, live, ps, v0, n, st, name);
  }

  lemma {:induction false} MergedKeepsInvariant(inp: VaultInput, live: seq<Secret>, ps: seq<Promotion>, v0: Vault,
      n: nat)
    requires AllKnown(inp, live) && n <= |live| && KeysUnique(live) && SoundDigests(inp, v0, live)
    requires Merged(inp, live, ps, n).Some?
    ensures Invariant(inp, live, ps, v0, n, Merged(inp, live, ps, n).value)
  {
    hide Invariant, KeysUnique, SoundDigests, Merged, SecretNameFor, SearchFor, Placed;
    if n == 0 {
      NothingMerged(inp, live, ps, v0);
    } else {
      var st, name := LastMerged(inp, live, ps, n);
      MergedKeepsInvariant(inp, live, ps, v0, n - 1);
      MergeStepKeepsInvariant(inp, live, ps, v0, n - 1, st, name);
    }
  }

  lemma {:induction false} SearchSecret(inp: VaultInput, live: seq<Secret>, ps: seq<Promotion>, st: VaultState,
      s: Secret)
    requires AllKnown(inp, live) && inp.Knows(s)
    ensures SearchFor(inp, live, ps, st, s).secret == s
  {
  }

  lemma {:induction false} SecretNameIsUsable(x: SecretSearch)
    requires SecretNameFor(x).Some?
    ensures MayUse(x, SecretNameFor(x).value)
    ensures IsRefName(x.secret.name) ==> IsRefName(SecretNameFor(x).value)
  {
    var n := FirstFromFinds(x.secret.name, Usable(x), 1);
    if IsRefName(x.secret.name) { SecretNameStaysReferencable(x); }
  }

  // ----- the meaning of a definition -----

  datatype Meaning = Meaning(
    args: seq<seq<Part<Value>>>, url: Option<seq<Part<Value>>>,
    env: map<string, seq<Part<Value>>>, headers: map<string, seq<Part<Value>>>, other: string)

  function MeaningOf(c: Columns, view: map<string, Value>): Meaning {
    Meaning(
      seq(|c.args|, i requires 0 <= i < |c.args| => Resolved(c.args[i], view)),
      if c.url.Some? then Some(Resolved(c.url.value, view)) else None,
      map k | k in c.env :: Resolved(c.env[k], view),
      map k | k in c.headers :: Resolved(c.headers[k], view),
      c.other)
  }

  function AccountView(v: Vault, u: User): map<string, Value> {
    map k | k in v && k.0 == u :: k.1 := v[k]
  }

  /** Moving a definition between views that agree up to the renames keeps its meaning. */
  lemma {:induction false} ColumnsKeepMeaning(c: Columns, m: map<string, string>, before: map<string, Value>,
      after: map<string, Value>)
    requires forall n :: n in m && IsRefName(n) ==> IsRefName(m[n])
    requires forall n :: n in ColumnRefs(c) && n in before ==>
        Renamed(m, n) in after && after[Renamed(m, n)] == before[n]
    requires forall n :: n in ColumnRefs(c) && n !in before ==> Renamed(m, n) == n && n !in after
    ensures MeaningOf(RewriteColumns(c, m), after) == MeaningOf(c, before)
  {
    hide RefsOf, Rewrite, Resolved;
    forall i | 0 <= i < |c.args| ensures Resolved(Rewrite(c.args[i], m), after) == Resolved(c.args[i], before) {
      assert RefsOf(c.args[i]) <= ArgRefs(c.args);
      RewritePreservesMeaning(c.args[i], m, before, after);
    }
    if c.url.Some? { RewritePreservesMeaning(c.url.value, m, before, after); }
    FieldsKeepMeaning(c.env, m, before, after);
    FieldsKeepMeaning(c.headers, m, before, after);
  }

  lemma {:induction false} FieldsKeepMeaning(fields: map<string, string>, m: map<string, string>,
      before: map<string, Value>, after: map<string, Value>)
    requires forall n :: n in m && IsRefName(n) ==> IsRefName(m[n])
    requires forall n :: n in FieldRefs(fields) && n in before ==>
        Renamed(m, n) in after && after[Renamed(m, n)] == before[n]
    requires forall n :: n in FieldRefs(fields) && n !in before ==> Renamed(m, n) == n && n !in after
    ensures (map k | k in RewriteFields(fields, m) :: Resolved(RewriteFields(fields, m)[k], after))
            == map k | k in fields :: Resolved(fields[k], before)
  {
    hide RefsOf, Rewrite, Resolved;
    forall k | k in fields ensures Resolved(Rewrite(fields[k], m), after) == Resolved(fields[k], before) {
      assert RefsOf(fields[k]) <= FieldRefs(fields);
      RewritePreservesMeaning(fields[k], m, before, after);
    }
  }

  lemma {:induction false} RewriteNothing(c: Columns)
    ensures RewriteColumns(c, map[]) == c
  {
    forall s: string ensures Rewrite(s, map[]) == s { RewriteUntouched(s, map[]); }
  }

  /** The view of a workspace before the move: the account's secrets under its own. */
  ghost predicate LocalViewOf(live: seq<Secret>, w: Id, local: map<string, Value>) {
    && local.Keys == LocalNames(live, w)
    && forall s :: s in live && s.workspace == w ==> s.name in local && local[s.name] == s.value
  }

  /** Every reference of a promoted server resolves, after the merge and the rewrite, to the value
      or the absence it had in its own workspace. */
  lemma {:induction false} PromotedMeaningKept(inp: VaultInput, live: seq<Secret>, ps: seq<Promotion>, v0: Vault,
      p: Promotion, local: map<string, Value>)
    requires AllKnown(inp, live) && KeysUnique(live) && SoundDigests(inp, v0, live)
    requires Merged(inp, live, ps, |live|).Some?
    requires p in ps && p.workspace in inp.workspaces && inp.workspaces[p.workspace].user == p.user
    requires LocalViewOf(live, p.workspace, local)
    ensures var st := Merged(inp, live, ps, |live|).value;
            MeaningOf(Repointed(st.renames, p).columns, AccountView(Landed(v0, st.copies), p.user))
            == MeaningOf(p.columns, AccountView(v0, p.user) + local)
  {
    hide Merged, MeaningOf, RewriteColumns, ColumnRefs, AskedBy, Arrived, AskedUntouched, Landed, IsRefName,
        AccountView;
    MergedKeepsInvariant(inp, live, ps, v0, |live|);
    var st := Merged(inp, live, ps, |live|).value;
    var m := RenamesIn(st.renames, p.workspace);
    var before, after := AccountView(v0, p.user) + local, AccountView(Landed(v0, st.copies), p.user);
    forall n | n in m && IsRefName(n) ensures IsRefName(m[n]) {
      assert (p.workspace, n) in st.renames;
    }
    forall n | n in ColumnRefs(p.columns)
      ensures n in before ==> Renamed(m, n) in after && after[Renamed(m, n)] == before[n]
      ensures n !in before ==> Renamed(m, n) == n && n !in after
    {
      NameMoves(inp, live, ps, st, v0, p, local, n);
    }
    RewriteNothing(p.columns);
    ColumnsKeepMeaning(p.columns, m, before, after);
  }

  lemma {:induction false} NameMoves(inp: VaultInput, live: seq<Secret>, ps: seq<Promotion>, st: VaultState, v0: Vault,
      p: Promotion, local: map<string, Value>, n: string)
    requires AllKnown(inp, live) && p in ps && LocalViewOf(live, p.workspace, local)
    requires p.workspace in inp.workspaces && inp.workspaces[p.workspace].user == p.user
    requires Invariant(inp, live, ps, v0, |live|, st)
    requires n in ColumnRefs(p.columns)
    ensures var t := Renamed(RenamesIn(st.renames, p.workspace), n);
            var before, after := AccountView(v0, p.user) + local, AccountView(Landed(v0, st.copies), p.user);
            if n in before then t in after && after[t] == before[n] else t == n && n !in after
  {
    hide ColumnRefs, AccountView, Landed, Fresh, Arrived, AskedUntouched, RenamesFrom, HeldMatches, IsRefName;
    if n in local {
      LocalNameMoves(inp, live, st, Landed(v0, st.copies), p, local, n);
    } else {
      AbsentNameStays(inp, live, ps, st, v0, p, n);
    }
  }

  lemma {:induction false} LocalNameMoves(inp: VaultInput, live: seq<Secret>, st: VaultState, v: Vault, p: Promotion,
      local: map<string, Value>, n: string)
    requires AllKnown(inp, live) && LocalViewOf(live, p.workspace, local) && n in local
    requires p.workspace in inp.workspaces && inp.workspaces[p.workspace].user == p.user
    requires Arrived(inp, live, |live|, st.renames, v)
    ensures var t := Renamed(RenamesIn(st.renames, p.workspace), n);
            t in AccountView(v, p.user) && AccountView(v, p.user)[t] == local[n]
  {
    var j :| 0 <= j < |live| && live[j].workspace == p.workspace && live[j].name == n;
    var m := RenamesIn(st.renames, p.workspace);
    assert n in m <==> (p.workspace, n) in st.renames;
    assert TargetName(st.renames, live[j]) == Renamed(m, n);
    assert (p.user, Renamed(m, n)) in v;
  }

  lemma {:induction false} RenamedIsLocal(live: seq<Secret>, renames: map<(Id, string), string>, w: Id)
    requires RenamesFrom(live, |live|, renames)
    ensures forall n :: (w, n) in renames ==> n in LocalNames(live, w)
  {
    forall n | (w, n) in renames ensures n in LocalNames(live, w) {
      var k := (w, n);
      var j :| 0 <= j < |live| && live[j].workspace == k.0 && live[j].name == k.1;
    }
  }

  /** A name the workspace lacked is never renamed, and reads in the account as it always did. */
  lemma {:induction false} AbsentNameStays(inp: VaultInput, live: seq<Secret>, ps: seq<Promotion>, st: VaultState,
      v0: Vault, p: Promotion, n: string)
    requires AllKnown(inp, live) && p in ps
    requires n in AskedBy(live, p)
    requires RenamesFrom(live, |live|, st.renames)
    requires Extends(v0, Landed(v0, st.copies)) && AskedUntouched(inp, live, ps, v0, Landed(v0, st.copies))
    ensures Renamed(RenamesIn(st.renames, p.workspace), n) == n
    ensures var v := Landed(v0, st.copies);
            (n in AccountView(v, p.user) <==> n in AccountView(v0, p.user)) &&
            (n in AccountView(v0, p.user) ==> AccountView(v, p.user)[n] == AccountView(v0, p.user)[n])
  {
    var v := Landed(v0, st.copies);
    RenamedIsLocal(live, st.renames, p.workspace);
    var i :| 0 <= i < |ps| && ps[i] == p;
    assert n in Asked(inp, live, ps, p.user);
    if (p.user, n) in v { assert (p.user, n) in v0; }
  }

  /** Nothing the account already held changes, and a name that the account tier asks for is
      neither filled in nor altered by any workspace's secret. */
  lemma {:induction false} AccountKept(inp: VaultInput, live: seq<Secret>, ps: seq<Promotion>, v0: Vault)
    requires AllKnown(inp, live) && KeysUnique(live) && SoundDigests(inp, v0, live)
    requires Merged(inp, live, ps, |live|).Some?
    ensures var v := Landed(v0, Merged(inp, live, ps, |live|).value.copies);
            (forall k :: k in v0 ==> k in v && v[k] == v0[k]) &&
            (forall u, n :: n in Asked(inp, live, ps, u) ==> ((u, n) in v <==> (u, n) in v0))
  {
    hide Merged, Asked;
    MergedKeepsInvariant(inp, live, ps, v0, |live|);
    var v := Landed(v0, Merged(inp, live, ps, |live|).value.copies);
    forall u, n | n in Asked(inp, live, ps, u) ensures (u, n) in v <==> (u, n) in v0 {
      var k := (u, n);
      assert k in v ==> k in v0;
    }
  }

  /** No workspace secret is lost: each live one can be read in the account under its mapped name. */
  lemma {:induction false} EverySecretSurvives(inp: VaultInput, live: seq<Secret>, ps: seq<Promotion>, v0: Vault,
      j: nat)
    requires AllKnown(inp, live) && KeysUnique(live) && SoundDigests(inp, v0, live)
    requires Merged(inp, live, ps, |live|).Some? && j < |live|
    ensures var st := Merged(inp, live, ps, |live|).value;
            var k := (inp.UserOf(live[j]), TargetName(st.renames, live[j]));
            k in Landed(v0, st.copies) && Landed(v0, st.copies)[k] == live[j].value
  {
    hide Merged;
    MergedKeepsInvariant(inp, live, ps, v0, |live|);
  }
}
