/** Who keeps a name when migration 055 brings servers and secrets of many workspaces into one account:
    the oldest holder, and every secret whose value the account then already holds. */
module KeptNames {
  import opened Options
  import opened UserTierModel
  import opened ServerNames
  import opened VaultRefs
  import F = ForkPlanner
  import opened VaultPlanner
  import opened VaultMeaning

  // ----- the order the planners work in -----

  /** Created earlier, or at the same time under a smaller id. */
  predicate Older(createdA: int, a: Id, createdB: int, b: Id) { createdA < createdB || (createdA == createdB && a < b) }

  lemma {:induction false} InOrderThroughout<T>(xs: seq<T>, key: T -> Stamp, i: nat, j: nat)
    requires InOrder(xs, key) && i <= j < |xs|
    ensures NotAfter(key(xs[i]), key(xs[j]))
    decreases i
  {
    if i == 0 {
      HeadIsFirst(xs, key, j);
    } else {
      InOrderThroughout(xs[1..], key, i - 1, j - 1);
    }
  }

  /** Dropping rows keeps the order of those that stay. */
  lemma {:induction false} FilterKeepsOrder<T(!new)>(xs: seq<T>, key: T -> Stamp, keep: T -> bool)
    requires forall i, j :: 0 <= i <= j < |xs| ==> NotAfter(key(xs[i]), key(xs[j]))
    ensures var r := Filter(xs, keep); forall i, j :: 0 <= i <= j < |r| ==> NotAfter(key(r[i]), key(r[j]))
  {
    if xs == [] {
    } else {
      var init, r, n := xs[..|xs| - 1], Filter(xs, keep), |xs| - 1;
      forall i, j | 0 <= i <= j < |init| ensures NotAfter(key(init[i]), key(init[j])) {
        assert init[i] == xs[i] && init[j] == xs[j];
      }
      FilterKeepsOrder(init, key, keep);
      assert r == Filter(init, keep) + if keep(xs[n]) then [xs[n]] else [];
      hide NotAfter, Filter;
      forall i, j | 0 <= i <= j < |r| ensures NotAfter(key(r[i]), key(r[j])) {
        var kept := Filter(init, keep);
        if j < |kept| {
          assert kept[i] == r[i] && kept[j] == r[j];
        } else if i < |kept| {
          assert kept[i] in init;
          var a :| 0 <= a < |init| && init[a] == kept[i];
          assert NotAfter(key(xs[a]), key(xs[n]));
          assert xs[a] == r[i] && xs[n] == r[j];
        } else {
          assert NotAfter(key(xs[n]), key(xs[n]));
          assert xs[n] == r[i] == r[j];
        }
      }
    }
  }

  lemma {:induction false} SortedThenFiltered<T(!new)>(xs: seq<T>, key: T -> Stamp, keep: T -> bool, i: nat, j: nat)
    requires i <= j < |Filter(Sorted(xs, key), keep)|
    ensures var r := Filter(Sorted(xs, key), keep); NotAfter(key(r[i]), key(r[j]))
  {
    var sorted := Sorted(xs, key);
    forall i, j | 0 <= i <= j < |sorted| ensures NotAfter(key(sorted[i]), key(sorted[j])) {
      InOrderThroughout(sorted, key, i, j);
    }
    FilterKeepsOrder(sorted, key, keep);
  }

  lemma {:induction false} RowAt<T(!new)>(xs: seq<T>, key: T -> Stamp, keep: T -> bool, x: T) returns (i: nat)
    requires x in xs && keep(x)
    ensures var r := Filter(Sorted(xs, key), keep); i < |r| && r[i] == x
  {
    var r := Filter(Sorted(xs, key), keep);
    assert x in multiset(Sorted(xs, key));
    assert x in r;
    i :| 0 <= i < |r| && r[i] == x;
  }

  /** A row comes first in the planner's order exactly when it is older. */
  lemma {:induction false} FirstIsOlder<T(!new)>(xs: seq<T>, key: T -> Stamp, keep: T -> bool, i: nat, j: nat)
    requires NoDuplicates(xs) && forall a, b :: a in xs && b in xs && key(a).id == key(b).id ==> a == b
    requires var r := Filter(Sorted(xs, key), keep); i < |r| && j < |r| && i != j
    ensures var r := Filter(Sorted(xs, key), keep);
            && r[i] in xs && keep(r[i]) && r[i] != r[j]
            && (i < j <==> Older(key(r[i]).created, key(r[i]).id, key(r[j]).created, key(r[j]).id))
  {
    var sorted := Sorted(xs, key);
    var r := Filter(sorted, keep);
    SameRows(xs, sorted);
    FilterNoDuplicates(sorted, keep);
    assert r[i] in r && r[j] in r;
    SortedThenFiltered(xs, key, keep, if i < j then i else j, if i < j then j else i);
    hide Sorted, Filter;
  }

  // ----- servers -----

  lemma {:induction false} PromotionsPrefix(inp: F.ForkInput, live: seq<Fork>, i: nat, n: nat)
    requires F.AllKnown(inp, live) && i <= n <= |live| && F.Promotions(inp, live, n).Some?
    ensures F.Promotions(inp, live, i).Some?
    ensures F.Promotions(inp, live, i).value == F.Promotions(inp, live, n).value[..i]
    decreases n
  {
    hide F.ForkNameFor, F.ExclusionsFor;
    if i < n {
      var ps, p := F.LastPromotion(inp, live, n);
      PromotionsPrefix(inp, live, i, n - 1);
    }
  }

  lemma {:induction false} NameOfPromotion(inp: F.ForkInput, live: seq<Fork>, i: nat)
    requires F.AllKnown(inp, live) && i < |live| && F.Promotions(inp, live, |live|).Some?
    ensures F.Promotions(inp, live, i).Some?
    ensures var x := F.ExclusionsFor(inp, live, F.Promotions(inp, live, i).value, live[i]);
            F.ForkNameFor(x) == Some(F.Promotions(inp, live, |live|).value[i].name)
  {
    PromotionsPrefix(inp, live, i, |live|);
    PromotionsPrefix(inp, live, i + 1, |live|);
    hide F.ForkNameFor, F.ExclusionsFor;
    assert F.Promotions(inp, live, i + 1).value[i] == F.Promotions(inp, live, |live|).value[i];
  }

  /** No workspace marks the name of one of its own servers: both are keyed by workspace and name. */
  ghost predicate OneRowPerName(inp: F.ForkInput, live: seq<Fork>) {
    forall i :: 0 <= i < |live| ==> live[i].name !in NamesFor(inp.markers, live[i].workspace)
  }

  /** The name could be a server's in this account, were no other server to arrive with it. */
  predicate Open(inp: F.ForkInput, u: User, name: string) {
    IsLegal(name) && name !in inp.Held(u) && name !in inp.reserved
  }

  lemma {:induction false} FirstHolderKeeps(inp: F.ForkInput, live: seq<Fork>, i: nat)
    requires F.AllKnown(inp, live) && OneRowPerName(inp, live) && F.Promotions(inp, live, |live|).Some? && i < |live|
    requires Open(inp, inp.UserOf(live[i]), live[i].name)
    requires forall j :: 0 <= j < i && inp.UserOf(live[j]) == inp.UserOf(live[i]) ==> live[j].name != live[i].name
    ensures F.Promotions(inp, live, |live|).value[i].name == live[i].name
  {
    hide F.ForkNameFor, F.Promotions, IsLegal;
    NameOfPromotion(inp, live, i);
    var ps, u := F.Promotions(inp, live, i).value, inp.UserOf(live[i]);
    F.PromotionsAreWellNamed(inp, live, i);
    forall k | 0 <= k < |ps| && ps[k].user == u ensures ps[k].name != live[i].name {
      assert F.WellNamed(inp, live, ps[k], k);
      assert live[i].name in F.Originals(inp, live, u);
    }
    F.UnclashingNameIsKept(F.ExclusionsFor(inp, live, ps, live[i]));
  }

  lemma {:induction false} FirstOfName(inp: F.ForkInput, live: seq<Fork>, i: nat) returns (first: nat)
    requires F.AllKnown(inp, live) && i < |live|
    ensures first <= i && inp.UserOf(live[first]) == inp.UserOf(live[i]) && live[first].name == live[i].name
    ensures forall j :: 0 <= j < first && inp.UserOf(live[j]) == inp.UserOf(live[i]) ==> live[j].name != live[i].name
  {
    if j: nat :| j < i && inp.UserOf(live[j]) == inp.UserOf(live[i]) && live[j].name == live[i].name {
      first := FirstOfName(inp, live, j);
    } else {
      first := i;
    }
  }

  /** In the planner's order a server keeps its name exactly when the name is open to it and no server
      of its account comes before it with that name. */
  lemma {:induction false} NameKeptExactly(inp: F.ForkInput, live: seq<Fork>, i: nat)
    requires F.AllKnown(inp, live) && OneRowPerName(inp, live) && F.Promotions(inp, live, |live|).Some? && i < |live|
    ensures F.Promotions(inp, live, |live|).value[i].name == live[i].name <==>
            Open(inp, inp.UserOf(live[i]), live[i].name) &&
            forall j :: 0 <= j < i && inp.UserOf(live[j]) == inp.UserOf(live[i]) ==> live[j].name != live[i].name
  {
    hide F.Promotions, IsLegal;
    var ps := F.Promotions(inp, live, |live|).value;
    F.PromotionsAreWellNamed(inp, live, |live|);
    assert F.WellNamed(inp, live, ps[i], i);
    var first := FirstOfName(inp, live, i);
    assert F.WellNamed(inp, live, ps[first], first);
    if Open(inp, inp.UserOf(live[i]), live[i].name) { FirstHolderKeeps(inp, live, first); }
    hide F.Originals;
  }

  /** Of an account's live servers that arrive with one open name, the oldest alone keeps it. */
  lemma {:induction false} OldestServerKeepsItsName(inp: F.ForkInput, forks: seq<Fork>, f: Fork) returns (i: nat)
    requires NoDuplicates(forks) && forall a, b :: a in forks && b in forks && a.id == b.id ==> a == b
    requires f in forks && F.Live(inp)(f) && F.PlannedForks(inp, forks).Some?
    requires OneRowPerName(inp, F.LiveForks(inp, Sorted(forks, F.FORK_STAMP)))
    ensures var ps := F.PlannedForks(inp, forks).value.promotions;
            && i < |ps| && ps[i].workspace == f.workspace && ps[i].sourceName == f.name
            && (ps[i].name == f.name <==>
                Open(inp, inp.UserOf(f), f.name) &&
                forall g :: g in forks && F.Live(inp)(g) && g.name == f.name && inp.UserOf(g) == inp.UserOf(f) && g != f
                  ==> Older(f.created, f.id, g.created, g.id))
  {
    hide Sorted, NoDuplicates, F.Promotions, Open;
    var live := F.LiveForks(inp, Sorted(forks, F.FORK_STAMP));
    i := RowAt(forks, F.FORK_STAMP, F.Live(inp), f);
    F.PromotionsAreWellNamed(inp, live, |live|);
    assert F.WellNamed(inp, live, F.PlannedForks(inp, forks).value.promotions[i], i);
    NameKeptExactly(inp, live, i);
    var u := inp.UserOf(f);
    hide F.PlannedForks, F.LiveForks, F.WellNamed, OneRowPerName;
    forall g | g in forks && F.Live(inp)(g) && g.name == f.name && inp.UserOf(g) == u && g != f
      ensures exists j :: 0 <= j < |live| && live[j] == g && j != i
                          && (i < j <==> Older(f.created, f.id, g.created, g.id))
    {
      var j := RowAt(forks, F.FORK_STAMP, F.Live(inp), g);
      FirstIsOlder(forks, F.FORK_STAMP, F.Live(inp), i, j);
    }
    forall j | 0 <= j < i && inp.UserOf(live[j]) == u && live[j].name == f.name
      ensures live[j] in forks && F.Live(inp)(live[j]) && live[j] != f
      ensures !Older(f.created, f.id, live[j].created, live[j].id)
    {
      FirstIsOlder(forks, F.FORK_STAMP, F.Live(inp), i, j);
      FirstIsOlder(forks, F.FORK_STAMP, F.Live(inp), j, i);
    }
    hide F.Live, Older;
  }

  // ----- secrets -----

  /** A secret keeps its name exactly when its account holds the name under the same known digest, or
      holds nothing under it and is not asked for it. */
  lemma {:induction false} OwnNameExactly(x: SecretSearch)
    requires SecretNameFor(x).Some?
    ensures var own, k := x.secret.name, (x.user, x.secret.name);
            SecretNameFor(x) == Some(own) <==>
            if k in x.held then x.secret.digest.Some? && x.held[k] == x.secret.digest else own !in x.asked
  {
    SecretNameIsUsable(x);
    assert Candidate(x.secret.name, 1) == x.secret.name;
    if MayUse(x, x.secret.name) { assert SecretNameFor(x) == Some(x.secret.name); }
  }

  predicate HolderOf(inp: VaultInput, live: seq<Secret>, j: nat, u: User, n: string)
    requires AllKnown(inp, live) && j < |live|
  {
    inp.UserOf(live[j]) == u && live[j].name == n
  }

  /** The first of the first m secrets that is u's and arrives with the name n. */
  function FirstHolder(inp: VaultInput, live: seq<Secret>, m: nat, u: User, n: string): (r: Option<nat>)
    requires AllKnown(inp, live) && m <= |live|
    ensures r.Some? ==> r.value < m && HolderOf(inp, live, r.value, u, n)
    ensures r.Some? ==> forall j :: 0 <= j < r.value ==> !HolderOf(inp, live, j, u, n)
    ensures r.None? ==> forall j :: 0 <= j < m ==> !HolderOf(inp, live, j, u, n)
  {
    if m == 0 then None
    else match FirstHolder(inp, live, m - 1, u, n)
         case Some(j) => Some(j)
         case None => if HolderOf(inp, live, m - 1, u, n) then Some(m - 1) else None
  }

  /** Under what digest u's account holds an arriving name n once m secrets are merged: its own from
      before, else its first holder's, unless somebody asks for the name. */
  function HeldAs(inp: VaultInput, live: seq<Secret>, ps: seq<Promotion>, m: nat, u: User, n: string):
      Option<Option<Digest>>
    requires AllKnown(inp, live) && m <= |live|
  {
    if (u, n) in inp.userSecrets then Some(inp.userSecrets[(u, n)])
    else if n in Asked(inp, live, ps, u) then None
    else match FirstHolder(inp, live, m, u, n)
         case None => None
         case Some(j) => Some(live[j].digest)
  }

  function Found(held: map<(User, string), Option<Digest>>, k: (User, string)): Option<Option<Digest>> {
    if k in held then Some(held[k]) else None
  }

  lemma {:induction false} PlacedHolds(st: VaultState, v: User, s: Secret, name: string, k: (User, string))
    ensures Found(Placed(st, v, s, name).held, k)
            == if k == (v, name) && k !in st.held then Some(s.digest) else Found(st.held, k)
  {
  }

  /** An arriving name is held as its first holder, or the account itself, brought it: no suffix ever
      takes it. */
  lemma {:induction false} HeldByFirst(inp: VaultInput, live: seq<Secret>, ps: seq<Promotion>, m: nat, u: User,
      n: string)
    requires AllKnown(inp, live) && m <= |live| && Merged(inp, live, ps, m).Some?
    requires n in Originals(inp, live, u)
    ensures Found(Merged(inp, live, ps, m).value.held, (u, n)) == HeldAs(inp, live, ps, m, u, n)
  {
    hide SecretNameFor, Placed, Asked, Originals;
    if m == 0 {
    } else {
      hide Merged;
      var st, c := LastMerged(inp, live, ps, m);
      HeldByFirst(inp, live, ps, m - 1, u, n);
      var s := live[m - 1];
      var x := SearchFor(inp, live, ps, st, s);
      SecretNameIsUsable(x);
      OwnNameExactly(x);
      PlacedHolds(st, inp.UserOf(s), s, c, (u, n));
    }
  }

  /** Secret i's entry among the renames is its own doing. */
  lemma {:induction false} RenamedItself(inp: VaultInput, live: seq<Secret>, ps: seq<Promotion>, i: nat, m: nat)
    requires AllKnown(inp, live) && KeysUnique(live) && i < |live| && m <= |live| && Merged(inp, live, ps, m).Some?
    ensures i < m ==> Merged(inp, live, ps, i).Some? && Merged(inp, live, ps, i + 1).Some?
    ensures var k := (live[i].workspace, live[i].name);
            k in Merged(inp, live, ps, m).value.renames <==>
            i < m && SecretNameFor(SearchFor(inp, live, ps, Merged(inp, live, ps, i).value, live[i])) != Some(k.1)
  {
    hide SecretNameFor, SearchFor;
    if m == 0 {
    } else {
      var st, name := LastMerged(inp, live, ps, m);
      RenamedItself(inp, live, ps, i, m - 1);
      hide Merged;
    }
  }

  /** A secret keeps its name exactly when its account already held the name under the same known
      digest, or held nothing under it, is not asked for it, and the first to bring it, if another,
      brought the same known digest. */
  lemma {:induction false} SecretKeptExactly(inp: VaultInput, live: seq<Secret>, ps: seq<Promotion>, i: nat)
    requires AllKnown(inp, live) && KeysUnique(live) && i < |live| && Merged(inp, live, ps, |live|).Some?
    ensures var s, u := live[i], inp.UserOf(live[i]);
            var first := FirstHolder(inp, live, i, u, s.name);
            (s.workspace, s.name) !in Merged(inp, live, ps, |live|).value.renames <==>
            if (u, s.name) in inp.userSecrets
            then s.digest.Some? && inp.userSecrets[(u, s.name)] == s.digest
            else s.name !in Asked(inp, live, ps, u)
                 && (first.Some? ==> s.digest.Some? && live[first.value].digest == s.digest)
  {
    hide SecretNameFor, KeysUnique, Asked;
    RenamedItself(inp, live, ps, i, |live|);
    var st, name := LastMerged(inp, live, ps, i + 1);
    hide Merged;
    var u, n := inp.UserOf(live[i]), live[i].name;
    HeldByFirst(inp, live, ps, i, u, n);
    OwnNameExactly(SearchFor(inp, live, ps, st, live[i]));
  }

  /** A secret whose name its account holds by then under the same known digest collapses into it:
      nothing is copied and nothing renamed. */
  lemma {:induction false} EqualValueCollapses(inp: VaultInput, live: seq<Secret>, ps: seq<Promotion>, i: nat)
    requires AllKnown(inp, live) && i < |live| && Merged(inp, live, ps, i + 1).Some?
    requires live[i].digest.Some?
    requires HeldAs(inp, live, ps, i, inp.UserOf(live[i]), live[i].name) == Some(live[i].digest)
    ensures Merged(inp, live, ps, i + 1) == Merged(inp, live, ps, i)
  {
    hide SecretNameFor, HeldAs, Asked;
    var st, name := LastMerged(inp, live, ps, i + 1);
    hide Merged;
    HeldByFirst(inp, live, ps, i, inp.UserOf(live[i]), live[i].name);
    OwnNameExactly(SearchFor(inp, live, ps, st, live[i]));
  }

  /** A server none of whose references was renamed in its workspace stays exactly as it was. */
  lemma {:induction false} UnrenamedReferencesStand(renames: map<(Id, string), string>, p: Promotion)
    requires forall n :: n in ColumnRefs(p.columns) ==> (p.workspace, n) !in renames
    ensures Repointed(renames, p) == p
  {
    hide Rewrite, RefsOf;
    var m, c := RenamesIn(renames, p.workspace), p.columns;
    forall s: string | RefsOf(s) <= ColumnRefs(c) ensures Rewrite(s, m) == s { RewriteUntouched(s, m); }
    forall i | 0 <= i < |c.args| ensures RefsOf(c.args[i]) <= ColumnRefs(c) { }
    forall k | k in c.env ensures RefsOf(c.env[k]) <= ColumnRefs(c) { }
    forall k | k in c.headers ensures RefsOf(c.headers[k]) <= ColumnRefs(c) { }
    assert RewriteColumns(c, m) == c;
  }

  /** Of an account's live secrets that arrive with one name it does not hold yet, the oldest keeps it,
      and so does exactly each other one known to have the oldest's value; nobody does if it is asked for. */
  lemma {:induction false} OldestSecretKeepsItsName(
    inp: VaultInput, secrets: seq<Secret>, ps: seq<Promotion>, oldest: Secret, s: Secret)
    requires NoDuplicates(secrets) && forall a, b :: a in secrets && b in secrets && a.id == b.id ==> a == b
    requires KeysUnique(LiveSecrets(inp, Sorted(secrets, SECRET_STAMP)))
    requires PlannedVault(inp, secrets, ps).Some?
    requires oldest in secrets && Live(inp)(oldest) && s in secrets && Live(inp)(s)
    requires oldest.name == s.name && inp.UserOf(oldest) == inp.UserOf(s)
    requires forall a ::
      a in secrets && Live(inp)(a) && a.name == s.name && inp.UserOf(a) == inp.UserOf(s) && a != oldest ==>
        Older(oldest.created, oldest.id, a.created, a.id)
    requires (inp.UserOf(s), s.name) !in inp.userSecrets
    ensures (s.workspace, s.name) !in PlannedVault(inp, secrets, ps).value.renames <==>
            s.name !in Asked(inp, LiveSecrets(inp, Sorted(secrets, SECRET_STAMP)), ps, inp.UserOf(s))
            && (s == oldest || (s.digest.Some? && s.digest == oldest.digest))
  {
    hide Sorted, NoDuplicates, KeysUnique, Merged, Asked;
    var live := LiveSecrets(inp, Sorted(secrets, SECRET_STAMP));
    var i := RowAt(secrets, SECRET_STAMP, Live(inp), s);
    var o := RowAt(secrets, SECRET_STAMP, Live(inp), oldest);
    SecretKeptExactly(inp, live, ps, i);
    forall j | 0 <= j < |live| && j != o && HolderOf(inp, live, j, inp.UserOf(s), s.name)
      ensures o < j && live[j] != oldest {
      FirstIsOlder(secrets, SECRET_STAMP, Live(inp), o, j);
      FirstIsOlder(secrets, SECRET_STAMP, Live(inp), j, o);
    }
    assert PlannedVault(inp, secrets, ps).value.renames == Merged(inp, live, ps, |live|).value.renames;
    hide PlannedVault, LiveSecrets, Older;
    assert HolderOf(inp, live, i, inp.UserOf(s), s.name) && HolderOf(inp, live, o, inp.UserOf(s), s.name);
    assert FirstHolder(inp, live, i, inp.UserOf(s), s.name) == if o < i then Some(o) else None;
  }

  lemma {:induction false} NothingCopied(inp: VaultInput, live: seq<Secret>, ps: seq<Promotion>)
    requires AllKnown(inp, live)
    ensures Merged(inp, live, ps, 0).Some? && Merged(inp, live, ps, 0).value.copies == []
  {
  }

  lemma {:induction false} CopiesOf(inp: VaultInput, live: seq<Secret>, ps: seq<Promotion>, i: nat, m: nat)
    requires AllKnown(inp, live) && KeysUnique(live) && i < |live| && m <= |live| && Merged(inp, live, ps, m).Some?
    requires Merged(inp, live, ps, i + 1) == Merged(inp, live, ps, i)
    ensures forall c :: c in Merged(inp, live, ps, m).value.copies ==> c.secret != live[i]
  {
    hide Merged, SecretNameFor, SearchFor;
    if m == 0 {
      NothingCopied(inp, live, ps);
    } else {
      var st, name := LastMerged(inp, live, ps, m);
      CopiesOf(inp, live, ps, i, m - 1);
      if m != i + 1 { assert live[m - 1] != live[i]; }
    }
  }

  /** The merge only renames to another name, and a reference to a reference. */
  lemma {:induction false} RenamesChange(inp: VaultInput, live: seq<Secret>, ps: seq<Promotion>, m: nat)
    requires AllKnown(inp, live) && m <= |live| && Merged(inp, live, ps, m).Some?
    ensures var renames := Merged(inp, live, ps, m).value.renames;
            forall k :: k in renames ==> renames[k] != k.1 && (IsRefName(k.1) ==> IsRefName(renames[k]))
  {
    hide SecretNameFor, SearchFor, IsRefName;
    if m == 0 {
    } else {
      RenamesChange(inp, live, ps, m - 1);
      var st, name := LastMerged(inp, live, ps, m);
      hide Merged;
      SecretNameIsUsable(SearchFor(inp, live, ps, st, live[m - 1]));
      SearchSecret(inp, live, ps, st, live[m - 1]);
    }
  }

  /** Whether a server's references are rewritten: exactly when it names something that was renamed in its
      workspace, and its columns change exactly then. */
  lemma {:induction false} RewrittenExactly(renames: map<(Id, string), string>, p: Promotion)
    requires forall k :: k in renames ==> renames[k] != k.1 && (IsRefName(k.1) ==> IsRefName(renames[k]))
    ensures Repointed(renames, p).columns != p.columns <==>
            exists n :: n in ColumnRefs(p.columns) && (p.workspace, n) in renames
    ensures !p.refsRewritten ==>
            (Repointed(renames, p).refsRewritten <==> Repointed(renames, p).columns != p.columns)
  {
    hide Rewrite, RefsOf;
    var m, c := RenamesIn(renames, p.workspace), p.columns;
    if n :| n in ColumnRefs(c) && (p.workspace, n) in renames {
      assert Renamed(m, n) != n;
      RenamedColumnsChange(c, m, n);
    } else {
      UnrenamedReferencesStand(renames, p);
    }
    hide ColumnRefs, RewriteColumns;
  }

  lemma {:induction false} RenamedColumnsChange(c: Columns, m: map<string, string>, n: string)
    requires forall k :: k in m && IsRefName(k) ==> IsRefName(m[k])
    requires n in ColumnRefs(c) && Renamed(m, n) != n
    ensures RewriteColumns(c, m) != c
  {
    hide Rewrite, RefsOf, Renamed, IsRefName;
    forall s: string ensures Rewrite(s, m) == s <==> forall k :: k in RefsOf(s) ==> Renamed(m, k) == k {
      UntouchedExactly(s, m);
    }
  }
}
