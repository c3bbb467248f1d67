/** plan_vault of migration 055: merge every live workspace vault into its user's. */
module VaultPlanner {
  import opened Options
  import opened UserTierModel
  import opened ServerNames
  import opened VaultRefs
  import Pigeonhole

  datatype VaultInput = VaultInput(
    workspaces: map<Id, Workspace>,
    userSecrets: map<(User, string), Option<Digest>>,
    referenced: map<User, set<string>>)
  {
    predicate Knows(s: Secret) { s.workspace in workspaces }

    function UserOf(s: Secret): User
      requires Knows(s)
    {
      workspaces[s.workspace].user
    }
  }

  datatype Copy = Copy(secret: Secret, user: User, name: string)

  datatype VaultState = VaultState(
    held: map<(User, string), Option<Digest>>, copies: seq<Copy>, renames: map<(Id, string), string>)

  datatype VaultPlan = VaultPlan(copies: seq<Copy>, renames: map<(Id, string), string>, promotions: seq<Promotion>)

  predicate AllKnown(inp: VaultInput, secrets: seq<Secret>) { forall i :: 0 <= i < |secrets| ==> inp.Knows(secrets[i]) }

  const SECRET_STAMP: Secret -> Stamp := (s: Secret) => Stamp(s.created, s.id)

  // ----- references of a server definition -----

  function ArgRefs(args: seq<string>): set<string> { set i, n | 0 <= i < |args| && n in RefsOf(args[i]) :: n }

  function FieldRefs(fields: map<string, string>): set<string> { set k, n | k in fields && n in RefsOf(fields[k]) :: n }

  function ColumnRefs(c: Columns): set<string> {
    ArgRefs(c.args) + (if c.url.Some? then RefsOf(c.url.value) else {}) + FieldRefs(c.env) + FieldRefs(c.headers)
  }

  function RewriteArgs(args: seq<string>, m: map<string, string>): (r: seq<string>)
    ensures |r| == |args| && forall i :: 0 <= i < |args| ==> r[i] == Rewrite(args[i], m)
  {
    seq(|args|, i requires 0 <= i < |args| => Rewrite(args[i], m))
  }

  function RewriteFields(fields: map<string, string>, m: map<string, string>): map<string, string> {
    map k | k in fields :: Rewrite(fields[k], m)
  }

  function RewriteColumns(c: Columns, m: map<string, string>): Columns {
    Columns(RewriteArgs(c.args, m), if c.url.Some? then Some(Rewrite(c.url.value, m)) else None,
            RewriteFields(c.env, m), RewriteFields(c.headers, m), c.other)
  }

  // ----- naming one secret -----

  datatype SecretSearch = SecretSearch(
    secret: Secret, user: User, held: map<(User, string), Option<Digest>>, others: set<string>, asked: set<string>)

  predicate MayUse(x: SecretSearch, name: string) {
    if (x.user, name) in x.held then x.secret.digest.Some? && x.held[(x.user, name)] == x.secret.digest
    else name !in x.asked && (name == x.secret.name || name !in x.others)
  }

  function Usable(x: SecretSearch): string -> bool { name => MayUse(x, name) }

  function SecretNameFor(x: SecretSearch): Option<string> { FirstFrom(x.secret.name, Usable(x), 1) }

  method SecretName(x: SecretSearch) returns (r: Option<string>)
    ensures r == SecretNameFor(x)
  {
    hide Candidate;
    ghost var ok := Usable(x);
    var k := 1;
    while k < SUFFIX_TRIES
      invariant 1 <= k <= SUFFIX_TRIES
      invariant FirstFrom(x.secret.name, ok, 1) == FirstFrom(x.secret.name, ok, k)
    {
      var name := Candidate(x.secret.name, k);
      if (x.user, name) in x.held {
        if x.secret.digest.Some? && x.held[(x.user, name)] == x.secret.digest {
          return Some(name);
        }
      } else if name in x.asked {
      } else if name != x.secret.name && name in x.others {
      } else {
        return Some(name);
      }
      k := k + 1;
    }
    return None;
  }

  function HeldNames(held: map<(User, string), Option<Digest>>, u: User): set<string> {
    set k | k in held && k.0 == u :: k.1
  }

  /** The search only gives up when at least 9,998 names are held, asked for or arriving. */
  lemma {:induction false} SecretNameIsTotal(x: SecretSearch)
    requires |HeldNames(x.held, x.user) + x.asked + x.others| < SUFFIX_TRIES - 2
    ensures SecretNameFor(x).Some?
  {
    var excluded := HeldNames(x.held, x.user) + x.asked + x.others;
    forall c | !Usable(x)(c) && (exists n :: 2 <= n < SUFFIX_TRIES && c == Suffixed(x.secret.name, n))
      ensures c in excluded
    {
      if (x.user, c) in x.held { assert c in HeldNames(x.held, x.user); }
    }
    SearchIsTotal(x.secret.name, Usable(x), excluded);
  }

  /** The name is the first of the secret's own, own_2, own_3 and so on that the account holds under the
      same known digest, or that nobody holds, asks for or, but for its own, arrives with. */
  lemma {:induction false} SecretNameExactly(x: SecretSearch) returns (n: nat)
    requires SecretNameFor(x).Some?
    ensures var own, name := x.secret.name, SecretNameFor(x).value;
            && 1 <= n < SUFFIX_TRIES && name == (if n == 1 then own else Suffixed(own, n))
            && (if (x.user, name) in x.held
                then x.secret.digest.Some? && x.held[(x.user, name)] == x.secret.digest
                else name !in x.asked && (name in x.others ==> name == own))
            && forall i :: 1 <= i < n ==>
                 var passed := if i == 1 then own else Suffixed(own, i);
                 if (x.user, passed) in x.held
                 then x.secret.digest.None? || x.held[(x.user, passed)] != x.secret.digest
                 else passed in x.asked || (passed in x.others && passed != own)
  {
    hide Suffixed;
    n := FirstFromFinds(x.secret.name, Usable(x), 1);
    forall i | 1 <= i < n
      ensures Candidate(x.secret.name, i) == if i == 1 then x.secret.name else Suffixed(x.secret.name, i)
      ensures !MayUse(x, Candidate(x.secret.name, i)) { }
  }

  lemma {:induction false} NumberedStaysReferencable(base: string, n: nat)
    requires IsRefName(base) && n < SUFFIX_TRIES
    ensures IsRefName(Suffixed(base, n))
  {
    ShortNumeral(n);
    SuffixedSplits(base, n);
    assert Suffixed(base, n)[0] == base[0];
  }

  /** A referencable name is only ever renamed to a referencable name. */
  lemma {:induction false} SecretNameStaysReferencable(x: SecretSearch)
    requires SecretNameFor(x).Some? && IsRefName(x.secret.name)
    ensures IsRefName(SecretNameFor(x).value) && MayUse(x, SecretNameFor(x).value)
  {
    hide IsRefName, MayUse, Suffixed;
    var n := FirstFromFinds(x.secret.name, Usable(x), 1);
    if n > 1 { NumberedStaysReferencable(x.secret.name, n); }
  }

  // ----- the fold -----

  function Live(inp: VaultInput): Secret -> bool { s => inp.Knows(s) && inp.workspaces[s.workspace].Live() }

  function LiveSecrets(inp: VaultInput, secrets: seq<Secret>): (r: seq<Secret>)
    ensures AllKnown(inp, r)
  {
    var r := Filter(secrets, Live(inp));
    assert forall i :: 0 <= i < |r| ==> r[i] in r;
    r
  }

  function Originals(inp: VaultInput, live: seq<Secret>, u: User): set<string>
    requires AllKnown(inp, live)
  {
    set i | 0 <= i < |live| && inp.UserOf(live[i]) == u :: live[i].name
  }

  /** Names a workspace's own vault holds. */
  function LocalNames(live: seq<Secret>, w: Id): set<string> {
    set i | 0 <= i < |live| && live[i].workspace == w :: live[i].name
  }

  /** Names a promoted server reads from the account because its workspace lacks them. */
  function AskedBy(live: seq<Secret>, p: Promotion): set<string> {
    ColumnRefs(p.columns) - LocalNames(live, p.workspace)
  }

  function Asked(inp: VaultInput, live: seq<Secret>, ps: seq<Promotion>, u: User): set<string> {
    NamesFor(inp.referenced, u) + set i, n | 0 <= i < |ps| && ps[i].user == u && n in AskedBy(live, ps[i]) :: n
  }

  function SearchFor(inp: VaultInput, live: seq<Secret>, ps: seq<Promotion>, st: VaultState, s: Secret): SecretSearch
    requires AllKnown(inp, live) && inp.Knows(s)
  {
    var u := inp.UserOf(s);
    SecretSearch(s, u, st.held, Originals(inp, live, u), Asked(inp, live, ps, u))
  }

  function Placed(st: VaultState, u: User, s: Secret, name: string): VaultState {
    VaultState(
      if (u, name) in st.held then st.held else st.held[(u, name) := s.digest],
      if (u, name) in st.held then st.copies else st.copies + [Copy(s, u, name)],
      if name == s.name then st.renames else st.renames[(s.workspace, s.name) := name])
  }

  function Merged(inp: VaultInput, live: seq<Secret>, ps: seq<Promotion>, n: nat): Option<VaultState>
    requires AllKnown(inp, live) && n <= |live|
  {
    if n == 0 then Some(VaultState(inp.userSecrets, [], map[]))
    else match Merged(inp, live, ps, n - 1)
         case None => None
         case Some(st) =>
           match SecretNameFor(SearchFor(inp, live, ps, st, live[n - 1]))
           case None => None
           case Some(name) => Some(Placed(st, inp.UserOf(live[n - 1]), live[n - 1], name))
  }

  function RenamesIn(renames: map<(Id, string), string>, w: Id): map<string, string> {
    map k | k in renames && k.0 == w :: k.1 := renames[k]
  }

  function Repointed(renames: map<(Id, string), string>, p: Promotion): Promotion {
    var mapping := RenamesIn(renames, p.workspace);
    if mapping == map[] then p
    else
      var columns := RewriteColumns(p.columns, mapping);
      if columns == p.columns then p else p.(columns := columns, refsRewritten := true)
  }

  function RepointAll(renames: map<(Id, string), string>, ps: seq<Promotion>): (r: seq<Promotion>)
    ensures |r| == |ps| && forall i :: 0 <= i < |ps| ==> r[i] == Repointed(renames, ps[i])
  {
    seq(|ps|, i requires 0 <= i < |ps| => Repointed(renames, ps[i]))
  }

  function PlannedVault(inp: VaultInput, secrets: seq<Secret>, ps: seq<Promotion>): Option<VaultPlan>
  {
    var live := LiveSecrets(inp, Sorted(secrets, SECRET_STAMP));
    match Merged(inp, live, ps, |live|)
    case None => None
    case Some(st) => Some(VaultPlan(st.copies, st.renames, RepointAll(st.renames, ps)))
  }

  method PlanVault(inp: VaultInput, secrets: seq<Secret>, ps: seq<Promotion>) returns (plan: Option<VaultPlan>)
    requires AllKnown(inp, secrets)
    ensures plan == PlannedVault(inp, secrets, ps)
  {
    forall i | 0 <= i < |Sorted(secrets, SECRET_STAMP)| ensures inp.Knows(Sorted(secrets, SECRET_STAMP)[i]) {
      assert Sorted(secrets, SECRET_STAMP)[i] in multiset(secrets);
    }
    var live := KeepLive(inp, Sorted(secrets, SECRET_STAMP));
    var st := MergeAll(inp, live, ps);
    if st.None? { return None; }
    var rewritten := RepointEach(st.value.renames, ps);
    plan := Some(VaultPlan(st.value.copies, st.value.renames, rewritten));
  }

  method KeepLive(inp: VaultInput, sorted: seq<Secret>) returns (live: seq<Secret>)
    requires AllKnown(inp, sorted)
    ensures live == LiveSecrets(inp, sorted)
  {
    live := [];
    for i := 0 to |sorted|
      invariant live == LiveSecrets(inp, sorted[..i])
    {
      assert sorted[..i + 1][..i] == sorted[..i];
      if inp.workspaces[sorted[i].workspace].Live() {
        live := live + [sorted[i]];
      }
    }
    assert sorted[..|sorted|] == sorted;
  }

  method MergeAll(inp: VaultInput, live: seq<Secret>, ps: seq<Promotion>) returns (r: Option<VaultState>)
    requires AllKnown(inp, live)
    ensures r == Merged(inp, live, ps, |live|)
  {
    hide SecretNameFor;
    var held, copies: seq<Copy>, renames: map<(Id, string), string> := inp.userSecrets, [], map[];
    var i := 0;
    while i < |live|
      invariant 0 <= i <= |live|
      invariant Merged(inp, live, ps, i) == Some(VaultState(held, copies, renames))
    {
      var secret := live[i];
      var user := inp.UserOf(secret);
      var name := SecretName(SearchFor(inp, live, ps, VaultState(held, copies, renames), secret));
      if name.None? {
        MergedStaysNone(inp, live, ps, i + 1, |live|);
        return None;
      }
      if name.value != secret.name {
        renames := renames[(secret.workspace, secret.name) := name.value];
      }
      if (user, name.value) !in held {
        held := held[(user, name.value) := secret.digest];
        copies := copies + [Copy(secret, user, name.value)];
      }
      i := i + 1;
    }
    r := Some(VaultState(held, copies, renames));
  }

  method RepointEach(renames: map<(Id, string), string>, ps: seq<Promotion>) returns (rewritten: seq<Promotion>)
    ensures rewritten == RepointAll(renames, ps)
  {
    hide RewriteColumns;
    rewritten := [];
    for j := 0 to |ps|
      invariant |rewritten| == j && forall i :: 0 <= i < j ==> rewritten[i] == Repointed(renames, ps[i])
    {
      var mapping, p := RenamesIn(renames, ps[j].workspace), ps[j];
      if mapping != map[] {
        var columns := RewriteColumns(p.columns, mapping);
        if columns != p.columns {
          p := p.(columns := columns, refsRewritten := true);
        }
      }
      rewritten := rewritten + [p];
    }
  }

  lemma {:induction false} MergedStaysNone(inp: VaultInput, live: seq<Secret>, ps: seq<Promotion>, n: nat, m: nat)
    requires AllKnown(inp, live) && n <= m <= |live|
    requires Merged(inp, live, ps, n).None?
    ensures Merged(inp, live, ps, m).None?
    decreases m
  {
    hide SecretNameFor, SearchFor;
    if n < m { MergedStaysNone(inp, live, ps, n, m - 1); }
  }

  /** How many of the first n secrets are this account's. */
  function Mine(inp: VaultInput, live: seq<Secret>, n: nat, u: User): nat
    requires AllKnown(inp, live) && n <= |live|
  {
    if n == 0 then 0 else Mine(inp, live, n - 1, u) + if inp.UserOf(live[n - 1]) == u then 1 else 0
  }

  lemma {:induction false} MineAscends(inp: VaultInput, live: seq<Secret>, m: nat, n: nat, u: User)
    requires AllKnown(inp, live) && m <= n <= |live|
    ensures Mine(inp, live, m, u) <= Mine(inp, live, n, u)
    decreases n
  {
    if m == n {
    } else {
      MineAscends(inp, live, m, n - 1, u);
    }
  }

  /** Placing a secret adds at most one name, and only to its own account. */
  lemma {:induction false} PlacingAddsOne(st: VaultState, v: User, s: Secret, name: string, u: User,
      others: set<string>)
    ensures |HeldNames(Placed(st, v, s, name).held, u) + others|
            <= |HeldNames(st.held, u) + others| + if v == u then 1 else 0
  {
    var before, after := HeldNames(st.held, u), HeldNames(Placed(st, v, s, name).held, u);
    var added := if v == u then {name} else {};
    forall x | x in after + others ensures x in (before + others) + added { }
    Pigeonhole.SubsetSize(after + others, (before + others) + added);
    Pigeonhole.UnionSize(before + others, added);
  }

  lemma {:induction false} HeldStaySmall(inp: VaultInput, live: seq<Secret>, ps: seq<Promotion>, n: nat, u: User,
      others: set<string>)
    requires AllKnown(inp, live) && n <= |live| && Merged(inp, live, ps, n).Some?
    ensures |HeldNames(Merged(inp, live, ps, n).value.held, u) + others|
            <= |HeldNames(inp.userSecrets, u) + others| + Mine(inp, live, n, u)
  {
    hide SecretNameFor, Asked, Originals, HeldNames;
    if n == 0 {
    } else {
      var st, s := Merged(inp, live, ps, n - 1).value, live[n - 1];
      HeldStaySmall(inp, live, ps, n - 1, u, others);
      PlacingAddsOne(st, inp.UserOf(s), s, SecretNameFor(SearchFor(inp, live, ps, st, s)).value, u, others);
    }
  }

  /** What keeps a secret's search going at most: the names its account holds, is asked for and has
      arriving, and one for each secret of its account. */
  function Room(inp: VaultInput, live: seq<Secret>, ps: seq<Promotion>, s: Secret): nat
    requires AllKnown(inp, live) && inp.Knows(s)
  {
    var u := inp.UserOf(s);
    |HeldNames(inp.userSecrets, u) + (Asked(inp, live, ps, u) + Originals(inp, live, u))| + Mine(inp, live, |live|, u)
  }

  /** When no account's excluded names and own secrets exceed 9,998 together, there is a merge. */
  lemma {:induction false} MergeIsTotal(inp: VaultInput, live: seq<Secret>, ps: seq<Promotion>, n: nat)
    requires AllKnown(inp, live) && n <= |live|
    requires forall i :: 0 <= i < |live| ==> Room(inp, live, ps, live[i]) <= SUFFIX_TRIES - 2
    ensures Merged(inp, live, ps, n).Some?
  {
    hide SecretNameFor, Room, HeldNames, Asked, Originals;
    if n == 0 {
    } else {
      MergeIsTotal(inp, live, ps, n - 1);
      SearchStaysSmall(inp, live, ps, n - 1);
      SecretNameIsTotal(SearchFor(inp, live, ps, Merged(inp, live, ps, n - 1).value, live[n - 1]));
    }
  }

  lemma {:induction false} SearchStaysSmall(inp: VaultInput, live: seq<Secret>, ps: seq<Promotion>, n: nat)
    requires AllKnown(inp, live) && n < |live| && Merged(inp, live, ps, n).Some?
    ensures var x := SearchFor(inp, live, ps, Merged(inp, live, ps, n).value, live[n]);
            |HeldNames(x.held, x.user) + x.asked + x.others| < Room(inp, live, ps, live[n])
  {
    hide Merged, HeldNames, Asked, Originals;
    var x := SearchFor(inp, live, ps, Merged(inp, live, ps, n).value, live[n]);
    HeldStaySmall(inp, live, ps, n, x.user, x.asked + x.others);
    MineAscends(inp, live, n + 1, |live|, x.user);
    assert HeldNames(x.held, x.user) + x.asked + x.others == HeldNames(x.held, x.user) + (x.asked + x.others);
  }
}
