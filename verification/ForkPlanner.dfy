/** plan_forks of migration 055: every local server of a live workspace gets an account-wide name. */
module ForkPlanner {
  import opened Options
  import opened UserTierModel
  import opened ServerNames
  import Pigeonhole

  datatype ForkInput = ForkInput(
    workspaces: map<Id, Workspace>,
    userServers: map<User, set<string>>,
    oauthNames: map<User, set<string>>,
    markers: map<Id, set<string>>,
    reserved: set<string>,
    skipped: set<string>)
  {
    function Held(u: User): set<string> { NamesFor(userServers, u) + NamesFor(oauthNames, u) }

    predicate Knows(f: Fork) { f.workspace in workspaces }

    function UserOf(f: Fork): User
      requires Knows(f)
    {
      workspaces[f.workspace].user
    }

    predicate LiveFor(w: Id, u: User) { w in workspaces && workspaces[w].Live() && workspaces[w].user == u }
  }

  datatype ForkPlan = ForkPlan(promotions: seq<Promotion>, tombstones: set<(Id, string)>, dropped: seq<Fork>)

  predicate AllKnown(inp: ForkInput, forks: seq<Fork>) { forall i :: 0 <= i < |forks| ==> inp.Knows(forks[i]) }

  const FORK_STAMP: Fork -> Stamp := (f: Fork) => Stamp(f.created, f.id)

  // ----- naming one server -----

  datatype Exclusions = Exclusions(original: string, taken: set<string>, reserved: set<string>, others: set<string>)

  predicate MayTake(x: Exclusions, name: string) {
    name !in x.reserved && name !in x.taken && ModuleSafe(name) && (name == x.original || name !in x.others)
  }

  function Takeable(x: Exclusions): string -> bool { name => MayTake(x, name) }

  function ForkNameFor(x: Exclusions): Option<string> { FirstFrom(LegalBase(x.original), Takeable(x), 1) }

  method ForkName(original: string, taken: set<string>, reserved: set<string>, others: set<string>)
    returns (r: Option<string>)
    ensures r == ForkNameFor(Exclusions(original, taken, reserved, others))
  {
    var base := LegalBase(original);
    ghost var ok := Takeable(Exclusions(original, taken, reserved, others));
    var k := 1;
    while k < SUFFIX_TRIES
      invariant 1 <= k <= SUFFIX_TRIES
      invariant FirstFrom(base, ok, 1) == FirstFrom(base, ok, k)
    {
      var name := Candidate(base, k);
      if name in reserved || name in taken || !ModuleSafe(name) {
      } else if name != original && name in others {
      } else {
        return Some(name);
      }
      k := k + 1;
    }
    return None;
  }

  /** Whatever the search returns is a legal module name outside every exclusion set. */
  lemma {:induction false} ForkNameIsLegal(x: Exclusions)
    requires ForkNameFor(x).Some?
    ensures IsLegal(ForkNameFor(x).value) && MayTake(x, ForkNameFor(x).value)
  {
    var base := LegalBase(x.original);
    LegalBaseIsLegal(x.original);
    var n := FirstFromFinds(base, Takeable(x), 1);
    if n > 1 { SuffixedIsLegal(base, n); }
  }

  /** The name is the first of base, base_2, base_3 and so on that nobody reserves, holds or arrives with,
      and that a module may have; each one before it is one of those. */
  lemma {:induction false} ForkNameExactly(x: Exclusions) returns (n: nat)
    requires ForkNameFor(x).Some?
    ensures var base, name := LegalBase(x.original), ForkNameFor(x).value;
            && 1 <= n < SUFFIX_TRIES && name == (if n == 1 then base else Suffixed(base, n))
            && name !in x.reserved + x.taken && (name in x.others ==> name == x.original)
            && forall i :: 1 <= i < n ==>
                 var passed := if i == 1 then base else Suffixed(base, i);
                 || passed in x.reserved + x.taken || (passed in x.others && passed != x.original)
                 || passed in MODULE_NAMES || "__" <= passed
  {
    hide Suffixed, LegalBase;
    var base := LegalBase(x.original);
    n := FirstFromFinds(base, Takeable(x), 1);
    forall i | 1 <= i < n
      ensures Candidate(base, i) == if i == 1 then base else Suffixed(base, i)
      ensures !MayTake(x, Candidate(base, i)) { }
  }

  /** The search only gives up when at least 9,998 names are excluded: no numbered candidate is
      ever unsafe as a module, and no two candidates coincide. */
  lemma {:induction false} ForkNameIsTotal(x: Exclusions)
    requires |x.taken + x.reserved + x.others| < SUFFIX_TRIES - 2
    ensures ForkNameFor(x).Some?
  {
    var base := LegalBase(x.original);
    LegalBaseIsLegal(x.original);
    var excluded := x.taken + x.reserved + x.others;
    forall c | !Takeable(x)(c) && (exists n :: 2 <= n < SUFFIX_TRIES && c == Suffixed(base, n))
      ensures c in excluded
    {
      var n :| 2 <= n < SUFFIX_TRIES && c == Suffixed(base, n);
      SuffixedIsLegal(base, n);
    }
    SearchIsTotal(base, Takeable(x), excluded);
  }

  /** An unclashing, legal name is kept as it is. */
  lemma {:induction false} UnclashingNameIsKept(x: Exclusions)
    requires IsLegal(x.original) && x.original !in x.taken + x.reserved
    ensures ForkNameFor(x) == Some(x.original)
  {
    LegalNameIsItsOwnBase(x.original);
    assert Candidate(LegalBase(x.original), 1) == x.original;
  }

  // ----- the whole plan -----

  function Live(inp: ForkInput): Fork -> bool { f => inp.Knows(f) && inp.workspaces[f.workspace].Live() }

  function Dead(inp: ForkInput): Fork -> bool { f => inp.Knows(f) && !inp.workspaces[f.workspace].Live() }

  function LiveForks(inp: ForkInput, forks: seq<Fork>): (r: seq<Fork>)
    ensures AllKnown(inp, r)
  {
    var r := Filter(forks, Live(inp));
    assert forall i :: 0 <= i < |r| ==> r[i] in r;
    r
  }

  /** Every name a fork of this user arrives with. */
  function Originals(inp: ForkInput, live: seq<Fork>, u: User): set<string>
    requires AllKnown(inp, live)
  {
    set i | 0 <= i < |live| && inp.UserOf(live[i]) == u :: live[i].name
  }

  /** Every name already handed out to this user. */
  function Claimed(ps: seq<Promotion>, u: User): set<string> {
    set i | 0 <= i < |ps| && ps[i].user == u :: ps[i].name
  }

  function ExclusionsFor(inp: ForkInput, live: seq<Fork>, ps: seq<Promotion>, f: Fork): Exclusions
    requires AllKnown(inp, live) && inp.Knows(f)
  {
    var u := inp.UserOf(f);
    Exclusions(f.name, inp.Held(u) + Claimed(ps, u) + NamesFor(inp.markers, f.workspace), inp.reserved,
        Originals(inp, live, u))
  }

  predicate Ran(inp: ForkInput, f: Fork) { f.enabled && f.name !in inp.skipped }

  function Promoted(inp: ForkInput, f: Fork, name: string): Promotion
    requires inp.Knows(f)
  {
    Promotion(inp.UserOf(f), f.workspace, f.name, name, f.columns, Ran(inp, f), false)
  }

  /** The promotions of the first n live forks, oldest first; None when a name search failed. */
  function Promotions(inp: ForkInput, live: seq<Fork>, n: nat): (r: Option<seq<Promotion>>)
    requires AllKnown(inp, live) && n <= |live|
    ensures r.Some? ==> |r.value| == n
  {
    if n == 0 then Some([])
    else match Promotions(inp, live, n - 1)
         case None => None
         case Some(ps) =>
           match ForkNameFor(ExclusionsFor(inp, live, ps, live[n - 1]))
           case None => None
           case Some(name) => Some(ps + [Promoted(inp, live[n - 1], name)])
  }

  /** The off switches one promotion needs: everywhere it did not run, and its old name where it
      used to keep an account server out. */
  function TombstonesOf(inp: ForkInput, p: Promotion): set<(Id, string)> {
    (set w | w in inp.workspaces && inp.LiveFor(w, p.user) && (w != p.workspace || !p.enabled) :: (w, p.name))
    + if p.sourceName in inp.Held(p.user) && p.sourceName !in inp.skipped then {(p.workspace, p.sourceName)} else {}
  }

  function Tombstones(inp: ForkInput, ps: seq<Promotion>): (r: set<(Id, string)>)
    ensures forall t :: t in r <==> exists i :: 0 <= i < |ps| && t in TombstonesOf(inp, ps[i])
  {
    if ps == [] then {}
    else
      var init := ps[..|ps| - 1];
      var last := ps[|ps| - 1];
      assert ps[|init|] == last && forall i :: 0 <= i < |init| ==> ps[i] == init[i];
      Tombstones(inp, init) + TombstonesOf(inp, last)
  }

  function PlannedForks(inp: ForkInput, forks: seq<Fork>): Option<ForkPlan>
  {
    var sorted := Sorted(forks, FORK_STAMP);
    var live := LiveForks(inp, sorted);
    match Promotions(inp, live, |live|)
    case None => None
    case Some(ps) => Some(ForkPlan(ps, Tombstones(inp, ps), Filter(sorted, Dead(inp))))
  }

  /** The plan depends on the rows, not on the order the database returned them in. */
  lemma {:induction false} PlanIgnoresArrival(inp: ForkInput, a: seq<Fork>, b: seq<Fork>)
    requires multiset(a) == multiset(b)
    requires DistinctStamps(multiset(a), FORK_STAMP)
    ensures PlannedForks(inp, a) == PlannedForks(inp, b)
  {
    SortIgnoresArrival(a, b, FORK_STAMP);
  }

  method PlanForks(inp: ForkInput, forks: seq<Fork>) returns (plan: Option<ForkPlan>)
    requires AllKnown(inp, forks)
    ensures plan == PlannedForks(inp, forks)
  {
    hide ForkNameFor, TombstonesOf, Tombstones, Claimed;
    var sorted := Sorted(forks, FORK_STAMP);
    SortedStaysKnown(inp, forks);
    var live, dropped := SplitByLiveness(inp, sorted);
    var originals := CollectOriginals(inp, live);
    var claimed: map<User, set<string>> := map[];
    NothingYet(inp);
    var promotions: seq<Promotion> := [];
    var tombstones: set<(Id, string)> := {};
    var i := 0;
    while i < |live|
      invariant 0 <= i <= |live|
      invariant Promotions(inp, live, i) == Some(promotions)
      invariant forall u :: NamesFor(claimed, u) == Claimed(promotions, u)
      invariant tombstones == Tombstones(inp, promotions)
    {
      var fork := live[i];
      var user := inp.UserOf(fork);
      var name := ForkName(fork.name, inp.Held(user) + NamesFor(claimed, user) + NamesFor(inp.markers, fork.workspace),
                           inp.reserved, NamesFor(originals, user));
      assert name == ForkNameFor(ExclusionsFor(inp, live, promotions, fork));
      if name.None? {
        PromotionsStayNone(inp, live, i + 1, |live|);
        return None;
      }
      var p := Promoted(inp, fork, name.value);
      ClaimedGrows(promotions, p);
      TombstonesGrow(inp, promotions, p);
      claimed := Adding(claimed, user, name.value);
      promotions := promotions + [p];
      tombstones := SwitchOff(inp, tombstones, p);
      i := i + 1;
    }
    plan := Some(ForkPlan(promotions, tombstones, dropped));
  }

  lemma {:induction false} SortedStaysKnown(inp: ForkInput, forks: seq<Fork>)
    requires AllKnown(inp, forks)
    ensures AllKnown(inp, Sorted(forks, FORK_STAMP))
  {
    var sorted := Sorted(forks, FORK_STAMP);
    forall i | 0 <= i < |sorted| ensures inp.Knows(sorted[i]) {
      assert sorted[i] in multiset(sorted);
      assert sorted[i] in forks;
    }
  }

  method SplitByLiveness(inp: ForkInput, sorted: seq<Fork>) returns (live: seq<Fork>, dropped: seq<Fork>)
    requires AllKnown(inp, sorted)
    ensures live == LiveForks(inp, sorted) && dropped == Filter(sorted, Dead(inp))
  {
    live, dropped := [], [];
    for i := 0 to |sorted|
      invariant live == LiveForks(inp, sorted[..i]) && dropped == Filter(sorted[..i], Dead(inp))
    {
      assert sorted[..i + 1][..i] == sorted[..i];
      if inp.workspaces[sorted[i].workspace].Live() {
        live := live + [sorted[i]];
      } else {
        dropped := dropped + [sorted[i]];
      }
    }
    assert sorted[..|sorted|] == sorted;
  }

  method SwitchOff(inp: ForkInput, before: set<(Id, string)>, p: Promotion) returns (tombstones: set<(Id, string)>)
    ensures tombstones == before + TombstonesOf(inp, p)
  {
    tombstones := before;
    var todo := set w | w in inp.workspaces && inp.LiveFor(w, p.user);
    ghost var done := {};
    while todo != {}
      invariant forall w :: w in todo || w in done <==> w in inp.workspaces && inp.LiveFor(w, p.user)
      invariant tombstones == before + set w | w in done && (w != p.workspace || !p.enabled) :: (w, p.name)
      decreases todo
    {
      var w :| w in todo;
      if w != p.workspace || !p.enabled {
        tombstones := tombstones + {(w, p.name)};
      }
      todo, done := todo - {w}, done + {w};
    }
    if p.sourceName in inp.Held(p.user) && p.sourceName !in inp.skipped {
      tombstones := tombstones + {(p.workspace, p.sourceName)};
    }
  }

  lemma {:induction false} NothingYet(inp: ForkInput)
    ensures Tombstones(inp, []) == {} && forall u :: Claimed([], u) == {}
  {
  }

  lemma {:induction false} TombstonesGrow(inp: ForkInput, ps: seq<Promotion>, p: Promotion)
    ensures Tombstones(inp, ps + [p]) == Tombstones(inp, ps) + TombstonesOf(inp, p)
  {
    assert (ps + [p])[..|ps|] == ps;
  }

  method CollectOriginals(inp: ForkInput, live: seq<Fork>) returns (originals: map<User, set<string>>)
    requires AllKnown(inp, live)
    ensures forall u :: NamesFor(originals, u) == Originals(inp, live, u)
  {
    originals := map[];
    for i := 0 to |live|
      invariant forall u :: NamesFor(originals, u) == Originals(inp, live[..i], u)
    {
      forall u ensures Originals(inp, live[..i + 1], u)
                       == Originals(inp, live[..i], u) + if u == inp.UserOf(live[i]) then {live[i].name} else {}
      {
        var a, b := live[..i], live[..i + 1];
        forall n | n in Originals(inp, b, u)
          ensures n in Originals(inp, a, u) + if u == inp.UserOf(live[i]) then {live[i].name} else {}
        {
          var j :| 0 <= j < |b| && inp.UserOf(b[j]) == u && b[j].name == n;
          assert j < i ==> a[j] == b[j];
        }
        forall n | n in Originals(inp, a, u) ensures n in Originals(inp, b, u) {
          var j :| 0 <= j < |a| && inp.UserOf(a[j]) == u && a[j].name == n;
          assert b[j] == a[j];
        }
        assert b[i] == live[i];
      }
      originals := Adding(originals, inp.UserOf(live[i]), live[i].name);
    }
    assert live[..|live|] == live;
  }

  lemma {:induction false} ClaimedGrows(ps: seq<Promotion>, p: Promotion)
    ensures forall u :: Claimed(ps + [p], u) == Claimed(ps, u) + if u == p.user then {p.name} else {}
  {
    var qs := ps + [p];
    forall u ensures Claimed(qs, u) == Claimed(ps, u) + if u == p.user then {p.name} else {} {
      forall n | n in Claimed(ps, u) ensures n in Claimed(qs, u) {
        var j :| 0 <= j < |ps| && ps[j].user == u && ps[j].name == n;
        assert qs[j] == ps[j];
      }
      assert qs[|ps|] == p;
    }
  }

  lemma {:induction false} PromotionsStayNone(inp: ForkInput, live: seq<Fork>, n: nat, m: nat)
    requires AllKnown(inp, live) && n <= m <= |live|
    requires Promotions(inp, live, n).None?
    ensures Promotions(inp, live, m).None?
    decreases m
  {
    hide ForkNameFor;
    if n < m { PromotionsStayNone(inp, live, n, m - 1); }
  }

  // ----- what every plan satisfies -----

  /** Promotion j is fork j under a legal name outside every exclusion set. */
  ghost predicate WellNamed(inp: ForkInput, live: seq<Fork>, p: Promotion, j: nat)
    requires AllKnown(inp, live) && j < |live|
  {
    var f := live[j];
    && p == Promoted(inp, f, p.name)
    && IsLegal(p.name)
    && p.name !in inp.reserved
    && p.name !in inp.Held(p.user)
    && p.name !in NamesFor(inp.markers, p.workspace)
    && (p.name == f.name || p.name !in Originals(inp, live, p.user))
  }

  ghost predicate NamesUnique(ps: seq<Promotion>) {
    forall i, j :: 0 <= i < j < |ps| && ps[i].user == ps[j].user ==> ps[i].name != ps[j].name
  }

  /** Promoted names are legal, unreserved, free in the account and in their own workspace, unique
      per user, and a suffix never takes the name another fork arrives with. */
  lemma {:induction false} PromotionsAreWellNamed(inp: ForkInput, live: seq<Fork>, n: nat)
    requires AllKnown(inp, live) && n <= |live| && Promotions(inp, live, n).Some?
    ensures forall j :: 0 <= j < n ==> WellNamed(inp, live, Promotions(inp, live, n).value[j], j)
    ensures NamesUnique(Promotions(inp, live, n).value)
  {
    hide ForkNameFor;
    if n == 0 {
    } else {
      PromotionsAreWellNamed(inp, live, n - 1);
      var ps := Promotions(inp, live, n - 1).value;
      var x := ExclusionsFor(inp, live, ps, live[n - 1]);
      ForkNameIsLegal(x);
      var qs := Promotions(inp, live, n).value;
      forall i | 0 <= i < n - 1 && qs[i].user == qs[n - 1].user ensures qs[i].name != qs[n - 1].name {
        assert ps[i].name in Claimed(ps, qs[n - 1].user);
      }
    }
  }

  /** How many of the first n forks are this account's. */
  function Mine(inp: ForkInput, live: seq<Fork>, n: nat, u: User): nat
    requires AllKnown(inp, live) && n <= |live|
  {
    if n == 0 then 0 else Mine(inp, live, n - 1, u) + if inp.UserOf(live[n - 1]) == u then 1 else 0
  }

  lemma {:induction false} MineAscends(inp: ForkInput, live: seq<Fork>, m: nat, n: nat, u: User)
    requires AllKnown(inp, live) && m <= n <= |live|
    ensures Mine(inp, live, m, u) <= Mine(inp, live, n, u)
    decreases n
  {
    if m == n {
    } else {
      MineAscends(inp, live, m, n - 1, u);
    }
  }

  lemma {:induction false} LastPromotion(inp: ForkInput, live: seq<Fork>, n: nat)
    returns (ps: seq<Promotion>, p: Promotion)
    requires AllKnown(inp, live) && 0 < n <= |live| && Promotions(inp, live, n).Some?
    ensures Promotions(inp, live, n - 1) == Some(ps) && Promotions(inp, live, n) == Some(ps + [p])
    ensures p.user == inp.UserOf(live[n - 1])
  {
    hide ForkNameFor, ExclusionsFor;
    ps := Promotions(inp, live, n - 1).value;
    p := Promotions(inp, live, n).value[n - 1];
  }

  /** An account is handed one name for each of its own forks. */
  lemma {:induction false} ClaimedSize(inp: ForkInput, live: seq<Fork>, n: nat, u: User)
    requires AllKnown(inp, live) && n <= |live| && Promotions(inp, live, n).Some?
    ensures |Claimed(Promotions(inp, live, n).value, u)| <= Mine(inp, live, n, u)
  {
    if n == 0 {
      assert Claimed([], u) == {};
    } else {
      var ps, p := LastPromotion(inp, live, n);
      hide Promotions, Claimed;
      ClaimedSize(inp, live, n - 1, u);
      ClaimedGrows(ps, p);
      Pigeonhole.UnionSize(Claimed(ps, u), if u == p.user then {p.name} else {});
    }
  }

  /** What keeps a fork's search going at most: the names its account, workspace and operator hold, and
      one for each fork of its account. */
  function Room(inp: ForkInput, live: seq<Fork>, f: Fork): nat
    requires AllKnown(inp, live) && inp.Knows(f)
  {
    var u := inp.UserOf(f);
    |inp.Held(u) + NamesFor(inp.markers, f.workspace) + inp.reserved + Originals(inp, live, u)|
        + Mine(inp, live, |live|, u)
  }

  /** When no account's excluded names and own forks exceed 9,998 together, there is a plan. */
  lemma {:induction false} PlanIsTotal(inp: ForkInput, live: seq<Fork>, n: nat)
    requires AllKnown(inp, live) && n <= |live|
    requires forall i :: 0 <= i < |live| ==> Room(inp, live, live[i]) <= SUFFIX_TRIES - 2
    ensures Promotions(inp, live, n).Some?
  {
    hide ForkNameFor, Room, ExclusionsFor, Originals, Claimed, Mine;
    if n == 0 {
    } else {
      PlanIsTotal(inp, live, n - 1);
      ExclusionsStaySmall(inp, live, n - 1);
      ForkNameIsTotal(ExclusionsFor(inp, live, Promotions(inp, live, n - 1).value, live[n - 1]));
    }
  }

  lemma {:induction false} ExclusionsStaySmall(inp: ForkInput, live: seq<Fork>, n: nat)
    requires AllKnown(inp, live) && n < |live| && Promotions(inp, live, n).Some?
    ensures var x := ExclusionsFor(inp, live, Promotions(inp, live, n).value, live[n]);
            |x.taken + x.reserved + x.others| < Room(inp, live, live[n])
  {
    hide Originals, Claimed, NamesFor, Promotions;
    var f, ps := live[n], Promotions(inp, live, n).value;
    var u := inp.UserOf(f);
    var fixed := inp.Held(u) + NamesFor(inp.markers, f.workspace) + inp.reserved + Originals(inp, live, u);
    var x := ExclusionsFor(inp, live, ps, f);
    ClaimedSize(inp, live, n, u);
    MineAscends(inp, live, n + 1, |live|, u);
    Pigeonhole.UnionSize(fixed, Claimed(ps, u));
    Pigeonhole.SubsetSize(x.taken + x.reserved + x.others, fixed + Claimed(ps, u));
  }
}
