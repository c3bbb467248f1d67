/** plan_tool_schemas of migration 055, and the delete-then-rename pass it drives. */
module SnapshotPlanner {
  import opened Options
  import opened UserTierModel

  type Snapshot = string
  // (workspace, server name, config hash): the table's unique key.
  type Key = (Id, string, string)
  type Cache = map<Key, Snapshot>

  datatype Rename = Rename(workspace: Id, source: string, target: string)

  function DeletesOf(p: Promotion): set<(Id, string)> {
    if p.refsRewritten then {(p.workspace, p.sourceName), (p.workspace, p.name)} else {}
  }

  function RenamesOf(p: Promotion): seq<Rename> {
    if !p.refsRewritten && p.name != p.sourceName then [Rename(p.workspace, p.sourceName, p.name)] else []
  }

  function RewrittenNames(ps: seq<Promotion>): (r: set<(Id, string)>)
    ensures forall d :: d in r <==> exists i :: 0 <= i < |ps| && d in DeletesOf(ps[i])
  {
    if ps == [] then {}
    else
      var init, last := ps[..|ps| - 1], ps[|ps| - 1];
      assert ps == init + [last];
      RewrittenNames(init) + DeletesOf(last)
  }

  function Deletes(ps: seq<Promotion>, dropped: seq<Fork>): set<(Id, string)> {
    (set i | 0 <= i < |dropped| :: (dropped[i].workspace, dropped[i].name)) + RewrittenNames(ps)
  }

  function Renames(ps: seq<Promotion>): (r: seq<Rename>)
    ensures forall x :: x in r <==> exists i :: 0 <= i < |ps| && RenamesOf(ps[i]) == [x]
  {
    if ps == [] then []
    else
      var init, last := ps[..|ps| - 1], ps[|ps| - 1];
      assert ps == init + [last];
      Renames(init) + RenamesOf(last)
  }

  method PlanToolSchemas(ps: seq<Promotion>, dropped: seq<Fork>)
    returns (deletes: set<(Id, string)>, renames: seq<Rename>)
    ensures deletes == Deletes(ps, dropped) && renames == Renames(ps)
  {
    deletes := set i | 0 <= i < |dropped| :: (dropped[i].workspace, dropped[i].name);
    ghost var first := deletes;
    renames := [];
    for i := 0 to |ps|
      invariant deletes == first + RewrittenNames(ps[..i])
      invariant renames == Renames(ps[..i])
    {
      assert ps[..i + 1][..i] == ps[..i];
      var p := ps[i];
      if p.refsRewritten {
        deletes := deletes + {(p.workspace, p.sourceName)} + {(p.workspace, p.name)};
      } else if p.name != p.sourceName {
        renames := renames + [Rename(p.workspace, p.sourceName, p.name)];
      }
    }
    assert ps[..|ps|] == ps;
  }

  // ----- the two statements -----

  function Deleted(c: Cache, names: set<(Id, string)>): Cache { map k | k in c && (k.0, k.1) !in names :: c[k] }

  function Moved(r: Rename, k: Key): Key { if (k.0, k.1) == (r.workspace, r.source) then (k.0, r.target, k.2) else k }

  /** UPDATE ... SET server_name: fails when a moved row meets one already under its new key. */
  function RenameOne(c: Cache, r: Rename): Option<Cache> {
    if exists k :: k in c && Moved(r, k) != k && Moved(r, k) in c then None
    else Some(
      (map k | k in c && (k.0, k.1) != (r.workspace, r.source) :: c[k])
      + map k | k in c && (k.0, k.1) == (r.workspace, r.source) :: (k.0, r.target, k.2) := c[k])
  }

  function RenameEach(c: Cache, rs: seq<Rename>): Option<Cache> {
    if rs == [] then Some(c)
    else match RenameEach(c, rs[..|rs| - 1])
         case None => None
         case Some(d) => RenameOne(d, rs[|rs| - 1])
  }

  // ----- one simultaneous relabelling -----

  function Target(rs: seq<Rename>, w: Id, name: string): string {
    if rs == [] then name
    else if rs[|rs| - 1].workspace == w && rs[|rs| - 1].source == name then rs[|rs| - 1].target
    else Target(rs[..|rs| - 1], w, name)
  }

  function Relabelled(rs: seq<Rename>, k: Key): Key { (k.0, Target(rs, k.0, k.1), k.2) }

  function MoveBy(r: Rename): Key -> Key { k => Moved(r, k) }
  function RelabelBy(rs: seq<Rename>): Key -> Key { k => Relabelled(rs, k) }

  /** d is c with every row's key changed by f at once, no two rows meeting. */
  ghost predicate MovesBy(c: Cache, d: Cache, f: Key -> Key) {
    && (forall k :: k in c ==> f(k) in d && d[f(k)] == c[k])
    && (forall k :: k in d ==> exists j :: j in c && f(j) == k)
    && (forall j, k :: j in c && k in c && f(j) == f(k) ==> j == k)
  }

  lemma {:induction false} MovesCompose(c: Cache, d: Cache, e: Cache, f: Key -> Key, g: Key -> Key, h: Key -> Key)
    requires MovesBy(c, d, f) && MovesBy(d, e, g)
    requires forall k :: k in c ==> h(k) == g(f(k))
    ensures MovesBy(c, e, h)
  {
    forall k | k in e ensures exists j :: j in c && h(j) == k {
      var m :| m in d && g(m) == k;
      var j :| j in c && f(j) == m;
      assert h(j) == k;
    }
  }

  /** Within a workspace no source or target repeats, and no target is another's source. */
  ghost predicate Independent(rs: seq<Rename>) {
    forall i, j :: 0 <= i < |rs| && 0 <= j < |rs| && rs[i].workspace == rs[j].workspace ==>
      && rs[i].target != rs[j].source
      && (i != j ==> rs[i].source != rs[j].source && rs[i].target != rs[j].target)
  }

  /** Within a workspace no source or name repeats, and a changed name is nobody's source. */
  ghost predicate Unchained(ps: seq<Promotion>) {
    forall i, j :: 0 <= i < |ps| && 0 <= j < |ps| && ps[i].workspace == ps[j].workspace ==>
      && (ps[i].name != ps[i].sourceName ==> ps[i].name != ps[j].sourceName)
      && (i != j ==> ps[i].sourceName != ps[j].sourceName && ps[i].name != ps[j].name)
  }

  lemma {:induction false} IndependentWith(rs: seq<Rename>, r: Rename)
    requires Independent(rs) && r.source != r.target
    requires forall x :: x in rs && x.workspace == r.workspace ==>
      x.source != r.source && x.target != r.target && x.target != r.source && r.target != x.source
    ensures Independent(rs + [r])
  {
    var all := rs + [r];
    forall i, j | 0 <= i < |all| && 0 <= j < |all| && all[i].workspace == all[j].workspace
      ensures all[i].target != all[j].source
      ensures i != j ==> all[i].source != all[j].source && all[i].target != all[j].target
    {
      if i < |rs| { assert all[i] in rs; }
      if j < |rs| { assert all[j] in rs; }
    }
  }

  /** The renames of an unchained plan never meet one another. */
  lemma {:induction false} RenamesAreIndependent(ps: seq<Promotion>)
    requires Unchained(ps)
    ensures Independent(Renames(ps))
  {
    if ps == [] {
    } else {
      var init, p := ps[..|ps| - 1], ps[|ps| - 1];
      assert Unchained(init);
      RenamesAreIndependent(init);
      if RenamesOf(p) != [] {
        forall x | x in Renames(init) && x.workspace == p.workspace
          ensures x.source != p.sourceName && x.target != p.name && x.target != p.sourceName && p.name != x.source
        {
          var i :| 0 <= i < |init| && RenamesOf(init[i]) == [x];
          assert ps[i] == init[i] && x == Rename(ps[i].workspace, ps[i].sourceName, ps[i].name);
        }
        IndependentWith(Renames(init), RenamesOf(p)[0]);
      }
    }
  }

  ghost predicate TargetsClear(c: Cache, rs: seq<Rename>) {
    forall k, i :: k in c && 0 <= i < |rs| ==> (k.0, k.1) != (rs[i].workspace, rs[i].target)
  }

  lemma {:induction false} TargetCases(rs: seq<Rename>, w: Id, name: string)
    ensures Target(rs, w, name) == name
            || exists i :: 0 <= i < |rs| && rs[i].workspace == w && rs[i].source == name
                && rs[i].target == Target(rs, w, name)
    ensures (forall i :: 0 <= i < |rs| && rs[i].workspace == w ==> rs[i].source != name) ==> Target(rs, w, name) == name
  {
    if rs == [] {
    } else {
      var init := rs[..|rs| - 1];
      TargetCases(init, w, name);
      if exists i :: 0 <= i < |init| && init[i].workspace == w && init[i].source == name
          && init[i].target == Target(init, w, name) {
        var i :| 0 <= i < |init| && init[i].workspace == w && init[i].source == name
            && init[i].target == Target(init, w, name);
        assert rs[i] == init[i];
      }
    }
  }

  /** Before the last rename runs, the rows under its source are exactly the original ones, and
      nothing is under its target. */
  lemma {:induction false} LastRenameIsFree(c: Cache, rs: seq<Rename>, k: Key)
    requires rs != [] && Independent(rs) && TargetsClear(c, rs) && k in c
    ensures var init, r := rs[..|rs| - 1], rs[|rs| - 1];
            && ((Relabelled(init, k).0, Relabelled(init, k).1) == (r.workspace, r.source)
                <==> (k.0, k.1) == (r.workspace, r.source))
            && (Relabelled(init, k).0, Relabelled(init, k).1) != (r.workspace, r.target)
            && Relabelled(rs, k) == Moved(r, Relabelled(init, k))
  {
    var init, r := rs[..|rs| - 1], rs[|rs| - 1];
    TargetCases(init, k.0, k.1);
    if Target(init, k.0, k.1) != k.1 {
      var i :| 0 <= i < |init| && init[i].workspace == k.0 && init[i].source == k.1
          && init[i].target == Target(init, k.0, k.1);
      assert rs[i] == init[i];
    } else if (k.0, k.1) == (r.workspace, r.source) {
      forall i | 0 <= i < |init| && init[i].workspace == k.0 ensures init[i].source != k.1 { assert rs[i] == init[i]; }
    }
  }

  /** An update onto a name nobody holds moves its rows and nothing else. */
  lemma {:induction false} RenameOneMoves(d: Cache, r: Rename)
    requires r.source != r.target
    requires forall k :: k in d ==> (k.0, k.1) != (r.workspace, r.target)
    ensures RenameOne(d, r).Some? && MovesBy(d, RenameOne(d, r).value, MoveBy(r))
  {
    forall k | k in d ensures Moved(r, k) != k ==> Moved(r, k) !in d {
    }
    var e := RenameOne(d, r).value;
    forall k | k in e ensures exists m :: m in d && MoveBy(r)(m) == k {
      if k in d && (k.0, k.1) != (r.workspace, r.source) {
        assert MoveBy(r)(k) == k;
      } else {
        var m :| m in d && (m.0, m.1) == (r.workspace, r.source) && (m.0, r.target, m.2) == k;
        assert MoveBy(r)(m) == k;
      }
    }
  }

  lemma {:induction false} RenameOneRelabels(c: Cache, d: Cache, rs: seq<Rename>)
    requires rs != [] && Independent(rs) && TargetsClear(c, rs)
    requires MovesBy(c, d, RelabelBy(rs[..|rs| - 1]))
    ensures RenameOne(d, rs[|rs| - 1]).Some?
    ensures MovesBy(c, RenameOne(d, rs[|rs| - 1]).value, RelabelBy(rs))
  {
    var init, r := rs[..|rs| - 1], rs[|rs| - 1];
    forall k | k in c
      ensures (Relabelled(init, k).0, Relabelled(init, k).1) != (r.workspace, r.target)
      ensures RelabelBy(rs)(k) == MoveBy(r)(RelabelBy(init)(k))
    {
      LastRenameIsFree(c, rs, k);
    }
    forall k | k in d ensures (k.0, k.1) != (r.workspace, r.target) {
      var j :| j in c && RelabelBy(init)(j) == k;
    }
    RenameOneMoves(d, r);
    MovesCompose(c, d, RenameOne(d, r).value, RelabelBy(init), MoveBy(r), RelabelBy(rs));
  }

  /** Run one after another, independent renames over cleared targets never fail and amount to a
      single simultaneous relabelling. */
  lemma {:induction false} SequentialIsSimultaneous(c: Cache, rs: seq<Rename>)
    requires Independent(rs) && TargetsClear(c, rs)
    ensures RenameEach(c, rs).Some? && MovesBy(c, RenameEach(c, rs).value, RelabelBy(rs))
  {
    if rs == [] {
      forall k | k in c ensures RelabelBy(rs)(k) == k {
      }
    } else {
      var init := rs[..|rs| - 1];
      assert Independent(init) && TargetsClear(c, init) by {
        assert forall i :: 0 <= i < |init| ==> init[i] == rs[i];
      }
      SequentialIsSimultaneous(c, init);
      RenameOneRelabels(c, RenameEach(c, init).value, rs);
    }
  }

  lemma {:induction false} TargetOfRename(rs: seq<Rename>, i: nat)
    requires Independent(rs) && i < |rs|
    ensures Target(rs, rs[i].workspace, rs[i].source) == rs[i].target
  {
    var init := rs[..|rs| - 1];
    if i < |init| {
      assert Independent(init) by { assert forall j :: 0 <= j < |init| ==> init[j] == rs[j]; }
      TargetOfRename(init, i);
    }
  }

  lemma {:induction false} NewNameOf(ps: seq<Promotion>, i: nat)
    requires Unchained(ps) && i < |ps| && !ps[i].refsRewritten
    ensures Target(Renames(ps), ps[i].workspace, ps[i].sourceName) == ps[i].name
  {
    var rs, p := Renames(ps), ps[i];
    RenamesAreIndependent(ps);
    if p.name != p.sourceName {
      var r := Rename(p.workspace, p.sourceName, p.name);
      assert RenamesOf(ps[i]) == [r];
      var a :| 0 <= a < |rs| && rs[a] == r;
      TargetOfRename(rs, a);
    } else {
      forall a | 0 <= a < |rs| && rs[a].workspace == p.workspace ensures rs[a].source != p.sourceName {
        assert rs[a] in rs;
        var j :| 0 <= j < |ps| && RenamesOf(ps[j]) == [rs[a]];
      }
      TargetCases(rs, p.workspace, p.sourceName);
    }
  }

  /** Neither a delete nor a rename target ever covers the snapshots of a promoted server whose
      references were left alone. */
  lemma {:induction false} SourceIsNotStale(ps: seq<Promotion>, i: nat)
    requires Unchained(ps) && i < |ps| && !ps[i].refsRewritten
    ensures (ps[i].workspace, ps[i].sourceName) !in RewrittenNames(ps) + set r | r in Renames(ps) ::
        (r.workspace, r.target)
  {
    var k := (ps[i].workspace, ps[i].sourceName);
    forall j | 0 <= j < |ps| ensures k !in DeletesOf(ps[j]) {
    }
    forall r | r in Renames(ps) ensures k != (r.workspace, r.target) {
      var j :| 0 <= j < |ps| && RenamesOf(ps[j]) == [r];
    }
  }
}
