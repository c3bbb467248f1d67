/** jsonb_deep_merge of migration 035, against MergePatch of section 2 of RFC 7396. */
module JsonMerge {
  import opened Options

  datatype Json =
    | Null
    | Bool(b: bool)
    | Num(n: int)
    | Str(s: string)
    | Arr(items: seq<Json>)
    | Obj(members: map<string, Json>)

  function Members(j: Json): map<string, Json> { if j.Obj? then j.members else map[] }

  /** The merge as one map: every key of either side, decided independently. */
  function DeepMerge(a: Json, b: Json): Json
    decreases b
  {
    if !a.Obj? || !b.Obj? then b
    else Obj(map k | k in a.members.Keys + b.members.Keys && (k in b.members ==> b.members[k] != Null) ::
               if k !in b.members then a.members[k]
               else if !b.members[k].Obj? then b.members[k]
               else DeepMerge(if k in a.members && a.members[k].Obj? then a.members[k] else Obj(map[]), b.members[k]))
  }

  /** The function as written: a loop over the patch keys that rewrites one value at a time. The
      keys come in whatever order the database returns them. */
  method JsonbDeepMerge(a: Json, b: Json) returns (merged: Json)
    ensures merged == DeepMerge(a, b)
    decreases b
  {
    if !a.Obj? || !b.Obj? {
      return b;
    }
    merged := a;
    var todo := b.members.Keys;
    ghost var done: set<string> := {};
    while todo != {}
      invariant todo + done == b.members.Keys && todo !! done
      invariant merged.Obj?
      invariant forall k :: k !in done ==> (k in merged.members <==> k in a.members)
      invariant forall k :: k !in done && k in a.members ==> merged.members[k] == a.members[k]
      invariant forall k :: k in done ==> (k in merged.members <==> k in DeepMerge(a, b).members)
      invariant forall k :: k in done && k in merged.members ==> merged.members[k] == DeepMerge(a, b).members[k]
      decreases todo
    {
      var k :| k in todo;
      if b.members[k] == Null {
        merged := Obj(merged.members - {k});
      } else if b.members[k].Obj? {
        var value := JsonbDeepMerge(if k in merged.members && merged.members[k].Obj? then merged.members[k]
            else Obj(map[]), b.members[k]);
        merged := Obj(merged.members[k := value]);
      } else {
        merged := Obj(merged.members[k := b.members[k]]);
      }
      todo, done := todo - {k}, done + {k};
    }
    assert merged.members == DeepMerge(a, b).members;
  }

  /** MergePatch(Target, Patch); an absent target is any non-object. */
  function MergePatch(target: Json, patch: Json): Json
    decreases patch
  {
    if patch.Obj? then
      var t := Members(target);
      Obj(map k | k in t.Keys + patch.members.Keys && (k in patch.members ==> patch.members[k] != Null) ::
            if k in patch.members then MergePatch(if k in t then t[k] else Null, patch.members[k]) else t[k])
    else patch
  }

  /** No null stands as an object member, at any depth of objects. */
  predicate Clean(j: Json) {
    j.Obj? ==> forall k :: k in j.members ==> j.members[k] != Null && Clean(j.members[k])
  }

  /** Only whether the target is an object matters at the top. */
  lemma {:induction false} NonObjectIsEmpty(target: Json, patch: Json)
    requires !target.Obj?
    ensures MergePatch(target, patch) == MergePatch(Obj(map[]), patch)
  {
  }

  /** On an object target the merge is the standard's. */
  lemma {:induction false} ObjectTargetIsMergePatch(a: Json, b: Json)
    requires a.Obj?
    ensures DeepMerge(a, b) == MergePatch(a, b)
    decreases b
  {
    if b.Obj? {
      forall k | k in b.members && b.members[k].Obj?
        ensures DeepMerge(if k in a.members && a.members[k].Obj? then a.members[k] else Obj(map[]), b.members[k])
                == MergePatch(if k in a.members then a.members[k] else Null, b.members[k])
      {
        var target := if k in a.members && a.members[k].Obj? then a.members[k] else Obj(map[]);
        ObjectTargetIsMergePatch(target, b.members[k]);
        if k in a.members && !a.members[k].Obj? { NonObjectIsEmpty(a.members[k], b.members[k]); }
        NonObjectIsEmpty(Null, b.members[k]);
      }
      assert DeepMerge(a, b).members == MergePatch(a, b).members;
    }
  }

  /** Patching nothing gives the patch back exactly when the patch holds no null member. */
  lemma {:induction false} PatchOfNothing(b: Json)
    requires b.Obj?
    ensures DeepMerge(Obj(map[]), b) == b <==> Clean(b)
    decreases b
  {
    var r := DeepMerge(Obj(map[]), b);
    forall k | k in b.members && b.members[k].Obj?
      ensures DeepMerge(Obj(map[]), b.members[k]) == b.members[k] <==> Clean(b.members[k]) {
      PatchOfNothing(b.members[k]);
    }
    if Clean(b) {
      assert r.members == b.members;
    } else {
      var k :| k in b.members && (b.members[k] == Null || !Clean(b.members[k]));
      assert b.members[k] == Null ==> k !in r.members;
      assert b.members[k] != Null ==> r.members[k] != b.members[k];
    }
  }

  /** The merge meets the standard exactly when the target is an object, or the patch is not one,
      or the patch holds no null member: a non-object target keeps the patch verbatim, nulls and all. */
  lemma {:induction false} MergePatchExactly(a: Json, b: Json)
    ensures DeepMerge(a, b) == MergePatch(a, b) <==> a.Obj? || !b.Obj? || Clean(b)
  {
    if a.Obj? {
      ObjectTargetIsMergePatch(a, b);
    } else if b.Obj? {
      NonObjectIsEmpty(a, b);
      ObjectTargetIsMergePatch(Obj(map[]), b);
      PatchOfNothing(b);
    }
  }

  /** An input on which the two differ. */
  lemma {:induction false} MergePatchDiffers()
    ensures var b := Obj(map["x" := Null]);
            DeepMerge(Null, b) == b && MergePatch(Null, b) == Obj(map[])
  {
    var b := Obj(map["x" := Null]);
    assert MergePatch(Null, b).members == map[];
  }

  lemma {:induction false} MergeTwiceIntoObject(a: Json, p: Json)
    requires a.Obj?
    ensures DeepMerge(DeepMerge(a, p), p) == DeepMerge(a, p)
    decreases p
  {
    if p.Obj? {
      var once := DeepMerge(a, p);
      forall k | k in p.members && p.members[k].Obj?
        ensures var inner := if k in a.members && a.members[k].Obj? then a.members[k] else Obj(map[]);
                k in once.members && once.members[k] == DeepMerge(inner, p.members[k])
                && DeepMerge(once.members[k], p.members[k]) == once.members[k]
      {
        MergeTwiceIntoObject(if k in a.members && a.members[k].Obj? then a.members[k] else Obj(map[]), p.members[k]);
      }
      assert DeepMerge(once, p).members == once.members;
    }
  }

  lemma {:induction false} MergeOntoItself(p: Json)
    requires p.Obj?
    ensures DeepMerge(p, p) == p <==> Clean(p)
    decreases p
  {
    forall k | k in p.members && p.members[k].Obj?
      ensures DeepMerge(p.members[k], p.members[k]) == p.members[k] <==> Clean(p.members[k]) {
      MergeOntoItself(p.members[k]);
    }
    var r := DeepMerge(p, p);
    if Clean(p) {
      assert r.members == p.members;
    } else {
      var k :| k in p.members && (p.members[k] == Null || !Clean(p.members[k]));
      assert p.members[k] == Null ==> k !in r.members;
      assert p.members[k] != Null ==> r.members[k] != p.members[k];
    }
  }

  /** Sending a patch twice equals sending it once, except where a non-object target took a patch
      with a null member verbatim. */
  lemma {:induction false} MergeTwiceExactly(a: Json, p: Json)
    ensures DeepMerge(DeepMerge(a, p), p) == DeepMerge(a, p) <==> a.Obj? || !p.Obj? || Clean(p)
  {
    if a.Obj? {
      MergeTwiceIntoObject(a, p);
    } else if p.Obj? {
      MergeOntoItself(p);
    }
  }

  // ----- paths -----

  /** What stands at a path of object keys. */
  function At(j: Json, path: seq<string>): Option<Json>
    decreases |path|
  {
    if path == [] then Some(j)
    else if path[0] in Members(j) then At(Members(j)[path[0]], path[1..])
    else None
  }

  /** The patch says nothing about this path: it leaves the patch at an object key it lacks. */
  predicate Outside(p: Json, path: seq<string>)
    decreases |path|
  {
    path != [] && p.Obj? && (path[0] !in p.members || Outside(p.members[path[0]], path[1..]))
  }

  /** A sibling the patch does not mention stays as it was, at any depth. */
  lemma {:induction false} OutsideIsUntouched(a: Json, p: Json, path: seq<string>)
    requires a.Obj? && Outside(p, path)
    ensures At(DeepMerge(a, p), path) == At(a, path)
    decreases |path|
  {
    var k := path[0];
    if k in p.members {
      var inner := if k in a.members && a.members[k].Obj? then a.members[k] else Obj(map[]);
      OutsideIsUntouched(inner, p.members[k], path[1..]);
      assert At(Obj(map[]), path[1..]) == None;
    }
  }

  /** A null in the patch is a delete at whatever depth: no null member appears that the target
      did not already hold. */
  lemma {:induction false} NoNewNull(a: Json, p: Json, path: seq<string>)
    requires a.Obj? && p.Obj? && path != []
    requires At(DeepMerge(a, p), path) == Some(Null)
    ensures At(a, path) == Some(Null)
    decreases |path|
  {
    var k := path[0];
    if k in p.members {
      if p.members[k].Obj? {
        var inner := if k in a.members && a.members[k].Obj? then a.members[k] else Obj(map[]);
        if |path| > 1 {
          NoNewNull(inner, p.members[k], path[1..]);
        }
      }
    }
  }
}
