/** Rows the 055 planner reads, and the (created, id) order it works in. */
module UserTierModel {
  import opened Options

  // A UUID; its text order is the numeric order.
  type Id = nat
  type User = string
  type Value = string
  type Digest = string

  datatype Workspace = Workspace(user: User, status: string) {
    predicate Live() { status != "deleted" }
  }

  /** A server definition as user_mcp_servers columns; `other` is every column no reference sits in. */
  datatype Columns = Columns(
    args: seq<string>, url: Option<string>, env: map<string, string>, headers: map<string, string>, other: string)

  datatype Fork = Fork(id: Id, workspace: Id, name: string, enabled: bool, columns: Columns, created: int)

  datatype Promotion = Promotion(
    user: User, workspace: Id, sourceName: string, name: string, columns: Columns, enabled: bool, refsRewritten: bool)

  /** `value` is what the ciphertext decrypts to; the planner only ever compares digests. */
  datatype Secret = Secret(id: Id, workspace: Id, name: string, created: int, digest: Option<Digest>, value: Value)

  function NamesFor<K>(m: map<K, set<string>>, k: K): set<string> { if k in m then m[k] else {} }

  function Adding<K(!new)>(m: map<K, set<string>>, k: K, name: string): (r: map<K, set<string>>)
    ensures forall j :: NamesFor(r, j) == if j == k then NamesFor(m, k) + {name} else NamesFor(m, j)
  {
    m[k := NamesFor(m, k) + {name}]
  }

  // ----- rows without duplicates -----

  ghost predicate NoDuplicates<T>(xs: seq<T>) { forall i, j :: 0 <= i < j < |xs| ==> xs[i] != xs[j] }

  lemma {:induction false} MultiplicityOne<T(!new)>(xs: seq<T>)
    ensures NoDuplicates(xs) <==> forall x :: multiset(xs)[x] <= 1
  {
    if xs == [] {
    } else {
      var init, last := xs[..|xs| - 1], xs[|xs| - 1];
      MultiplicityOne(init);
      assert xs == init + [last];
      assert last in init <==> multiset(init)[last] > 0;
      if exists x :: multiset(init)[x] > 1 {
        var x :| multiset(init)[x] > 1;
        assert multiset(xs)[x] > 1;
      }
      assert multiset(xs)[last] == multiset(init)[last] + 1;
    }
  }

  lemma {:induction false} SameRows<T(!new)>(xs: seq<T>, ys: seq<T>)
    requires multiset(xs) == multiset(ys) && NoDuplicates(xs)
    ensures NoDuplicates(ys)
    ensures forall x :: x in xs <==> x in ys
  {
    MultiplicityOne(xs);
    MultiplicityOne(ys);
    forall x ensures x in xs <==> x in ys {
      assert x in xs <==> x in multiset(xs);
      assert x in ys <==> x in multiset(ys);
    }
  }

  function Filter<T(!new)>(xs: seq<T>, keep: T -> bool): (r: seq<T>)
    ensures forall x :: x in r <==> x in xs && keep(x)
  {
    if xs == [] then []
    else
      var init, last := xs[..|xs| - 1], xs[|xs| - 1];
      assert xs == init + [last];
      Filter(init, keep) + if keep(last) then [last] else []
  }

  lemma {:induction false} FilterNoDuplicates<T(!new)>(xs: seq<T>, keep: T -> bool)
    requires NoDuplicates(xs)
    ensures NoDuplicates(Filter(xs, keep))
  {
    if xs == [] {
    } else {
      FilterNoDuplicates(xs[..|xs| - 1], keep);
    }
  }

  // ----- oldest first, ties by id -----

  datatype Stamp = Stamp(created: int, id: Id)

  predicate NotAfter(a: Stamp, b: Stamp) { a.created < b.created || (a.created == b.created && a.id <= b.id) }

  predicate InOrder<T>(xs: seq<T>, key: T -> Stamp) {
    |xs| <= 1 || (NotAfter(key(xs[0]), key(xs[1])) && InOrder(xs[1..], key))
  }

  function Insert<T>(x: T, xs: seq<T>, key: T -> Stamp): (r: seq<T>)
    ensures multiset(r) == multiset(xs) + multiset{x}
    ensures r != [] && (r[0] == x || (xs != [] && r[0] == xs[0]))
    ensures InOrder(xs, key) ==> InOrder(r, key)
  {
    if xs == [] then [x]
    else if NotAfter(key(x), key(xs[0])) then
      assert ([x] + xs)[1..] == xs;
      [x] + xs
    else
      var rest := Insert(x, xs[1..], key);
      assert xs == [xs[0]] + xs[1..];
      assert ([xs[0]] + rest)[1..] == rest;
      [xs[0]] + rest
  }

  function Sorted<T>(xs: seq<T>, key: T -> Stamp): (r: seq<T>)
    ensures InOrder(r, key) && multiset(r) == multiset(xs)
  {
    if xs == [] then []
    else
      assert xs == [xs[0]] + xs[1..];
      Insert(xs[0], Sorted(xs[1..], key), key)
  }

  lemma {:induction false} HeadIsFirst<T>(xs: seq<T>, key: T -> Stamp, i: nat)
    requires InOrder(xs, key) && i < |xs|
    ensures NotAfter(key(xs[0]), key(xs[i]))
  {
    if i == 0 {
    } else {
      HeadIsFirst(xs[1..], key, i - 1);
    }
  }

  ghost predicate DistinctStamps<T(!new)>(s: multiset<T>, key: T -> Stamp) {
    forall a, b :: a in s && b in s && key(a) == key(b) ==> a == b
  }

  lemma {:induction false} SameHead<T(!new)>(xs: seq<T>, ys: seq<T>, key: T -> Stamp)
    requires InOrder(xs, key) && InOrder(ys, key) && multiset(xs) == multiset(ys)
    requires DistinctStamps(multiset(xs), key)
    requires xs != [] && ys != []
    ensures xs[0] == ys[0]
  {
    assert xs[0] in multiset(ys) && ys[0] in multiset(xs);
    var i :| 0 <= i < |ys| && ys[i] == xs[0];
    var j :| 0 <= j < |xs| && xs[j] == ys[0];
    HeadIsFirst(ys, key, i);
    HeadIsFirst(xs, key, j);
  }

  lemma {:induction false} OrderIsCanonical<T(!new)>(xs: seq<T>, ys: seq<T>, key: T -> Stamp)
    requires InOrder(xs, key) && InOrder(ys, key) && multiset(xs) == multiset(ys)
    requires DistinctStamps(multiset(xs), key)
    ensures xs == ys
  {
    assert |xs| == |multiset(xs)| == |multiset(ys)| == |ys|;
    if xs == [] {
    } else {
      SameHead(xs, ys, key);
      assert xs == [xs[0]] + xs[1..] && ys == [ys[0]] + ys[1..];
      assert multiset(xs[1..]) == multiset(xs) - multiset{xs[0]} == multiset(ys[1..]);
      assert DistinctStamps(multiset(xs[1..]), key);
      OrderIsCanonical(xs[1..], ys[1..], key);
    }
  }

  /** The order rows arrive in does not matter: distinct stamps sort one way only. */
  lemma {:induction false} SortIgnoresArrival<T(!new)>(xs: seq<T>, ys: seq<T>, key: T -> Stamp)
    requires multiset(xs) == multiset(ys)
    requires DistinctStamps(multiset(xs), key)
    ensures Sorted(xs, key) == Sorted(ys, key)
  {
    OrderIsCanonical(Sorted(xs, key), Sorted(ys, key), key);
  }
}
