/** plan_names of migration 054: one name per key per user, oldest first. */
module NamePlanner {
  import opened Options
  import opened Decimals
  import opened FolderNames
  import Pigeonhole

  type User = string

  datatype Row = Row(id: nat, user: User, name: string)
  datatype Named = Named(id: nat, name: string, key: string)

  /** Whether row i is the first of its user's rows to spell its key. */
  predicate Keeps(rows: seq<Row>, i: nat)
    requires i < |rows|
  {
    Key(Trimmed(rows[i].name)).Some? &&
    forall j :: 0 <= j < i && rows[j].user == rows[i].user ==> Key(Trimmed(rows[j].name)) != Key(Trimmed(rows[i].name))
  }

  /** What a row is numbered from: its own trimmed name, or the fallback when it spells no folder. */
  function Base(name: string): string {
    if Spelling(Trimmed(name)) == [] then FALLBACK_NAME else Trimmed(name)
  }

  function Candidate(name: string, n: nat): string { if n <= 1 then name else Numbered(name, n) }

  /** Keys the user's first holders among the first n rows keep. */
  function TypedUpTo(rows: seq<Row>, n: nat, u: User): set<string>
    requires n <= |rows|
  {
    set i | 0 <= i < n && rows[i].user == u && Keeps(rows, i) :: Key(Trimmed(rows[i].name)).value
  }

  function TypedKeys(rows: seq<Row>, u: User): set<string> { TypedUpTo(rows, |rows|, u) }

  function GivenKeys(rows: seq<Row>, planned: seq<Named>, n: nat, u: User): set<string>
    requires n <= |planned| <= |rows|
  {
    set i | 0 <= i < n && rows[i].user == u :: planned[i].key
  }

  predicate Refused(name: string, taken: set<string>) { Key(name).None? || Key(name).value in taken }

  /** Row i of a plan: a keeper stays as it is; any other takes its first free candidate. */
  ghost predicate PlannedRow(rows: seq<Row>, planned: seq<Named>, i: nat)
    requires i < |planned| <= |rows|
  {
    var taken := TypedKeys(rows, rows[i].user) + GivenKeys(rows, planned, i, rows[i].user);
    && planned[i].id == rows[i].id
    && Key(planned[i].name) == Some(planned[i].key)
    && if Keeps(rows, i) then planned[i].name == Trimmed(rows[i].name)
       else
         && planned[i].key !in taken
         && exists n: nat :: n >= 1 && planned[i].name == Candidate(Base(rows[i].name), n)
                             && forall m :: 1 <= m < n ==> Refused(Candidate(Base(rows[i].name), m), taken)
  }

  ghost predicate IsPlan(rows: seq<Row>, planned: seq<Named>) {
    |planned| == |rows| && forall i :: 0 <= i < |rows| ==> PlannedRow(rows, planned, i)
  }

  // Beyond this many rows a number would no longer fit beside a name.
  ghost const ROW_LIMIT: nat := Pow10(70)

  // ----- the base of a search -----

  lemma {:induction false} BaseIsTrim(name: string)
    ensures IsTrim(Base(name))
  {
    TrimmedIsTrim(name);
    if Trimmed(name) == [] { assert Collapsed("") == "" && Spelling("") == ""; }
  }

  lemma {:induction false} TailIsShort(n: nat)
    requires n < Pow10(75)
    ensures |Tail(n)| <= NAME_MAX_CHARS - 2
  {
    DecLength(n, 75);
  }

  lemma {:induction false} Pow10Grows(a: nat, b: nat)
    requires a <= b
    ensures Pow10(a) <= Pow10(b)
    decreases b
  {
    if a < b { Pow10Grows(a, b - 1); }
  }

  lemma {:induction false} LimitFits(n: nat)
    requires n <= 2 * ROW_LIMIT + 3
    ensures n < Pow10(75)
  {
    Pow10Grows(70, 74);
    assert Pow10(75) == 10 * Pow10(74);
    Pow10Grows(0, 74);
  }

  /** If the numbers 2..n-1 were all refused, at least n - 2 keys were taken. */
  lemma {:induction false} RefusedAreTaken(name: string, taken: set<string>, n: nat)
    requires IsTrim(name) && 2 <= n < Pow10(75)
    requires forall m :: 2 <= m < n ==> Refused(Numbered(name, m), taken)
    ensures n - 2 <= |taken|
  {
    var f := (m: nat) => Key(Numbered(name, m));
    forall i, j | 2 <= i < j < n ensures f(i) != f(j) {
      TailIsShort(i);
      TailIsShort(j);
      if f(i) == f(j) { NumberedKeysDiffer(name, i, j); }
    }
    var some := set k | k in taken :: Some(k);
    forall i | 2 <= i < n ensures f(i) in some {
      TailIsShort(i);
      var _ := NumberedKey(name, i);
      assert Refused(Numbered(name, i), taken);
    }
    Pigeonhole.ExcludedIsLarge(f, 2, n, some);
    WrappedSize(taken);
  }

  lemma {:induction false} WrappedSize(s: set<string>)
    ensures |set k | k in s :: Some(k)| <= |s|
    decreases s
  {
    if s == {} {
      assert (set k | k in s :: Some(k)) == {};
    } else {
      var x :| x in s;
      WrappedSize(s - {x});
      assert (set k | k in s :: Some(k)) == (set k | k in s - {x} :: Some(k)) + {Some(x)};
    }
  }

  lemma {:induction false} ImageIsSmall(n: nat, f: nat -> string, p: nat -> bool)
    ensures |set i | 0 <= i < n && p(i) :: f(i)| <= n
  {
    var s := set i | 0 <= i < n && p(i) :: f(i);
    if n == 0 {
      assert s == {};
    } else {
      ImageIsSmall(n - 1, f, p);
      var t := set i | 0 <= i < n - 1 && p(i) :: f(i);
      assert s <= t + {f(n - 1)};
      Pigeonhole.SubsetSize(s, t + {f(n - 1)});
    }
  }

  lemma {:induction false} TypedIsSmall(rows: seq<Row>, u: User)
    ensures |TypedKeys(rows, u)| <= |rows|
  {
    hide Trimmed;
    var f := (i: nat) => if i < |rows| && Key(Trimmed(rows[i].name)).Some? then Key(Trimmed(rows[i].name)).value
        else "";
    hide Key;
    var p := (i: nat) => i < |rows| && rows[i].user == u && Keeps(rows, i);
    ImageIsSmall(|rows|, f, p);
    forall k ensures k in TypedKeys(rows, u) <==> k in (set i | 0 <= i < |rows| && p(i) :: f(i)) {
      if k in TypedKeys(rows, u) {
        var i :| 0 <= i < |rows| && rows[i].user == u && Keeps(rows, i) && Key(Trimmed(rows[i].name)).value == k;
        assert p(i) && f(i) == k;
      }
    }
    assert TypedKeys(rows, u) == set i | 0 <= i < |rows| && p(i) :: f(i);
  }

  lemma {:induction false} GivenIsSmall(rows: seq<Row>, planned: seq<Named>, n: nat, u: User)
    requires n <= |planned| <= |rows|
    ensures |GivenKeys(rows, planned, n, u)| <= n
  {
    var g := (i: nat) => if i < |planned| then planned[i].key else "";
    var q := (i: nat) => i < |rows| && rows[i].user == u;
    ImageIsSmall(n, g, q);
    forall k ensures k in GivenKeys(rows, planned, n, u) <==> k in (set i | 0 <= i < n && q(i) :: g(i)) {
      if k in GivenKeys(rows, planned, n, u) {
        var i :| 0 <= i < n && rows[i].user == u && planned[i].key == k;
        assert q(i) && g(i) == k;
      }
    }
    assert GivenKeys(rows, planned, n, u) == set i | 0 <= i < n && q(i) :: g(i);
  }

  lemma {:induction false} TakenIsSmall(rows: seq<Row>, planned: seq<Named>, n: nat, u: User)
    requires n <= |planned| <= |rows|
    ensures |TypedKeys(rows, u) + GivenKeys(rows, planned, n, u)| <= 2 * |rows|
  {
    hide TypedKeys, GivenKeys;
    TypedIsSmall(rows, u);
    GivenIsSmall(rows, planned, n, u);
    Pigeonhole.UnionSize(TypedKeys(rows, u), GivenKeys(rows, planned, n, u));
  }

  // ----- the two passes -----

  function KeysFor(m: map<User, set<string>>, u: User): set<string> { if u in m then m[u] else {} }

  function AddingKey(m: map<User, set<string>>, u: User, key: string): (r: map<User, set<string>>)
    ensures forall v :: KeysFor(r, v) == if v == u then KeysFor(m, u) + {key} else KeysFor(m, v)
  {
    m[u := KeysFor(m, u) + {key}]
  }

  datatype Fitted = Fitted(id: nat, user: User, name: string, keeps: bool)

  /** A key spelt by an earlier row is kept by the first row that spelt it. */
  lemma {:induction false} EarlierHolder(rows: seq<Row>, i: nat, j: nat)
    requires j < i <= |rows| && Key(Trimmed(rows[j].name)).Some?
    ensures Key(Trimmed(rows[j].name)).value in TypedUpTo(rows, i, rows[j].user)
    decreases j
  {
    hide Key, Trimmed;
    if !Keeps(rows, j) {
      var k :| 0 <= k < j && rows[k].user == rows[j].user && Key(Trimmed(rows[k].name)) == Key(Trimmed(rows[j].name));
      EarlierHolder(rows, i, k);
    }
  }

  lemma {:induction false} KeepsMeansUnheld(rows: seq<Row>, i: nat)
    requires i < |rows|
    ensures Keeps(rows, i)
        <==> Key(Trimmed(rows[i].name)).Some? && Key(Trimmed(rows[i].name)).value !in TypedUpTo(rows, i, rows[i].user)
  {
    hide Key, Trimmed;
    var key := Key(Trimmed(rows[i].name));
    if key.Some? && key.value !in TypedUpTo(rows, i, rows[i].user) {
      forall j | 0 <= j < i && rows[j].user == rows[i].user ensures Key(Trimmed(rows[j].name)) != key {
        if Key(Trimmed(rows[j].name)).Some? { EarlierHolder(rows, i, j); }
      }
    }
  }

  lemma {:induction false} TypedGrows(rows: seq<Row>, i: nat, u: User)
    requires i < |rows|
    ensures TypedUpTo(rows, i + 1, u)
            == if rows[i].user == u && Keeps(rows, i) then TypedUpTo(rows, i, u) + {Key(Trimmed(rows[i].name)).value}
                else TypedUpTo(rows, i, u)
  {
    hide Key, Trimmed;
  }

  lemma {:induction false} NothingTyped(rows: seq<Row>)
    ensures forall u :: TypedUpTo(rows, 0, u) == {}
  {
  }

  method FitNames(rows: seq<Row>) returns (taken: map<User, set<string>>, fitted: seq<Fitted>)
    ensures forall u :: KeysFor(taken, u) == TypedKeys(rows, u)
    ensures |fitted| == |rows|
    ensures forall i :: 0 <= i < |rows| ==>
      fitted[i] == Fitted(rows[i].id, rows[i].user, if Keeps(rows, i) then Trimmed(rows[i].name)
          else Base(rows[i].name), Keeps(rows, i))
  {
    hide Trimmed, Key, Spelling, Keeps, TypedUpTo;
    taken, fitted := map[], [];
    NothingTyped(rows);
    for i := 0 to |rows|
      invariant forall u :: KeysFor(taken, u) == TypedUpTo(rows, i, u)
      invariant |fitted| == i
      invariant forall j :: 0 <= j < i ==>
        fitted[j] == Fitted(rows[j].id, rows[j].user, if Keeps(rows, j) then Trimmed(rows[j].name)
            else Base(rows[j].name), Keeps(rows, j))
    {
      var row := rows[i];
      var name := Trimmed(row.name);
      var key := Key(name);
      var keeps := key.Some? && key.value !in KeysFor(taken, row.user);
      KeepsMeansUnheld(rows, i);
      assert keeps <==> Keeps(rows, i);
      forall u
        ensures TypedUpTo(rows, i + 1, u) == if row.user == u && keeps then KeysFor(taken, u) + {key.value}
            else KeysFor(taken, u)
      {
        TypedGrows(rows, i, u);
      }
      if keeps {
        taken := AddingKey(taken, row.user, key.value);
      } else if Spelling(name) == [] {
        name := FALLBACK_NAME;
      }
      fitted := fitted + [Fitted(row.id, row.user, name, keeps)];
    }
  }

  lemma {:induction false} SpaceApart(d: string)
    ensures " (" + d + ")" == " " + ("(" + d + ")")
  {
  }

  lemma {:induction false} SuffixSpelt(name: string, n: nat)
    requires IsTrim(name) && n < Pow10(75)
    ensures Numbered(name, n) == SuffixedWith(name, " (" + Dec(n) + ")") && IsTrim(Numbered(name, n))
  {
    TailIsShort(n);
    var _ := NumberedKey(name, n);
    SpaceApart(Dec(n));
    hide Key, IsTrim, SuffixedWith, Dec, Pow10;
  }

  method NextCandidate(name: string, n: nat) returns (candidate: string)
    requires IsTrim(name) && n < Pow10(75)
    ensures candidate == Numbered(name, n) && IsTrim(candidate)
  {
    hide Numbered, IsTrim, SuffixedWith, Tail;
    SuffixSpelt(name, n);
    candidate := Suffixed(name, " (" + Dec(n) + ")");
  }

  /** The walk over candidates: it ends, on the first one free. */
  method FirstFree(name: string, taken: set<string>) returns (candidate: string, ghost last: nat)
    requires IsTrim(name) && |taken| <= 2 * ROW_LIMIT
    ensures last >= 1 && candidate == Candidate(name, last) && !Refused(candidate, taken)
    ensures forall m :: 1 <= m < last ==> Refused(Candidate(name, m), taken)
    ensures IsTrim(candidate)
  {
    hide Key, Numbered, IsTrim, Pow10;
    candidate := name;
    var n := 2;
    while Key(candidate).None? || Key(candidate).value in taken
      invariant n >= 2 && candidate == Candidate(name, n - 1) && IsTrim(candidate)
      invariant forall m :: 1 <= m < n - 1 ==> Refused(Candidate(name, m), taken)
      invariant n <= |taken| + 3
      decreases |taken| + 3 - n
    {
      assert forall m :: 2 <= m < n ==> Candidate(name, m) == Numbered(name, m);
      LimitFits(n);
      RefusedAreTaken(name, taken, n);
      candidate := NextCandidate(name, n);
      n := n + 1;
    }
    last := n - 1;
  }

  lemma {:induction false} GivenPrefix(rows: seq<Row>, before: seq<Named>, planned: seq<Named>, n: nat, u: User)
    requires n <= |before| <= |planned| <= |rows| && before == planned[..|before|]
    ensures GivenKeys(rows, planned, n, u) == GivenKeys(rows, before, n, u)
  {
    assert forall i :: 0 <= i < n ==> planned[i] == before[i];
  }

  lemma {:induction false} PlannedGrows(rows: seq<Row>, before: seq<Named>, x: Named)
    requires |before| < |rows|
    requires forall j :: 0 <= j < |before| ==> PlannedRow(rows, before, j)
    ensures forall j :: 0 <= j < |before| ==> PlannedRow(rows, before + [x], j)
    ensures forall u :: GivenKeys(rows, before + [x], |before| + 1, u)
                        == GivenKeys(rows, before, |before|, u) + if rows[|before|].user == u then {x.key} else {}
  {
    var planned := before + [x];
    forall j | 0 <= j < |before| ensures PlannedRow(rows, planned, j) {
      assert PlannedRow(rows, before, j) && planned[j] == before[j];
      GivenPrefix(rows, before, planned, j, rows[j].user);
    }
    forall u ensures GivenKeys(rows, planned, |planned|, u)
                     == GivenKeys(rows, before, |before|, u) + if rows[|before|].user == u then {x.key} else {}
    {
      GivenPrefix(rows, before, planned, |before|, u);
    }
  }

  /** One row of the second pass: a keeper passes through, any other walks its candidates. */
  method PlaceRow(rows: seq<Row>, planned: seq<Named>, row: Fitted, taken: set<string>) returns (x: Named)
    requires |planned| < |rows| <= ROW_LIMIT
    requires var i := |planned|;
             row == Fitted(rows[i].id, rows[i].user, if Keeps(rows, i) then Trimmed(rows[i].name)
                 else Base(rows[i].name), Keeps(rows, i))
    requires taken == TypedKeys(rows, row.user) + GivenKeys(rows, planned, |planned|, row.user)
    ensures PlannedRow(rows, planned + [x], |planned|) && IsTrim(x.name)
  {
    ghost var i := |planned|;
    var candidate := row.name;
    if row.keeps {
      TrimmedIsTrim(rows[i].name);
      assert Key("").None? by { assert Collapsed("") == "" && Spelling("") == ""; }
      x := Named(row.id, candidate, Key(candidate).value);
    } else {
      BaseIsTrim(rows[i].name);
      TakenIsSmall(rows, planned, i, row.user);
      ghost var last;
      candidate, last := FirstFree(row.name, taken);
      x := Named(row.id, candidate, Key(candidate).value);
    }
    GivenPrefix(rows, planned, planned + [x], i, row.user);
    hide Key, Trimmed, Keeps, Base, Candidate, TypedKeys, GivenKeys;
    assert (planned + [x])[i] == x;
  }

  method PlanNames(rows: seq<Row>) returns (planned: seq<Named>)
    requires |rows| <= ROW_LIMIT
    ensures IsPlan(rows, planned)
    ensures forall i :: 0 <= i < |planned| ==> IsTrim(planned[i].name)
  {
    hide PlannedRow, Key, Trimmed, Keeps, TypedKeys, GivenKeys, Base, IsTrim;
    var taken, fitted := FitNames(rows);
    planned := [];
    forall u ensures GivenKeys(rows, planned, 0, u) == {} { NothingGiven(rows, u); }
    for i := 0 to |rows|
      invariant |planned| == i
      invariant forall u :: KeysFor(taken, u) == TypedKeys(rows, u) + GivenKeys(rows, planned, i, u)
      invariant forall j :: 0 <= j < i ==> PlannedRow(rows, planned, j) && IsTrim(planned[j].name)
    {
      var x := PlaceRow(rows, planned, fitted[i], KeysFor(taken, fitted[i].user));
      PlannedGrows(rows, planned, x);
      planned := planned + [x];
      taken := AddingKey(taken, fitted[i].user, x.key);
    }
  }

  lemma {:induction false} NothingGiven(rows: seq<Row>, u: User)
    ensures GivenKeys(rows, [], 0, u) == {}
  {
  }

  // ----- what every plan satisfies -----

  /** The unique index (user, key) accepts the plan. */
  lemma {:induction false} KeysAreUnique(rows: seq<Row>, planned: seq<Named>, i: nat, j: nat)
    requires IsPlan(rows, planned) && i < j < |rows| && rows[i].user == rows[j].user
    ensures planned[i].key != planned[j].key
    ensures Key(planned[i].name) == Some(planned[i].key) && Key(planned[j].name) == Some(planned[j].key)
  {
    hide Key, Trimmed, Base, Candidate;
    assert PlannedRow(rows, planned, i) && PlannedRow(rows, planned, j);
    assert planned[i].key in GivenKeys(rows, planned, j, rows[j].user);
    if Keeps(rows, j) { assert planned[j].key in TypedKeys(rows, rows[j].user); }
  }

  /** The first row to spell a key keeps its trimmed name, and no numbered row ever takes that key. */
  lemma {:induction false} TypedNamesAreSafe(rows: seq<Row>, planned: seq<Named>, i: nat, j: nat)
    requires IsPlan(rows, planned) && i < |rows| && j < |rows| && rows[i].user == rows[j].user
    requires Keeps(rows, i) && !Keeps(rows, j)
    ensures planned[i].name == Trimmed(rows[i].name)
    ensures planned[j].key != Key(Trimmed(rows[i].name)).value
  {
    hide Key, Trimmed, Base, Candidate;
    assert PlannedRow(rows, planned, i) && PlannedRow(rows, planned, j);
    assert Key(Trimmed(rows[i].name)).value in TypedKeys(rows, rows[i].user);
  }

  lemma {:induction false} DuplicateIsTyped(rows: seq<Row>, i: nat)
    requires i < |rows| && !Keeps(rows, i) && Key(Trimmed(rows[i].name)).Some?
    ensures Key(Trimmed(rows[i].name)).value in TypedKeys(rows, rows[i].user)
  {
    hide Key, Trimmed;
    var j :| 0 <= j < i && rows[j].user == rows[i].user && Key(Trimmed(rows[j].name)) == Key(Trimmed(rows[i].name));
    EarlierHolder(rows, |rows|, j);
  }

  lemma {:induction false} TrimIsStripped(base: string)
    requires IsTrim(base)
    ensures Strip(base) == base
  {
  }

  lemma {:induction false} TailStripped(n: nat)
    ensures Strip(" " + Tail(n)) == Tail(n)
  {
    TailIsPlain(n);
    hide Tail;
    var suffix := " " + Tail(n);
    assert suffix[1..] == Tail(n);
    assert LStrip(suffix) == LStrip(suffix[1..]);
  }

  lemma {:induction false} NumberedExactly(base: string, n: nat) returns (kept: string)
    requires IsTrim(base)
    ensures LongestFit(base, " (" + Dec(n) + ")", kept)
    ensures Numbered(base, n) == if kept != [] then kept + " (" + Dec(n) + ")" else "(" + Dec(n) + ")"
  {
    hide Shrunk, LongestFit, IsTrim, Strip, Dec;
    TrimIsStripped(base);
    TailStripped(n);
    SpaceApart(Dec(n));
    kept := Shrunk(base, " " + Tail(n));
    ShrunkIsLongestFit(base, " " + Tail(n));
  }

  lemma {:induction false} NumberedIs(base: string, m: nat)
    ensures Numbered(base, m) == SuffixedWith(base, " (" + Dec(m) + ")")
  {
    SpaceApart(Dec(m));
    hide SuffixedWith, Dec;
  }

  /** A row that cannot keep its name is numbered from it: the longest part of its own trimmed name that
      fits, then " (n)", each smaller number from 2 on being no use. Only a name that spells no folder at
      all starts from "Workspace" instead. */
  lemma {:induction false} NumberedFromOwnName(rows: seq<Row>, planned: seq<Named>, i: nat)
    returns (n: nat, kept: string)
    requires IsPlan(rows, planned) && i < |rows| && !Keeps(rows, i)
    ensures var own := Trimmed(rows[i].name);
            && n >= (if Spelling(own) == [] then 1 else 2)
            && (n == 1 ==> planned[i].name == "Workspace")
            && (n > 1 ==> LongestFit(if Spelling(own) == [] then "Workspace" else own, " (" + Dec(n) + ")", kept)
                          && planned[i].name == if kept != [] then kept + " (" + Dec(n) + ")" else "(" + Dec(n) + ")")
    ensures var own := Trimmed(rows[i].name);
            forall m :: 2 <= m < n ==>
              Refused(SuffixedWith(if Spelling(own) == [] then "Workspace" else own, " (" + Dec(m) + ")"),
                      TypedKeys(rows, rows[i].user) + GivenKeys(rows, planned, i, rows[i].user))
  {
    hide Trimmed, Spelling, Keeps, TypedKeys, GivenKeys, Numbered, LongestFit, Dec, IsTrim;
    assert PlannedRow(rows, planned, i);
    var base := Base(rows[i].name);
    var taken := TypedKeys(rows, rows[i].user) + GivenKeys(rows, planned, i, rows[i].user);
    n :| n >= 1 && planned[i].name == Candidate(base, n)
         && forall m :: 1 <= m < n ==> Refused(Candidate(base, m), taken);
    forall m | 2 <= m < n ensures Refused(SuffixedWith(base, " (" + Dec(m) + ")"), taken) {
      assert Refused(Candidate(base, m), taken);
      NumberedIs(base, m);
    }
    BaseIsTrim(rows[i].name);
    if n > 1 {
      kept := NumberedExactly(base, n);
    } else {
      kept := [];
    }
    if n == 1 && Spelling(Trimmed(rows[i].name)) != [] {
      DuplicateIsTyped(rows, i);
    }
  }

  /** Planning a plan again changes nothing. */
  lemma {:induction false} PlanIsFixpoint(rows: seq<Row>, planned: seq<Named>, again: seq<Named>)
    requires IsPlan(rows, planned) && (forall i :: 0 <= i < |planned| ==> IsTrim(planned[i].name))
    requires IsPlan(seq(|planned|, i requires 0 <= i < |planned| => Row(planned[i].id, rows[i].user, planned[i].name)),
        again)
    ensures again == planned
  {
    hide Key, Trimmed, Base, Candidate, IsTrim;
    var next := seq(|planned|, i requires 0 <= i < |planned| => Row(planned[i].id, rows[i].user, planned[i].name));
    forall i | 0 <= i < |planned| ensures again[i] == planned[i] {
      forall j | 0 <= j <= i ensures Trimmed(next[j].name) == planned[j].name {
        TrimIsTrimmed(planned[j].name);
      }
      assert PlannedRow(rows, planned, i) && PlannedRow(next, again, i);
      forall j | 0 <= j < i && next[j].user == next[i].user
        ensures Key(Trimmed(next[j].name)) != Key(Trimmed(next[i].name)) {
        KeysAreUnique(rows, planned, j, i);
      }
      assert Keeps(next, i);
    }
  }
}
