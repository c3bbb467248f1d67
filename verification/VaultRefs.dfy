/** References ${vault:NAME} inside a string: scanning, rewriting and resolving (migration 055). */
module VaultRefs {
  import opened Options
  import opened Decimals
  import opened ServerNames

  const OPENING: string := "${vault:"
  const REF_NAME_MAX: nat := 128

  /** A name a reference can carry. */
  predicate IsRefName(n: string) { IsIdentifier(n) && |n| <= REF_NAME_MAX }

  datatype Piece = Text(c: char) | Ref(name: string)

  function Spelled(p: Piece): (s: string)
    ensures s != []
  {
    match p
    case Text(c) => [c]
    case Ref(n) => OPENING + n + "}"
  }

  function Render(ps: seq<Piece>): string {
    if ps == [] then "" else Spelled(ps[0]) + Render(ps[1..])
  }

  /** Length of the run of name characters a string starts with. */
  function NameRun(s: string): (n: nat)
    ensures n <= |s| && AllNameChars(s[..n]) && (n < |s| ==> !IsNameChar(s[n]))
  {
    if s != [] && IsNameChar(s[0]) then 1 + NameRun(s[1..]) else 0
  }

  lemma {:induction false} SpelledAt(rest: string, n: nat)
    requires n < |rest| && rest[n] == '}'
    ensures Spelled(Ref(rest[..n])) <= OPENING + rest
  {
    assert rest == rest[..n] + "}" + rest[n + 1..];
    assert OPENING + rest == (OPENING + rest[..n] + "}") + rest[n + 1..];
  }

  /** The reference that starts exactly here, if one does. */
  function TokenAt(s: string): (r: Option<string>)
    ensures r.Some? ==> IsRefName(r.value) && Spelled(Ref(r.value)) <= s
  {
    if OPENING <= s then
      var rest := s[|OPENING|..];
      var n := NameRun(rest);
      if 1 <= n <= REF_NAME_MAX && !IsDigit(rest[0]) && n < |rest| && rest[n] == '}' then
        assert s == OPENING + rest;
        SpelledAt(rest, n);
        Some(rest[..n])
      else None
    else None
  }

  /** Leftmost scanning, as a global regular-expression substitution walks a string. */
  function Lex(s: string): seq<Piece> {
    if s == [] then []
    else match TokenAt(s)
         case Some(n) => [Ref(n)] + Lex(s[|Spelled(Ref(n))|..])
         case None => [Text(s[0])] + Lex(s[1..])
  }

  function Renamed(m: map<string, string>, n: string): string { if n in m then m[n] else n }

  function RenamePiece(m: map<string, string>, p: Piece): Piece {
    if p.Ref? then Ref(Renamed(m, p.name)) else p
  }

  function RenameAll(m: map<string, string>, ps: seq<Piece>): (r: seq<Piece>)
    ensures |r| == |ps| && forall i :: 0 <= i < |ps| ==> r[i] == RenamePiece(m, ps[i])
  {
    if ps == [] then [] else [RenamePiece(m, ps[0])] + RenameAll(m, ps[1..])
  }

  /** One substitution pass over a field. */
  function Rewrite(s: string, m: map<string, string>): string { Render(RenameAll(m, Lex(s))) }

  function RefsOf(s: string): set<string> { set i | 0 <= i < |Lex(s)| && Lex(s)[i].Ref? :: Lex(s)[i].name }

  // ----- scanning loses nothing -----

  /** Scanning a string and spelling the pieces again gives the string back. */
  lemma {:induction false} RenderLex(s: string)
    ensures Render(Lex(s)) == s
  {
    if s == [] {
    } else {
      match TokenAt(s)
      case Some(n) =>
        RenderLex(s[|Spelled(Ref(n))|..]);
      case None =>
        RenderLex(s[1..]);
    }
  }

  lemma {:induction false} NameRunStops(n: string, t: string)
    requires AllNameChars(n)
    ensures NameRun(n + "}" + t) == |n|
  {
    var s := n + "}" + t;
    if n == [] {
    } else {
      assert s[1..] == n[1..] + "}" + t;
      NameRunStops(n[1..], t);
    }
  }

  lemma {:induction false} TokenFound(n: string, t: string)
    requires IsRefName(n)
    ensures TokenAt(Spelled(Ref(n)) + t) == Some(n)
  {
    hide NameRun;
    NameRunStops(n, t);
    var s := Spelled(Ref(n)) + t;
    assert s == OPENING + (n + "}" + t);
    assert s[|OPENING|..] == n + "}" + t;
    assert (n + "}" + t)[0] == n[0] && (n + "}" + t)[|n|] == '}' && (n + "}" + t)[..|n|] == n;
  }

  /** A reference starts here exactly when the text goes on with its spelling. */
  lemma {:induction false} TokenExactly(s: string, n: string)
    ensures TokenAt(s) == Some(n) <==> IsRefName(n) && "${vault:" + n + "}" <= s
  {
    assert Spelled(Ref(n)) == "${vault:" + n + "}";
    if IsRefName(n) && Spelled(Ref(n)) <= s {
      TokenFound(n, s[|Spelled(Ref(n))|..]);
      assert s == Spelled(Ref(n)) + s[|Spelled(Ref(n))|..];
    }
  }

  lemma {:induction false} TokenHasOneDollar(n: string, i: nat)
    requires IsRefName(n)
    requires 0 < i < |Spelled(Ref(n))|
    ensures Spelled(Ref(n))[i] != '$'
  {
    if i >= |OPENING| + |n| {
      assert Spelled(Ref(n))[i] == '}';
    } else if i >= |OPENING| {
      assert Spelled(Ref(n))[i] == n[i - |OPENING|];
    } else {
      assert Spelled(Ref(n))[i] == OPENING[i];
    }
  }

  /** Whether a token starts here depends only on the text before the next reference. */
  lemma {:induction false} TokenIsLocal(a: string, r1: string, r2: string)
    requires a != []
    requires r1 != [] ==> r1[0] == '$'
    requires r2 == [] ==> r1 == []
    ensures TokenAt(a + r1).Some? ==> TokenAt(a + r2).Some?
  {
    if TokenAt(a + r1).Some? {
      var n := TokenAt(a + r1).value;
      var token := Spelled(Ref(n));
      if |token| > |a| {
        assert token[|a|] == (a + r1)[|a|] == '$';
        TokenHasOneDollar(n, |a|);
        assert false;
      }
      assert (a + r1)[..|token|] == a[..|token|];
      assert a + r2 == token + (a[|token|..] + r2);
      TokenFound(n, a[|token|..] + r2);
    }
  }

  /** Pieces that scan back to themselves: legal references, and no token hidden in the text. */
  ghost predicate Normal(ps: seq<Piece>) {
    ps == [] || (
      Normal(ps[1..]) &&
      if ps[0].Ref? then IsRefName(ps[0].name) else TokenAt(Render(ps)).None?)
  }

  lemma {:induction false} LexIsNormal(s: string)
    ensures Normal(Lex(s))
  {
    if s == [] {
    } else {
      RenderLex(s);
      match TokenAt(s)
      case Some(n) => LexIsNormal(s[|Spelled(Ref(n))|..]);
      case None => LexIsNormal(s[1..]);
    }
  }

  lemma {:induction false} LexRender(ps: seq<Piece>)
    requires Normal(ps)
    ensures Lex(Render(ps)) == ps
  {
    if ps == [] {
    } else {
      LexRender(ps[1..]);
      var s := Render(ps);
      if ps[0].Ref? {
        TokenFound(ps[0].name, Render(ps[1..]));
      }
      assert s[|Spelled(ps[0])|..] == Render(ps[1..]);
    }
  }

  lemma {:induction false} RenderText(ps: seq<Piece>, b: string, rest: string)
    requires ps != [] && ps[0].Text? && Render(ps[1..]) == b + rest
    ensures Render(ps) == ([ps[0].c] + b) + rest
  {
    assert Render(ps) == [ps[0].c] + (b + rest);
  }

  /** The text up to the first reference, and what follows it. */
  lemma {:induction false} LeadingText(ps: seq<Piece>, m: map<string, string>)
    returns (a: string, r1: string, r2: string)
    ensures Render(ps) == a + r1 && Render(RenameAll(m, ps)) == a + r2
    ensures r1 == [] <==> r2 == []
    ensures r1 != [] ==> r1[0] == '$' == r2[0]
    ensures ps != [] && ps[0].Text? ==> a != []
  {
    var qs := RenameAll(m, ps);
    if ps == [] {
      a, r1, r2 := [], [], [];
    } else if ps[0].Ref? {
      a, r1, r2 := [], Render(ps), Render(qs);
      assert r1[0] == Spelled(ps[0])[0] && r2[0] == Spelled(qs[0])[0];
    } else {
      var b: string;
      b, r1, r2 := LeadingText(ps[1..], m);
      assert qs[1..] == RenameAll(m, ps[1..]) && qs[0] == ps[0];
      a := [ps[0].c] + b;
      RenderText(ps, b, r1);
      RenderText(qs, b, r2);
    }
  }

  lemma {:induction false} RenameKeepsNormal(ps: seq<Piece>, m: map<string, string>)
    requires Normal(ps)
    requires forall n :: n in m && IsRefName(n) ==> IsRefName(m[n])
    ensures Normal(RenameAll(m, ps))
  {
    if ps == [] {
    } else {
      RenameKeepsNormal(ps[1..], m);
      var qs := RenameAll(m, ps);
      assert qs[1..] == RenameAll(m, ps[1..]);
      if ps[0].Text? {
        var a, r1, r2 := LeadingText(ps, m);
        TokenIsLocal(a, r2, r1);
      }
    }
  }

  /** Rewriting is a simultaneous substitution: the rewritten string scans to the original
      pieces with every reference renamed exactly once, so A->B, B->C never composes, the text
      between references is untouched and no reference appears across a boundary. */
  lemma {:induction false} RewriteIsSimultaneous(s: string, m: map<string, string>)
    requires forall n :: n in m && IsRefName(n) ==> IsRefName(m[n])
    ensures Lex(Rewrite(s, m)) == RenameAll(m, Lex(s))
  {
    LexIsNormal(s);
    RenameKeepsNormal(Lex(s), m);
    LexRender(RenameAll(m, Lex(s)));
  }

  /** A string that names nothing renamed is left byte for byte. */
  lemma {:induction false} RewriteUntouched(s: string, m: map<string, string>)
    requires forall n :: n in RefsOf(s) ==> Renamed(m, n) == n
    ensures Rewrite(s, m) == s
  {
    RenderLex(s);
    forall i | 0 <= i < |Lex(s)| ensures RenameAll(m, Lex(s))[i] == Lex(s)[i] {
      if Lex(s)[i].Ref? { assert Lex(s)[i].name in RefsOf(s); }
    }
    assert RenameAll(m, Lex(s)) == Lex(s);
  }

  /** A string comes back unchanged only if it names nothing that is renamed. */
  lemma {:induction false} UntouchedExactly(s: string, m: map<string, string>)
    requires forall n :: n in m && IsRefName(n) ==> IsRefName(m[n])
    ensures Rewrite(s, m) == s <==> forall n :: n in RefsOf(s) ==> Renamed(m, n) == n
  {
    if Rewrite(s, m) == s {
      RewriteIsSimultaneous(s, m);
      forall n | n in RefsOf(s) ensures Renamed(m, n) == n {
        var i :| 0 <= i < |Lex(s)| && Lex(s)[i] == Ref(n);
        assert RenameAll(m, Lex(s))[i] == Lex(s)[i];
      }
    } else if forall n :: n in RefsOf(s) ==> Renamed(m, n) == n {
      RewriteUntouched(s, m);
    }
  }

  // ----- resolving -----

  /** A field as the sandbox client sees it: literal text, found secrets, missing names. */
  datatype Part<V> = Literal(c: char) | Found(value: V) | Missing(name: string)

  function ResolvePiece<V>(p: Piece, view: map<string, V>): Part<V> {
    match p
    case Text(c) => Literal(c)
    case Ref(n) => if n in view then Found(view[n]) else Missing(n)
  }

  function Resolved<V>(s: string, view: map<string, V>): seq<Part<V>> {
    var ps := Lex(s);
    seq(|ps|, i requires 0 <= i < |ps| => ResolvePiece(ps[i], view))
  }

  /** When each referenced name's value moved to its new name, and each missing name is still
      missing under the same name, the rewritten field means what the original meant. */
  lemma {:induction false} RewritePreservesMeaning<V>(s: string, m: map<string, string>, before: map<string, V>,
      after: map<string, V>)
    requires forall n :: n in m && IsRefName(n) ==> IsRefName(m[n])
    requires forall n :: n in RefsOf(s) && n in before ==> Renamed(m, n) in after && after[Renamed(m, n)] == before[n]
    requires forall n :: n in RefsOf(s) && n !in before ==> Renamed(m, n) == n && n !in after
    ensures Resolved(Rewrite(s, m), after) == Resolved(s, before)
  {
    RewriteIsSimultaneous(s, m);
    forall i | 0 <= i < |Lex(s)|
      ensures ResolvePiece(RenamePiece(m, Lex(s)[i]), after) == ResolvePiece(Lex(s)[i], before)
    {
      if Lex(s)[i].Ref? { assert Lex(s)[i].name in RefsOf(s); }
    }
  }
}
