/** The name rules of migration 055: legal bases, numbered suffixes and the bounded search. */
module ServerNames {
  import opened Options
  import opened Decimals
  import Pigeonhole

  const NAME_MAX: nat := 64
  const SUFFIX_TRIES: nat := 10000
  // Names that would shadow or break a sandbox module.
  const MODULE_NAMES: set<string> := {
    "mcp_client",
    "False", "None", "True", "and", "as", "assert", "async", "await", "break",
    "class", "continue", "def", "del", "elif", "else", "except", "finally",
    "for", "from", "global", "if", "import", "in", "is", "lambda", "nonlocal",
    "not", "or", "pass", "raise", "return", "try", "while", "with", "yield"
  }

  function Min(a: int, b: int): int { if a < b then a else b }

  predicate IsLetter(c: char) { 'a' <= c <= 'z' || 'A' <= c <= 'Z' }
  predicate IsNameChar(c: char) { IsDigit(c) || IsLetter(c) || c == '_' }
  predicate AllNameChars(s: string) { forall i :: 0 <= i < |s| ==> IsNameChar(s[i]) }
  predicate AllUnderscores(s: string) { forall i :: 0 <= i < |s| ==> s[i] == '_' }

  /** Shaped as an identifier: letters, digits and underscores, not starting with a digit. */
  predicate IsIdentifier(s: string) { s != [] && AllNameChars(s) && !IsDigit(s[0]) }

  predicate StartsDunder(s: string) { |s| >= 2 && s[0] == '_' && s[1] == '_' }

  predicate ModuleSafe(name: string) { name !in MODULE_NAMES && !StartsDunder(name) }

  /** What every promoted server name must be. */
  predicate IsLegal(name: string) { IsIdentifier(name) && |name| <= NAME_MAX && ModuleSafe(name) }

  // ----- the legal base -----

  /** Every character outside [0-9A-Za-z_] becomes an underscore. */
  function Sanitized(name: string): (s: string)
    ensures |s| == |name| && AllNameChars(s)
    ensures AllNameChars(name) ==> s == name
  {
    seq(|name|, i requires 0 <= i < |name| => if IsNameChar(name[i]) then name[i] else '_')
  }

  function StripUnderscores(s: string): (r: string)
    ensures |r| <= |s| && r == s[|s| - |r|..]
    ensures r != [] ==> r[0] != '_'
  {
    if s != [] && s[0] == '_' then StripUnderscores(s[1..]) else s
  }

  lemma {:induction false} OnlyUnderscoresGo(s: string, i: nat)
    requires i < |s| - |StripUnderscores(s)|
    ensures s[i] == '_'
  {
    if i > 0 { OnlyUnderscoresGo(s[1..], i - 1); }
  }

  function Clipped(s: string): string { s[..Min(|s|, NAME_MAX)] }

  function WithoutDunder(s: string): string { if StartsDunder(s) then StripUnderscores(s) else s }

  function NotDigitFirst(s: string): string { if s != [] && IsDigit(s[0]) then "_" + s else s }

  function NotModule(s: string): string { if s in MODULE_NAMES then s + "_server" else s }

  function LegalBase(name: string): string {
    var b := Clipped(NotModule(NotDigitFirst(WithoutDunder(Sanitized(name)))));
    if b == [] then "server" else b
  }

  lemma {:induction false} ModuleNamesEnd(name: string)
    requires name in MODULE_NAMES
    ensures 2 <= |name| <= 10 && IsIdentifier(name) && !StartsDunder(name)
    ensures IsLetter(name[|name| - 1]) && (name[|name| - 2] != 'e' || name[|name| - 1] != 'r')
  {
  }

  lemma {:induction false} ServerSuffixIsSafe(b: string)
    requires b in MODULE_NAMES
    ensures IsLegal(b + "_server")
  {
    ModuleNamesEnd(b);
    var s := b + "_server";
    assert s[0] == b[0] && s[1] == b[1] && s[|s| - 2] == 'e' && s[|s| - 1] == 'r';
    if s in MODULE_NAMES { ModuleNamesEnd(s); }
  }

  lemma {:induction false} ServerIsLegal()
    ensures IsLegal("server")
  {
  }

  lemma {:induction false} NotModuleIsSafe(b: string)
    requires AllNameChars(b) && !StartsDunder(b) && (b != [] ==> !IsDigit(b[0]))
    ensures Clipped(NotModule(b)) == [] || IsLegal(Clipped(NotModule(b)))
  {
    if b in MODULE_NAMES {
      ServerSuffixIsSafe(b);
      assert Clipped(b + "_server") == b + "_server";
    } else if |b| > NAME_MAX {
      if Clipped(b) in MODULE_NAMES { ModuleNamesEnd(Clipped(b)); }
    } else {
      assert Clipped(b) == b;
    }
  }

  lemma {:induction false} WithoutDunderIsShaped(s: string)
    requires AllNameChars(s)
    ensures AllNameChars(WithoutDunder(s)) && !StartsDunder(WithoutDunder(s))
  {
    var r := StripUnderscores(s);
    forall i | 0 <= i < |r| ensures IsNameChar(r[i]) { assert r[i] == s[|s| - |r| + i]; }
  }

  lemma {:induction false} NotDigitFirstIsShaped(b: string)
    requires AllNameChars(b) && !StartsDunder(b)
    ensures var c := NotDigitFirst(b); AllNameChars(c) && !StartsDunder(c) && (c != [] ==> !IsDigit(c[0]))
  {
  }

  lemma {:induction false} FirstStagesAreShaped(name: string)
    ensures var b := NotDigitFirst(WithoutDunder(Sanitized(name)));
            AllNameChars(b) && !StartsDunder(b) && (b != [] ==> !IsDigit(b[0]))
  {
    WithoutDunderIsShaped(Sanitized(name));
    NotDigitFirstIsShaped(WithoutDunder(Sanitized(name)));
    hide WithoutDunder, NotDigitFirst, AllNameChars, StartsDunder;
  }

  /** The base a name search starts from is itself a legal name, whatever the input. */
  lemma {:induction false} LegalBaseIsLegal(name: string)
    ensures IsLegal(LegalBase(name))
  {
    FirstStagesAreShaped(name);
    NotModuleIsSafe(NotDigitFirst(WithoutDunder(Sanitized(name))));
    ServerIsLegal();
  }

  /** A name that is already legal is its own base, so an unclashing server keeps its name. */
  lemma {:induction false} LegalNameIsItsOwnBase(name: string)
    requires IsLegal(name)
    ensures LegalBase(name) == name
  {
  }

  lemma {:induction false} WithoutDunderExactly(s: string) returns (k: nat)
    ensures k + |WithoutDunder(s)| == |s| && WithoutDunder(s) == s[k..]
    ensures forall i :: 0 <= i < k ==> s[i] == '_'
    ensures k > 0 ==> k >= 2 && (WithoutDunder(s) != [] ==> WithoutDunder(s)[0] != '_')
  {
    k := |s| - |WithoutDunder(s)|;
    if StartsDunder(s) {
      forall i | 0 <= i < k ensures s[i] == '_' { OnlyUnderscoresGo(s, i); }
    }
  }

  lemma {:induction false} SanitizedAt(name: string)
    ensures forall i :: 0 <= i < |name| ==> Sanitized(name)[i] == if IsNameChar(name[i]) then name[i] else '_'
  {
  }

  /** What the sanitised name is once a dunder lead is gone. */
  lemma {:induction false} RestOfName(name: string) returns (k: nat)
    ensures var rest := WithoutDunder(Sanitized(name));
            && k + |rest| == |name| && AllNameChars(rest) && !StartsDunder(rest)
            && (forall i :: 0 <= i < |rest| ==> rest[i] == if IsNameChar(name[k + i]) then name[k + i] else '_')
            && (forall i :: 0 <= i < k ==> name[i] == '_' || !IsNameChar(name[i]))
            && (k > 0 ==> k >= 2 && (rest != [] ==> rest[0] != '_'))
  {
    hide Sanitized, WithoutDunder, StartsDunder, AllNameChars, IsNameChar;
    SanitizedAt(name);
    var s := Sanitized(name);
    WithoutDunderIsShaped(s);
    k := WithoutDunderExactly(s);
    var rest := WithoutDunder(s);
    forall i | 0 <= i < |rest| ensures rest[i] == s[k + i] { }
  }

  lemma {:induction false} BaseOfShaped(rest: string)
    requires AllNameChars(rest)
    ensures Clipped(NotModule(NotDigitFirst(rest))) ==
            if rest != [] && IsDigit(rest[0]) then ("_" + rest)[..Min(|rest| + 1, NAME_MAX)]
            else if rest in MODULE_NAMES then rest + "_server"
            else rest[..Min(|rest|, NAME_MAX)]
  {
    if rest != [] && IsDigit(rest[0]) && "_" + rest in MODULE_NAMES {
      UnderscoreIsNoModule(rest);
    } else if rest in MODULE_NAMES {
      ModuleNamesEnd(rest);
    }
    hide AllNameChars;
  }

  /** The base keeps the name from some character on, each character that no identifier may hold as an
      underscore. Only a lead of underscores goes, and only where it would make a dunder; a digit in front
      gets an underscore, a module name its ending, and nothing at all becomes "server". */
  lemma {:induction false} LegalBaseExactly(name: string) returns (k: nat, rest: string)
    ensures k + |rest| == |name|
    ensures forall i :: 0 <= i < |rest| ==> rest[i] == if IsNameChar(name[k + i]) then name[k + i] else '_'
    ensures forall i :: 0 <= i < k ==> name[i] == '_' || !IsNameChar(name[i])
    ensures k > 0 ==> k >= 2 && (rest != [] ==> rest[0] != '_')
    ensures !StartsDunder(rest)
    ensures LegalBase(name) ==
            if rest == [] then "server"
            else if IsDigit(rest[0]) then ("_" + rest)[..Min(|rest| + 1, NAME_MAX)]
            else if rest in MODULE_NAMES then rest + "_server"
            else rest[..Min(|rest|, NAME_MAX)]
  {
    k := RestOfName(name);
    rest := WithoutDunder(Sanitized(name));
    BaseOfShaped(rest);
    hide Sanitized, WithoutDunder, StartsDunder, AllNameChars, Clipped, NotModule, NotDigitFirst, IsNameChar;
  }

  lemma {:induction false} UnderscoreIsNoModule(rest: string)
    ensures "_" + rest !in MODULE_NAMES
  {
    assert ("_" + rest)[0] == '_';
    NoModuleLeads("_" + rest);
  }

  lemma {:induction false} NoModuleLeads(name: string)
    requires name != [] && name[0] == '_'
    ensures name !in MODULE_NAMES
  {
  }

  // ----- suffixes -----

  function SuffixOf(base: string, n: nat): (s: string)
    ensures s != []
  {
    if AllUnderscores(base) then Dec(n) else "_" + Dec(n)
  }

  /** How much of the base is left beside a suffix. */
  function Kept(base: string, suffix: string): (s: string)
    ensures s <= base
  {
    base[..Min(|base|, if |suffix| <= NAME_MAX then NAME_MAX - |suffix| else 0)]
  }

  function Suffixed(base: string, n: nat): string { Kept(base, SuffixOf(base, n)) + SuffixOf(base, n) }

  /** The part of a numbered name before its numeral. */
  function Stem(base: string, n: nat): string {
    Kept(base, SuffixOf(base, n)) + if AllUnderscores(base) then "" else "_"
  }

  lemma {:induction false} SuffixedSplits(base: string, n: nat)
    ensures Suffixed(base, n) == Stem(base, n) + Dec(n)
    ensures !EndsInDigit(Stem(base, n))
  {
    var kept := Kept(base, SuffixOf(base, n));
    if AllUnderscores(base) {
      assert Stem(base, n) == kept;
    } else {
      assert kept + ("_" + Dec(n)) == (kept + "_") + Dec(n);
    }
  }

  lemma {:induction false} ShortNumeral(n: nat)
    requires n < SUFFIX_TRIES
    ensures |Dec(n)| <= 4
  {
    assert Pow10(4) == 10 * Pow10(3) == 100 * Pow10(2) == 1000 * Pow10(1) == 10000 * Pow10(0);
    DecLength(n, 4);
  }

  /** A numbered name is as much of the base as fits, an underscore unless the base is nothing else, and
      the number. */
  lemma {:induction false} SuffixedExactly(base: string, n: nat) returns (kept: string)
    requires n < SUFFIX_TRIES
    ensures kept <= base && (kept == base || |Suffixed(base, n)| == NAME_MAX) && |Suffixed(base, n)| <= NAME_MAX
    ensures Suffixed(base, n) ==
            kept + (if forall i :: 0 <= i < |base| ==> base[i] == '_' then Dec(n) else "_" + Dec(n))
  {
    ShortNumeral(n);
    kept := Kept(base, SuffixOf(base, n));
  }

  /** Distinct numbers give distinct names, even where truncation ate different parts of the base. */
  lemma {:induction false} SuffixedInjective(base: string, n: nat, m: nat)
    requires Suffixed(base, n) == Suffixed(base, m)
    ensures n == m
  {
    SuffixedSplits(base, n);
    SuffixedSplits(base, m);
    TrailingNumeral(Stem(base, n), Stem(base, m), n, m);
  }

  /** A numbered name is as legal as its base. */
  lemma {:induction false} SuffixedIsLegal(base: string, n: nat)
    requires IsIdentifier(base) && !StartsDunder(base)
    requires n < SUFFIX_TRIES
    ensures IsLegal(Suffixed(base, n))
  {
    ShortNumeral(n);
    SuffixedSplits(base, n);
    var s := Suffixed(base, n);
    assert s[0] == base[0];
    assert s[|s| - 1] == Dec(n)[|Dec(n)| - 1];
    if s in MODULE_NAMES { ModuleNamesEnd(s); }
    if |base| >= 2 {
      assert !AllUnderscores(base) by { assert base[0] != '_' || base[1] != '_'; }
      assert s[1] == base[1];
    } else if base[0] == '_' {
      assert AllUnderscores(base);
      assert s[1] == Dec(n)[0];
    }
  }

  // ----- the search -----

  /** Candidate 1 is the base itself; candidates 2..9999 carry their number. */
  function Candidate(base: string, k: nat): string {
    if k <= 1 then base else Suffixed(base, k)
  }

  /** The first candidate numbered k or more that passes the test. */
  function FirstFrom(base: string, ok: string -> bool, k: nat): Option<string>
    requires 1 <= k <= SUFFIX_TRIES
    decreases SUFFIX_TRIES - k
  {
    if k == SUFFIX_TRIES then None
    else if ok(Candidate(base, k)) then Some(Candidate(base, k))
    else FirstFrom(base, ok, k + 1)
  }

  lemma {:induction false} CandidateIs(base: string, n: nat)
    requires n >= 1
    ensures Candidate(base, n) == if n == 1 then base else Suffixed(base, n)
  {
  }

  /** The search stops at the first candidate that passes, number n, and gives up when none does. */
  lemma {:induction false} FirstFromFinds(base: string, ok: string -> bool, k: nat) returns (n: nat)
    requires 1 <= k <= SUFFIX_TRIES
    ensures k <= n <= SUFFIX_TRIES && forall i :: k <= i < n ==> !ok(Candidate(base, i))
    ensures FirstFrom(base, ok, k) == if n < SUFFIX_TRIES then Some(Candidate(base, n)) else None
    ensures Candidate(base, n) == if n == 1 then base else Suffixed(base, n)
    ensures n < SUFFIX_TRIES ==> ok(Candidate(base, n))
    decreases SUFFIX_TRIES - k
  {
    hide Candidate;
    if k == SUFFIX_TRIES || ok(Candidate(base, k)) {
      n := k;
      CandidateIs(base, n);
    } else {
      n := FirstFromFinds(base, ok, k + 1);
    }
  }

  /** With fewer than 9,998 excluded names the search cannot fail. */
  lemma {:induction false} SearchIsTotal(base: string, ok: string -> bool, excluded: set<string>)
    requires |excluded| < SUFFIX_TRIES - 2
    requires forall c :: !ok(c) && (exists n :: 2 <= n < SUFFIX_TRIES && c == Suffixed(base, n)) ==> c in excluded
    ensures FirstFrom(base, ok, 1).Some?
  {
    var _ := FirstFromFinds(base, ok, 1);
    if FirstFrom(base, ok, 1).None? {
      var f := (n: nat) => Suffixed(base, n);
      forall i, j | 2 <= i < j < SUFFIX_TRIES ensures f(i) != f(j) {
        if f(i) == f(j) { SuffixedInjective(base, i, j); }
      }
      forall i | 2 <= i < SUFFIX_TRIES ensures f(i) in excluded {
        assert !ok(Candidate(base, i));
      }
      Pigeonhole.ExcludedIsLarge(f, 2, SUFFIX_TRIES, excluded);
    }
  }
}
