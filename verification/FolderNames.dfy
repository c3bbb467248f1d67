/** The name rules of migration 054 on ASCII text: folder spellings, keys and numbered suffixes. */
module FolderNames {
  import opened Options
  import opened Decimals

  const NAME_MAX_CHARS: nat := 80
  const FOLDER_MAX_BYTES: nat := 255
  const RESERVED: set<string> := {"_internal", "mcp_servers", ".agents", ".system", "tools", "code"}
  const FALLBACK_NAME: string := "Workspace"

  predicate IsSpace(c: char) { c == ' ' || '\t' <= c <= '\r' || 28 as char <= c <= 31 as char }

  predicate IsUnsafe(c: char) { c in "/\\:$`\"" || c < ' ' || c == 127 as char }

  function Lower(c: char): char { if 'A' <= c <= 'Z' then (c as int + 32) as char else c }

  function Folded(s: string): (r: string)
    ensures |r| == |s|
  {
    seq(|s|, i requires 0 <= i < |s| => Lower(s[i]))
  }

  /** Words joined by single spaces, no space at either end. */
  function Collapsed(s: string): (r: string)
    ensures |r| <= |s|
    ensures s != [] && IsSpace(s[|s| - 1]) ==> |r| < |s|
  {
    if s == [] then []
    else
      var init, c := s[..|s| - 1], s[|s| - 1];
      var r := Collapsed(init);
      if IsSpace(c) then r
      else if init != [] && IsSpace(init[|init| - 1]) && r != [] then
        r + " " + [c]
      else r + [c]
  }

  function Dashed(s: string): (r: string)
    ensures |r| == |s|
  {
    seq(|s|, i requires 0 <= i < |s| => if IsUnsafe(s[i]) then '-' else s[i])
  }

  function WithoutLead(s: string): (r: string)
    ensures |r| <= |s| && r == s[|s| - |r|..]
    ensures r != [] ==> r[0] !in ".- "
  {
    if s != [] && s[0] in ".- " then WithoutLead(s[1..]) else s
  }

  function Unfitted(name: string): (r: string)
    ensures |r| <= |name|
  {
    WithoutLead(Dashed(Collapsed(name)))
  }

  function RStrip(s: string): (r: string)
    ensures r <= s && (r == [] || !IsSpace(r[|r| - 1]))
  {
    if s != [] && IsSpace(s[|s| - 1]) then RStrip(s[..|s| - 1]) else s
  }

  function LStrip(s: string): (r: string)
    ensures |r| <= |s| && (r == [] || !IsSpace(r[0]))
    ensures r == s[|s| - |r|..]
  {
    if s != [] && IsSpace(s[0]) then LStrip(s[1..]) else s
  }

  function Strip(s: string): string { RStrip(LStrip(s)) }

  function FitBytes(s: string, limit: nat): string { if |s| <= limit then s else RStrip(s[..limit]) }

  function Spelling(name: string): string { FitBytes(Unfitted(name), FOLDER_MAX_BYTES) }

  lemma {:induction false} CollapsedIsSpaced(s: string)
    ensures forall i :: 0 <= i < |Collapsed(s)| ==> !IsSpace(Collapsed(s)[i]) || Collapsed(s)[i] == ' '
    ensures Collapsed(s) != [] ==> !IsSpace(Collapsed(s)[|Collapsed(s)| - 1])
    decreases |s|
  {
    if s == [] {
    } else {
      CollapsedIsSpaced(s[..|s| - 1]);
    }
  }

  predicate AllSafe(s: string) { forall i :: 0 <= i < |s| ==> !IsUnsafe(s[i]) }

  lemma {:induction false} DashedIsSafe(s: string)
    ensures AllSafe(Dashed(s))
    ensures s != [] && !IsSpace(s[|s| - 1]) ==> !IsSpace(Dashed(s)[|s| - 1])
  {
    DashIsSafe();
    hide IsUnsafe;
  }

  lemma {:induction false} UnfittedIsSafe(name: string)
    ensures AllSafe(Unfitted(name))
    ensures var whole := Unfitted(name); whole != [] ==> whole[0] !in ".- " && !IsSpace(whole[|whole| - 1])
  {
    CollapsedIsSpaced(name);
    DashedIsSafe(Collapsed(name));
    hide IsUnsafe, IsSpace, Collapsed, Dashed;
    var dashed, whole := Dashed(Collapsed(name)), Unfitted(name);
    hide WithoutLead;
    forall i | 0 <= i < |whole| ensures !IsUnsafe(whole[i]) { assert whole[i] == dashed[|dashed| - |whole| + i]; }
    if whole != [] { assert whole[|whole| - 1] == dashed[|dashed| - 1]; }
  }

  /** Whatever the name, its folder spelling is one safe path segment: at most 255 characters, no
      separator, quote, expansion or control character, no leading dot, dash or space, no trailing space. */
  lemma {:induction false} SpellingIsSafe(name: string)
    ensures var folder := Spelling(name);
            && |folder| <= FOLDER_MAX_BYTES && AllSafe(folder)
            && (folder != [] ==> folder[0] !in ".- " && !IsSpace(folder[|folder| - 1]))
  {
    UnfittedIsSafe(name);
    hide IsUnsafe, IsSpace, Unfitted, RStrip;
    assert Spelling(name) <= Unfitted(name);
  }

  lemma {:induction false} DashIsSafe()
    ensures !IsUnsafe('-') && !IsSpace('-')
  {
  }

  /** The folded folder spelling two names must not share; None when there is no usable folder. */
  function Key(name: string): Option<string> {
    var folder := Spelling(name);
    if folder == [] || Folded(folder) in RESERVED then None else Some(Folded(folder))
  }

  /** Stripped and within the length limit: what the app stores. */
  predicate IsTrim(name: string) {
    name != [] && !IsSpace(name[0]) && !IsSpace(name[|name| - 1]) && |name| <= NAME_MAX_CHARS
  }

  function Trimmed(name: string): string {
    var s := Strip(name);
    if |s| > NAME_MAX_CHARS then RStrip(s[..NAME_MAX_CHARS]) else s
  }

  lemma {:induction false} TrimmedIsTrim(name: string)
    ensures Trimmed(name) == [] || IsTrim(Trimmed(name))
  {
  }

  lemma {:induction false} TrimIsTrimmed(name: string)
    requires IsTrim(name)
    ensures Trimmed(name) == name
  {
  }

  // ----- numbered suffixes -----

  predicate Overflows(base: string, suffix: string) {
    |base| + |suffix| > NAME_MAX_CHARS || |Unfitted(base + suffix)| > FOLDER_MAX_BYTES
  }

  function Shrunk(base: string, suffix: string): (r: string)
    ensures r <= base
    decreases |base|
  {
    if base != [] && Overflows(base, suffix) then Shrunk(RStrip(base[..|base| - 1]), suffix) else base
  }

  lemma {:induction false} RStripIsLongest(s: string, p: string)
    requires p <= s && (p == [] || !IsSpace(p[|p| - 1]))
    ensures p <= RStrip(s)
    decreases |s|
  {
    if s == [] || !IsSpace(s[|s| - 1]) {
    } else {
      assert p <= s[..|s| - 1];
      RStripIsLongest(s[..|s| - 1], p);
    }
  }

  /** Shrinking stops at the first base that fits: any longer one, ending in a word, overflows. */
  lemma {:induction false} ShrunkIsLongest(base: string, suffix: string, p: string)
    requires p <= base && |p| > |Shrunk(base, suffix)| && (p == base || !IsSpace(p[|p| - 1]))
    ensures Overflows(p, suffix)
    decreases |base|
  {
    hide Overflows;
    if base == [] || !Overflows(base, suffix) || p == base {
    } else {
      assert p <= base[..|base| - 1];
      RStripIsLongest(base[..|base| - 1], p);
      ShrunkIsLongest(RStrip(base[..|base| - 1]), suffix, p);
    }
  }

  lemma {:induction false} ShrunkEndsInWord(base: string, suffix: string)
    ensures var kept := Shrunk(base, suffix);
            && (kept == [] || !Overflows(kept, suffix))
            && (kept == base || kept == [] || !IsSpace(kept[|kept| - 1]))
    decreases |base|
  {
    hide Overflows;
    if base == [] || !Overflows(base, suffix) {
    } else {
      ShrunkEndsInWord(RStrip(base[..|base| - 1]), suffix);
    }
  }

  function SuffixedWith(name: string, suffix: string): string {
    var base := Shrunk(Strip(name), suffix);
    if base != [] then base + suffix else Strip(suffix)
  }

  /** kept is the longest part of the base, ending in a word, that fits with the suffix. */
  ghost predicate LongestFit(base: string, suffix: string, kept: string) {
    && kept <= base && (kept == [] || !Overflows(kept, suffix))
    && forall p: string :: p <= base && |p| > |kept| && (p == base || !IsSpace(p[|p| - 1])) ==> Overflows(p, suffix)
  }

  lemma {:induction false} ShrunkIsLongestFit(base: string, suffix: string)
    ensures LongestFit(base, suffix, Shrunk(base, suffix))
  {
    hide Overflows, Shrunk, IsSpace;
    ShrunkEndsInWord(base, suffix);
    forall p: string | p <= base && |p| > |Shrunk(base, suffix)| && (p == base || !IsSpace(p[|p| - 1]))
      ensures Overflows(p, suffix) {
      ShrunkIsLongest(base, suffix, p);
    }
  }

  method Suffixed(name: string, suffix: string) returns (r: string)
    ensures r == SuffixedWith(name, suffix)
    ensures exists kept: string :: LongestFit(Strip(name), suffix, kept) && r == if kept != [] then kept + suffix
        else Strip(suffix)
  {
    hide Overflows, Strip;
    var base := Strip(name);
    while base != [] && Overflows(base, suffix)
      invariant Shrunk(Strip(name), suffix) == Shrunk(base, suffix)
      decreases |base|
    {
      base := RStrip(base[..|base| - 1]);
    }
    ShrunkIsLongestFit(Strip(name), suffix);
    assert LongestFit(Strip(name), suffix, base);
    r := if base != [] then base + suffix else Strip(suffix);
  }

  function Tail(n: nat): string { "(" + Dec(n) + ")" }

  function Numbered(name: string, n: nat): string { SuffixedWith(name, " " + Tail(n)) }

  /** Shrinking stops at a non-empty base that fits beside the suffix. */
  lemma {:induction false} ShrunkFits(base: string, suffix: string)
    requires IsTrim(base) && |suffix| < NAME_MAX_CHARS
    ensures Shrunk(base, suffix) != [] && Shrunk(base, suffix)[0] == base[0]
    ensures |Shrunk(base, suffix)| + |suffix| <= NAME_MAX_CHARS
    decreases |base|
  {
    if Overflows(base, suffix) {
      var shorter := base[..|base| - 1];
      assert shorter[0] == base[0];
      RStripKeeps(shorter);
      ShrunkFits(RStrip(shorter), suffix);
    }
  }

  lemma {:induction false} RStripKeeps(s: string)
    requires s != [] && !IsSpace(s[0])
    ensures RStrip(s) != [] && RStrip(s)[0] == s[0]
  {
    if IsSpace(s[|s| - 1]) { RStripKeeps(s[..|s| - 1]); }
  }

  lemma {:induction false} CollapsedNotEmpty(s: string)
    requires s != [] && !IsSpace(s[0])
    ensures Collapsed(s) != []
  {
    if |s| > 1 { CollapsedNotEmpty(s[..|s| - 1]); }
  }

  predicate Plain(t: string) { forall i :: 0 <= i < |t| ==> !IsSpace(t[i]) && !IsUnsafe(t[i]) && Lower(t[i]) == t[i] }

  lemma {:induction false} CollapsedSnoc(s: string, c: char)
    ensures Collapsed(s + [c]) ==
            if IsSpace(c) then Collapsed(s)
            else if s != [] && IsSpace(s[|s| - 1]) && Collapsed(s) != [] then Collapsed(s) + " " + [c]
            else Collapsed(s) + [c]
  {
    assert (s + [c])[..|s|] == s;
  }

  lemma {:induction false} LastOfJoined(a: string, t: string)
    requires t != []
    ensures (a + t)[|a + t| - 1] == t[|t| - 1]
  {
  }

  lemma {:induction false} JoinedSnoc(b: string, t: string, c: char)
    ensures b + " " + (t + [c]) == (b + " " + t) + [c]
  {
  }

  lemma {:induction false} CollapsedAppend(b: string, t: string)
    requires t != [] && Plain(t) && Collapsed(b) != []
    ensures Collapsed(b + " " + t) == Collapsed(b) + " " + t
  {
    hide Collapsed, IsUnsafe, Lower;
    var t', c := t[..|t| - 1], t[|t| - 1];
    assert t == t' + [c];
    CollapsedSnoc(b, ' ');
    CollapsedSnoc(b + " " + t', c);
    JoinedSnoc(b, t', c);
    JoinedSnoc(Collapsed(b), t', c);
    if t' == [] {
      assert b + " " + t' == b + " ";
      assert Collapsed(b) + " " + t' == Collapsed(b) + " ";
    } else {
      CollapsedAppend(b, t');
      LastOfJoined(b + " ", t');
    }
  }

  lemma {:induction false} DashedAppend(x: string, t: string)
    requires Plain(t)
    ensures Dashed(x + " " + t) == Dashed(x) + " " + t
  {
  }

  lemma {:induction false} WithoutLeadAppend(x: string, t: string)
    requires t != [] && t[0] !in ".- "
    ensures WithoutLead(x + " " + t) == if WithoutLead(x) == [] then t else WithoutLead(x) + " " + t
  {
    if x == [] {
      assert (x + " " + t)[1..] == t;
    } else if x[0] in ".- " {
      assert (x + " " + t)[1..] == x[1..] + " " + t;
      WithoutLeadAppend(x[1..], t);
    }
  }

  lemma {:induction false} TailIsPlain(n: nat)
    ensures Plain(Tail(n)) && Tail(n)[0] == '(' && Tail(n)[|Tail(n)| - 1] == ')'
  {
  }

  lemma {:induction false} UnfittedNumbered(base: string, n: nat) returns (lead: string)
    requires base != [] && !IsSpace(base[0])
    ensures Unfitted(base + " " + Tail(n)) == lead + Tail(n)
  {
    TailIsPlain(n);
    CollapsedNotEmpty(base);
    CollapsedAppend(base, Tail(n));
    hide Tail, Plain, Collapsed, WithoutLead, Dashed;
    DashedAppend(Collapsed(base), Tail(n));
    var x := Dashed(Collapsed(base));
    WithoutLeadAppend(x, Tail(n));
    lead := if WithoutLead(x) == [] then "" else WithoutLead(x) + " ";
  }

  lemma {:induction false} ReservedHasNoTail(s: string)
    requires s != [] && s[|s| - 1] == ')'
    ensures s !in RESERVED
  {
  }

  lemma {:induction false} KeyOfEnding(name: string, lead: string, n: nat)
    requires Unfitted(name) == lead + Tail(n) && |Unfitted(name)| <= FOLDER_MAX_BYTES
    ensures Key(name) == Some(Folded(lead) + Tail(n))
  {
    TailIsPlain(n);
    FoldedTail(lead, n);
    ReservedHasNoTail(Folded(lead) + Tail(n));
    hide Tail, Plain, Unfitted, Folded;
    assert Spelling(name) == lead + Tail(n);
  }

  lemma {:induction false} FoldedTail(lead: string, n: nat)
    ensures Folded(lead + Tail(n)) == Folded(lead) + Tail(n)
  {
    TailIsPlain(n);
    var t := Tail(n);
    hide Tail;
    forall i | 0 <= i < |t| ensures Folded(lead + t)[|lead| + i] == t[i] { assert (lead + t)[|lead| + i] == t[i]; }
    assert Folded(lead + t) == Folded(lead) + t;
  }

  /** The key of a numbered name still shows its number, whatever was cut from the base. */
  lemma {:induction false} NumberedKey(name: string, n: nat) returns (lead: string)
    requires IsTrim(name) && |Tail(n)| <= NAME_MAX_CHARS - 2
    ensures IsTrim(Numbered(name, n))
    ensures Key(Numbered(name, n)) == Some(lead + Tail(n))
  {
    var base := Shrunk(name, " " + Tail(n));
    assert Strip(name) == name;
    ShrunkFits(name, " " + Tail(n));
    TailIsPlain(n);
    hide Tail, Plain, Shrunk, Key, Unfitted;
    assert Numbered(name, n) == base + (" " + Tail(n)) == base + " " + Tail(n);
    var kept := UnfittedNumbered(base, n);
    KeyOfEnding(base + " " + Tail(n), kept, n);
    lead := Folded(kept);
  }

  /** Different numbers never share a key, so the walk through them cannot run in circles. */
  lemma {:induction false} NumberedKeysDiffer(name: string, n: nat, m: nat)
    requires IsTrim(name) && |Tail(n)| <= NAME_MAX_CHARS - 2 && |Tail(m)| <= NAME_MAX_CHARS - 2
    requires Key(Numbered(name, n)) == Key(Numbered(name, m))
    ensures n == m
  {
    var a := NumberedKey(name, n);
    var b := NumberedKey(name, m);
    hide Key, Numbered, IsTrim;
    TailsDiffer(a, b, n, m);
  }

  lemma {:induction false} TailsDiffer(a: string, b: string, n: nat, m: nat)
    requires a + Tail(n) == b + Tail(m)
    ensures n == m
  {
    var s, t := a + Tail(n), b + Tail(m);
    assert s[..|s| - 1] == (a + "(") + Dec(n);
    assert t[..|t| - 1] == (b + "(") + Dec(m);
    TrailingNumeral(a + "(", b + "(", n, m);
  }
}
