/** What the folder spelling of a name keeps of it, and which names share a key. */
module FolderSpelling {
  import opened Options
  import opened FolderNames

  // ----- which names are their own folder -----

  predicate AllSpace(s: string) { forall i :: 0 <= i < |s| ==> IsSpace(s[i]) }

  /** Words joined by single plain spaces, none at either end. */
  predicate SingleSpaced(s: string) {
    && (forall i :: 0 <= i < |s| && IsSpace(s[i]) ==> s[i] == ' ' && 0 < i < |s| - 1 && !IsSpace(s[i - 1]))
  }

  /** One safe path segment: single-spaced, no unsafe character, no leading dot, dash or space, short enough. */
  predicate WellSpelt(s: string) {
    SingleSpaced(s) && AllSafe(s) && (s != [] ==> s[0] !in ".- ") && |s| <= FOLDER_MAX_BYTES
  }

  lemma {:induction false} CollapsedIsSingleSpaced(s: string)
    ensures SingleSpaced(Collapsed(s))
  {
    if s == [] {
    } else {
      CollapsedIsSingleSpaced(s[..|s| - 1]);
    }
  }

  lemma {:induction false} SingleSpacedStays(s: string)
    requires forall i :: 0 <= i < |s| && IsSpace(s[i]) ==> s[i] == ' ' && 0 < i && !IsSpace(s[i - 1])
    ensures Collapsed(s) == if s != [] && IsSpace(s[|s| - 1]) then s[..|s| - 1] else s
  {
    if s == [] {
    } else {
      var init, c := s[..|s| - 1], s[|s| - 1];
      SingleSpacedStays(init);
      assert s == init + [c];
      CollapsedSnoc(init, c);
      hide Collapsed, IsSpace;
      if !IsSpace(c) && init != [] && IsSpace(init[|init| - 1]) { assert s == init[..|init| - 1] + " " + [c]; }
    }
  }

  /** A well spelt name is kept character for character. */
  lemma {:induction false} WellSpeltStays(name: string)
    requires WellSpelt(name)
    ensures Spelling(name) == name
  {
    SingleSpacedStays(name);
    assert Dashed(name) == name;
  }

  lemma {:induction false} SuffixIsSingleSpaced(s: string, k: nat)
    requires SingleSpaced(s) && k < |s| && !IsSpace(s[k])
    ensures SingleSpaced(s[k..])
  {
    hide IsSpace;
    var t := s[k..];
    forall i | 0 <= i < |t| && IsSpace(t[i]) ensures t[i] == ' ' && 0 < i < |t| - 1 && !IsSpace(t[i - 1]) {
      assert t[i] == s[k + i];
    }
  }

  lemma {:induction false} PrefixIsSingleSpaced(s: string, p: string)
    requires SingleSpaced(s) && p <= s && (p == [] || !IsSpace(p[|p| - 1]))
    ensures SingleSpaced(p)
  {
    hide IsSpace;
    forall i | 0 <= i < |p| && IsSpace(p[i]) ensures p[i] == ' ' && 0 < i < |p| - 1 && !IsSpace(p[i - 1]) {
      assert p[i] == s[i] && (i > 0 ==> p[i - 1] == s[i - 1]);
    }
  }

  lemma {:induction false} DashedIsSingleSpaced(s: string)
    requires SingleSpaced(s)
    ensures SingleSpaced(Dashed(s))
  {
    DashIsSafe();
  }

  /** What is left once the lead is gone does not begin with a space. */
  lemma {:induction false} LeadIsWord(s: string)
    requires SingleSpaced(s)
    ensures WithoutLead(s) == [] || !IsSpace(WithoutLead(s)[0])
  {
    var r := WithoutLead(s);
    assert r == s[|s| - |r|..];
    if r != [] { assert r[0] == s[|s| - |r|]; }
  }

  lemma {:induction false} UnfittedIsSingleSpaced(name: string)
    ensures SingleSpaced(Unfitted(name))
  {
    CollapsedIsSingleSpaced(name);
    DashedIsSingleSpaced(Collapsed(name));
    var dashed, whole := Dashed(Collapsed(name)), Unfitted(name);
    LeadIsWord(dashed);
    hide SingleSpaced, Collapsed, Dashed, WithoutLead, IsSpace;
    if whole != [] {
      var k := |dashed| - |whole|;
      assert whole == dashed[k..] && whole[0] == dashed[k];
      SuffixIsSingleSpaced(dashed, k);
    } else {
      NothingIsSingleSpaced();
    }
  }

  lemma {:induction false} NothingIsSingleSpaced()
    ensures SingleSpaced("")
  {
  }

  /** Every spelling is well spelt, so spelling a folder's own name changes nothing. */
  lemma {:induction false} SpellingIsWellSpelt(name: string)
    ensures WellSpelt(Spelling(name))
    ensures Spelling(Spelling(name)) == Spelling(name)
  {
    SpellingIsSafe(name);
    UnfittedIsSingleSpaced(name);
    hide SingleSpaced, Unfitted, RStrip, AllSafe, IsSpace;
    PrefixIsSingleSpaced(Unfitted(name), Spelling(name));
    WellSpeltStays(Spelling(name));
  }

  /** A name is its own folder exactly when it is well spelt. */
  lemma {:induction false} OwnFolderExactly(name: string)
    ensures Spelling(name) == name <==> WellSpelt(name)
  {
    SpellingIsWellSpelt(name);
    if WellSpelt(name) { WellSpeltStays(name); }
    hide WellSpelt, Spelling;
  }

  // ----- what else a spelling does -----

  /** A single-spaced name that leads with a word keeps its length and its characters, but for the unsafe
      ones: those become dashes. */
  lemma {:induction false} UnsafeBecomeDashes(name: string)
    requires SingleSpaced(name) && |name| <= FOLDER_MAX_BYTES
    requires name != [] ==> name[0] !in ".- " && !IsUnsafe(name[0])
    ensures |Spelling(name)| == |name|
    ensures forall i :: 0 <= i < |name| ==>
              Spelling(name)[i] ==
              if name[i] in "/\\:$`\"" || name[i] < ' ' || name[i] as int == 127 then '-' else name[i]
  {
    SingleSpacedStays(name);
    hide Collapsed;
  }

  lemma {:induction false} CollapsedPrefix(a: string, ws: string)
    requires AllSpace(ws)
    ensures Collapsed(a + ws) == Collapsed(a)
  {
    if ws == [] {
      assert a + ws == a;
    } else {
      assert (a + ws)[..|a + ws| - 1] == a + ws[..|ws| - 1];
      CollapsedPrefix(a, ws[..|ws| - 1]);
    }
  }

  lemma {:induction false} OneSpace()
    ensures AllSpace(" ")
  {
  }

  lemma {:induction false} CollapsedOnce(a: string, ws: string, b: string)
    requires AllSpace(ws) && ws != []
    ensures Collapsed(a + ws + b) == Collapsed(a + " " + b)
    decreases |b|
  {
    hide Collapsed, IsSpace;
    OneSpace();
    if b == [] {
      CollapsedPrefix(a, ws);
      CollapsedPrefix(a, " ");
      assert a + ws + b == a + ws && a + " " + b == a + " ";
    } else {
      var b', c := b[..|b| - 1], b[|b| - 1];
      CollapsedOnce(a, ws, b');
      assert a + ws + b == (a + ws + b') + [c] && a + " " + b == (a + " " + b') + [c];
      CollapsedSnoc(a + ws + b', c);
      CollapsedSnoc(a + " " + b', c);
      if b' == [] {
        assert (a + ws + b') == a + ws && (a + " " + b') == a + " ";
      } else {
        LastOfJoined(a + ws, b');
        LastOfJoined(a + " ", b');
      }
    }
  }

  /** A run of white space counts as one space, whatever it is made of. */
  lemma {:induction false} SpacesCountOnce(a: string, ws: string, b: string)
    requires AllSpace(ws) && ws != []
    ensures Spelling(a + ws + b) == Spelling(a + " " + b)
  {
    hide Collapsed;
    CollapsedOnce(a, ws, b);
  }

  /** The lead that goes is dots, dashes and spaces, and no more. */
  lemma {:induction false} OnlyLeadGoes(s: string, i: nat)
    requires i < |s| - |WithoutLead(s)|
    ensures s[i] in ".- "
  {
    if i > 0 { OnlyLeadGoes(s[1..], i - 1); }
  }

  /** A folder too long for a path segment is cut after the last word, or part of one, that fits. */
  lemma {:induction false} SpellingIsLongest(name: string, p: string)
    requires p <= Unfitted(name) && |p| <= FOLDER_MAX_BYTES && (p == [] || !IsSpace(p[|p| - 1]))
    ensures p <= Spelling(name) <= Unfitted(name)
  {
    hide Unfitted, IsSpace;
    var whole := Unfitted(name);
    if |whole| > FOLDER_MAX_BYTES {
      assert p <= whole[..FOLDER_MAX_BYTES];
      RStripIsLongest(whole[..FOLDER_MAX_BYTES], p);
    }
  }

  // ----- letter case -----

  /** The same letter, or the two cases of one. */
  predicate SameLetter(a: char, b: char) {
    || a == b
    || ('A' <= a <= 'Z' && b as int == a as int + ('a' as int - 'A' as int))
    || ('A' <= b <= 'Z' && a as int == b as int + ('a' as int - 'A' as int))
  }

  predicate SameLetters(a: string, b: string) {
    |a| == |b| && forall i :: 0 <= i < |a| ==> SameLetter(a[i], b[i])
  }

  /** Folding two texts gives one text exactly when they differ in nothing but letter case. */
  lemma {:induction false} FoldedExactly(a: string, b: string)
    ensures Folded(a) == Folded(b) <==> SameLetters(a, b)
  {
    if Folded(a) == Folded(b) {
      forall i | 0 <= i < |a| ensures SameLetter(a[i], b[i]) {
        assert Folded(a)[i] == Folded(b)[i];
      }
    }
  }

  lemma {:induction false} SameSpaces(a: char, b: char)
    requires SameLetter(a, b)
    ensures IsSpace(a) == IsSpace(b) && IsUnsafe(a) == IsUnsafe(b) && (a in ".- " <==> b in ".- ")
    ensures IsSpace(a) || IsUnsafe(a) || a in ".- " ==> a == b
  {
  }

  lemma {:induction false} CollapsedAlike(a: string, b: string)
    requires SameLetters(a, b)
    ensures SameLetters(Collapsed(a), Collapsed(b))
  {
    if a == [] {
    } else {
      var n := |a| - 1;
      CollapsedAlike(a[..n], b[..n]);
      SameSpaces(a[n], b[n]);
      if n > 0 { SameSpaces(a[n - 1], b[n - 1]); }
      hide IsSpace;
    }
  }

  lemma {:induction false} DashedAlike(a: string, b: string)
    requires SameLetters(a, b)
    ensures SameLetters(Dashed(a), Dashed(b))
  {
    forall i | 0 <= i < |a| ensures SameLetter(Dashed(a)[i], Dashed(b)[i]) { SameSpaces(a[i], b[i]); }
  }

  lemma {:induction false} WithoutLeadAlike(a: string, b: string)
    requires SameLetters(a, b)
    ensures SameLetters(WithoutLead(a), WithoutLead(b))
  {
    if a != [] {
      SameSpaces(a[0], b[0]);
      if a[0] in ".- " { WithoutLeadAlike(a[1..], b[1..]); }
    }
  }

  lemma {:induction false} RStripAlike(a: string, b: string)
    requires SameLetters(a, b)
    ensures SameLetters(RStrip(a), RStrip(b))
  {
    if a != [] {
      var n := |a| - 1;
      SameSpaces(a[n], b[n]);
      if IsSpace(a[n]) { RStripAlike(a[..n], b[..n]); }
    }
  }

  lemma {:induction false} SpellingsAlike(a: string, b: string)
    requires SameLetters(a, b)
    ensures SameLetters(Spelling(a), Spelling(b))
  {
    CollapsedAlike(a, b);
    DashedAlike(Collapsed(a), Collapsed(b));
    WithoutLeadAlike(Dashed(Collapsed(a)), Dashed(Collapsed(b)));
    hide Collapsed, Dashed, WithoutLead, RStrip, SameLetter;
    var x, y := Unfitted(a), Unfitted(b);
    if |x| > FOLDER_MAX_BYTES { RStripAlike(x[..FOLDER_MAX_BYTES], y[..FOLDER_MAX_BYTES]); }
  }

  /** Names that differ in letter case alone have the same key, or both none. */
  lemma {:induction false} CaseSharesKey(a: string, b: string)
    requires SameLetters(a, b)
    ensures Key(a) == Key(b)
  {
    SpellingsAlike(a, b);
    FoldedExactly(Spelling(a), Spelling(b));
    hide Spelling, Folded, SameLetter;
  }

  /** Two names share a key exactly when their folders are usable and differ in letter case at most. */
  lemma {:induction false} KeysMeetExactly(a: string, b: string)
    ensures Key(a).Some? && Key(a) == Key(b) <==> Key(a).Some? && Key(b).Some? && SameLetters(Spelling(a), Spelling(b))
  {
    FoldedExactly(Spelling(a), Spelling(b));
    hide Spelling, SameLetters;
  }

  /** A name has no key exactly when nothing of it can be a folder, or its folder is a reserved one in
      any letter case: "Code" is as reserved as "code". */
  lemma {:induction false} NoKeyExactly(name: string)
    ensures Key(name).None? <==> Spelling(name) == [] || exists r :: r in RESERVED && SameLetters(Spelling(name), r)
  {
    forall r | r in RESERVED ensures Folded(r) == r { ReservedIsLower(r); }
    forall r | r in RESERVED ensures Folded(Spelling(name)) == r <==> SameLetters(Spelling(name), r) {
      FoldedExactly(Spelling(name), r);
    }
    hide Spelling, Folded, SameLetters;
  }

  lemma {:induction false} ReservedIsLower(r: string)
    requires r in RESERVED
    ensures Folded(r) == r
  {
  }

  // ----- padding -----

  lemma {:induction false} LStripPadded(a: string, s: string)
    requires AllSpace(a) && (s == [] || !IsSpace(s[0]))
    ensures LStrip(a + s) == s
  {
    if a == [] {
      assert a + s == s;
    } else {
      assert (a + s)[1..] == a[1..] + s;
      LStripPadded(a[1..], s);
    }
  }

  lemma {:induction false} RStripPadded(s: string, b: string)
    requires AllSpace(b) && (s == [] || !IsSpace(s[|s| - 1]))
    ensures RStrip(s + b) == s
  {
    if b == [] {
      assert s + b == s;
    } else {
      assert (s + b)[..|s + b| - 1] == s + b[..|b| - 1];
      RStripPadded(s, b[..|b| - 1]);
    }
  }

  lemma {:induction false} StripPadded(a: string, s: string, b: string)
    requires AllSpace(a) && AllSpace(b) && s != [] && !IsSpace(s[0]) && !IsSpace(s[|s| - 1])
    ensures Strip(a + s + b) == s
  {
    hide IsSpace, LStrip, RStrip;
    assert a + s + b == a + (s + b) && (s + b)[0] == s[0];
    LStripPadded(a, s + b);
    RStripPadded(s, b);
  }

  /** Trimming takes the padding off, and of a name over 80 characters what follows the last word, or part
      of one, that ends within them. */
  lemma {:induction false} PaddingGoes(a: string, s: string, b: string)
    requires AllSpace(a) && AllSpace(b) && s != [] && !IsSpace(s[0]) && !IsSpace(s[|s| - 1])
    ensures var r := Trimmed(a + s + b);
            && r <= s && |r| <= NAME_MAX_CHARS && (|s| <= NAME_MAX_CHARS ==> r == s)
            && forall p: string :: p <= s && |p| <= NAME_MAX_CHARS && (p == [] || !IsSpace(p[|p| - 1])) ==> p <= r
  {
    hide IsSpace, Strip, RStrip;
    StripPadded(a, s, b);
    forall p: string | p <= s && |p| <= NAME_MAX_CHARS && (p == [] || !IsSpace(p[|p| - 1]))
      ensures p <= Trimmed(a + s + b) {
      if |s| > NAME_MAX_CHARS {
        assert p <= s[..NAME_MAX_CHARS];
        RStripIsLongest(s[..NAME_MAX_CHARS], p);
      }
    }
  }
}
