/** Shared vocabulary: optional values, a counting argument and decimal numerals. */
module Options {
  datatype Option<+T> = None | Some(value: T) {
    function GetOr(default: T): T { if Some? then value else default }
  }
}

/** A search through distinct candidates must leave a finite set of excluded values. */
module Pigeonhole {

  ghost function Image<T>(f: nat -> T, lo: nat, hi: nat): set<T> { set i | lo <= i < hi :: f(i) }

  lemma {:induction false} ImageStep<T>(f: nat -> T, lo: nat, hi: nat)
    requires lo < hi
    ensures Image(f, lo, hi) == Image(f, lo, hi - 1) + {f(hi - 1)}
  {
  }

  lemma {:induction false} NewImage<T>(f: nat -> T, lo: nat, hi: nat)
    requires lo < hi && forall i, j :: lo <= i < j < hi ==> f(i) != f(j)
    ensures f(hi - 1) !in Image(f, lo, hi - 1)
  {
  }

  /** Distinct images of lo..hi make a set of exactly hi - lo values. */
  lemma {:induction false} ImageSize<T>(f: nat -> T, lo: nat, hi: nat)
    requires lo <= hi
    requires forall i, j :: lo <= i < j < hi ==> f(i) != f(j)
    ensures |Image(f, lo, hi)| == hi - lo
    decreases hi
  {
    if lo == hi {
    } else {
      ImageSize(f, lo, hi - 1);
      ImageStep(f, lo, hi);
      NewImage(f, lo, hi);
      hide Image;
    }
  }

  lemma {:induction false} SubsetSize<T>(small: set<T>, big: set<T>)
    requires small <= big
    ensures |small| <= |big|
    decreases small
  {
    if small == {} {
    } else {
      var x :| x in small;
      SubsetSize(small - {x}, big - {x});
    }
  }

  lemma {:induction false} UnionSize<T>(a: set<T>, b: set<T>)
    ensures |a + b| <= |a| + |b|
  {
    SubsetSize(b - a, b);
    assert a + b == a + (b - a);
  }

  /** If every candidate in lo..hi is excluded, the excluded set is at least that big. */
  lemma {:induction false} ExcludedIsLarge<T>(f: nat -> T, lo: nat, hi: nat, excluded: set<T>)
    requires lo <= hi
    requires forall i, j :: lo <= i < j < hi ==> f(i) != f(j)
    requires forall i :: lo <= i < hi ==> f(i) in excluded
    ensures hi - lo <= |excluded|
  {
    ImageSize(f, lo, hi);
    SubsetSize(Image(f, lo, hi), excluded);
  }
}

/** Python's str(n) for non-negative n. */
module Decimals {

  predicate IsDigit(c: char) { '0' <= c <= '9' }

  function Digit(d: nat): (c: char)
    requires d < 10
    ensures IsDigit(c) && c as int == '0' as int + d
  {
    ('0' as int + d) as char
  }

  predicate AllDigits(s: string) { forall i :: 0 <= i < |s| ==> IsDigit(s[i]) }

  function Dec(n: nat): (s: string)
    ensures s != [] && AllDigits(s)
  {
    if n < 10 then [Digit(n)] else Dec(n / 10) + [Digit(n % 10)]
  }

  function Value(s: string): nat
    requires AllDigits(s)
  {
    if s == [] then 0 else 10 * Value(s[..|s| - 1]) + (s[|s| - 1] as int - '0' as int)
  }

  /** Reading a numeral back gives the number it was printed from. */
  lemma {:induction false} ValueOfDec(n: nat)
    ensures Value(Dec(n)) == n
  {
    if n >= 10 {
      ValueOfDec(n / 10);
      assert Dec(n)[..|Dec(n)| - 1] == Dec(n / 10);
    } else {
      assert Dec(n)[..0] == [];
    }
  }

  function Pow10(k: nat): nat { if k == 0 then 1 else 10 * Pow10(k - 1) }

  lemma {:induction false} DecLength(n: nat, k: nat)
    requires k >= 1 && n < Pow10(k)
    ensures |Dec(n)| <= k
  {
    if n >= 10 {
      assert k >= 2 by { assert Pow10(1) == 10 * Pow10(0); }
      DecLength(n / 10, k - 1);
    }
  }

  predicate EndsInDigit(s: string) { s != [] && IsDigit(s[|s| - 1]) }

  lemma {:induction false} ShorterNumeralDiffers(p: string, q: string, n: nat, m: nat)
    requires !EndsInDigit(p)
    requires |Dec(n)| < |Dec(m)|
    ensures p + Dec(n) != q + Dec(m)
  {
    if |p| + |Dec(n)| == |q| + |Dec(m)| {
      assert !IsDigit((p + Dec(n))[|p| - 1]);
      assert (q + Dec(m))[|p| - 1] == Dec(m)[|p| - 1 - |q|];
    }
  }

  /** A numeral after a non-digit can be read off the end of a string. */
  lemma {:induction false} TrailingNumeral(p: string, q: string, n: nat, m: nat)
    requires !EndsInDigit(p) && !EndsInDigit(q)
    requires p + Dec(n) == q + Dec(m)
    ensures n == m && p == q
  {
    if |Dec(n)| < |Dec(m)| {
      ShorterNumeralDiffers(p, q, n, m);
    } else if |Dec(m)| < |Dec(n)| {
      ShorterNumeralDiffers(q, p, m, n);
    }
    assert (p + Dec(n))[|p|..] == Dec(n) && (q + Dec(m))[|q|..] == Dec(m);
    assert (p + Dec(n))[..|p|] == p && (q + Dec(m))[..|q|] == q;
    ValueOfDec(n);
    ValueOfDec(m);
  }
}
