/** The call budget of plugins/alternative_data/scrape_mcp_server.py: which batches are admitted, and
    how exact its advice to a refused caller is. */
module ScrapeBudget {

  const MIN_TIMEOUT: real := 1.0
  const MAX_TIMEOUT: real := 60.0
  const MAX_BULK_URLS: nat := 10
  const BROWSER_CONCURRENCY: nat := 2
  const FAST_CONCURRENCY: nat := 8
  const CALL_BUDGET: real := 110.0
  const BROWSER_GRACE: real := 15.0
  const FAST_GRACE: real := 5.0

  datatype Mode = Fast | Browser | Stealth

  function Slots(mode: Mode): nat { if mode.Fast? then FAST_CONCURRENCY else BROWSER_CONCURRENCY }

  function Grace(mode: Mode): real { if mode.Fast? then FAST_GRACE else BROWSER_GRACE }

  /** The rounds a batch needs: the quotient rounded up. */
  function Waves(mode: Mode, urls: nat): nat { (urls + Slots(mode) - 1) / Slots(mode) }

  function FetchBound(mode: Mode, timeout: real): real { timeout + Grace(mode) }

  predicate ValidTimeout(timeout: real) { MIN_TIMEOUT <= timeout <= MAX_TIMEOUT }

  predicate Admitted(mode: Mode, timeout: real, urls: nat) {
    Waves(mode, urls) as real * FetchBound(mode, timeout) <= CALL_BUDGET
  }

  /** The advice of a refusal: how long a timeout, and how many URLs, would have been taken. */
  function Allowed(mode: Mode, urls: nat): real
    requires urls > 0
  {
    assert Waves(mode, urls) > 0 by { WavesAreEnough(mode, urls); }
    CALL_BUDGET / Waves(mode, urls) as real - Grace(mode)
  }

  function Fits(mode: Mode, timeout: real): nat
    requires ValidTimeout(timeout)
  {
    QuotientIsPositive(CALL_BUDGET, FetchBound(mode, timeout));
    (CALL_BUDGET / FetchBound(mode, timeout)).Floor * Slots(mode)
  }

  lemma {:induction false} QuotientIsPositive(a: real, b: real)
    requires a >= 0.0 && b > 0.0
    ensures a / b >= 0.0
  {
  }

  /** The waves cover the batch, and one fewer would not. */
  lemma {:induction false} WavesAreEnough(mode: Mode, urls: nat)
    ensures urls <= Waves(mode, urls) * Slots(mode) < urls + Slots(mode)
  {
  }

  lemma {:induction false} QuotientOrder(x: real, b: real, y: real)
    requires b > 0.0
    ensures y * b <= x <==> y <= x / b
  {
    var q := x / b;
    assert q * b == x;
    if y <= q { assert y * b <= q * b; }
    if y > q { assert y * b > q * b; }
  }

  lemma {:induction false} WavesOfMultiple(mode: Mode, urls: nat, k: nat)
    ensures Waves(mode, urls) <= k <==> urls <= k * Slots(mode)
  {
    WavesAreEnough(mode, urls);
  }

  /** The number of URLs a refusal names. */
  function Advised(mode: Mode, timeout: real): nat
    requires ValidTimeout(timeout)
  {
    if Fits(mode, timeout) <= MAX_BULK_URLS then Fits(mode, timeout) else MAX_BULK_URLS
  }

  /** It is exact: of the batches a call may hold at all, those of up to that many URLs, and no more,
      are taken at this timeout. */
  lemma {:induction false} FitsIsExact(mode: Mode, timeout: real, urls: nat)
    requires ValidTimeout(timeout)
    ensures Admitted(mode, timeout, urls) <==> urls <= Fits(mode, timeout)
    ensures urls <= MAX_BULK_URLS ==> (Admitted(mode, timeout, urls) <==> urls <= Advised(mode, timeout))
  {
    var b := FetchBound(mode, timeout);
    QuotientIsPositive(CALL_BUDGET, b);
    QuotientOrder(CALL_BUDGET, b, Waves(mode, urls) as real);
    WavesOfMultiple(mode, urls, (CALL_BUDGET / b).Floor);
  }

  /** So is the timeout, before it is rounded for the message. */
  lemma {:induction false} AllowedIsExact(mode: Mode, timeout: real, urls: nat)
    requires urls > 0
    ensures Admitted(mode, timeout, urls) <==> timeout <= Allowed(mode, urls)
  {
    WavesAreEnough(mode, urls);
    QuotientOrder(CALL_BUDGET, Waves(mode, urls) as real, FetchBound(mode, timeout));
  }

  /** Rounding to the nearest integer, a half to the even one. */
  function Rounded(x: real): int {
    var fraction := x - x.Floor as real;
    if fraction < 0.5 || (fraction == 0.5 && x.Floor % 2 == 0) then x.Floor else x.Floor + 1
  }

  /** The timeout the message shows is taken exactly when showing it did not round it up. */
  lemma {:induction false} ShownTimeoutExactly(mode: Mode, urls: nat)
    requires urls > 0
    ensures var a := Allowed(mode, urls);
            Admitted(mode, Rounded(a) as real, urls) <==>
            a - a.Floor as real < 0.5 || (a - a.Floor as real == 0.5 && a.Floor % 2 == 0)
  {
    AllowedIsExact(mode, Rounded(Allowed(mode, urls)) as real, urls);
  }

  /** Five URLs in browser mode are told to keep to 22 seconds, and refused at 22 seconds. */
  lemma {:induction false} ShownTimeoutCanBeRefused()
    ensures ValidTimeout(22.0) && Rounded(Allowed(Browser, 5)) == 22 && !Admitted(Browser, 22.0, 5)
  {
    assert Waves(Browser, 5) == 3;
    assert 110.0 / 3.0 - 15.0 > 21.5 && 110.0 / 3.0 - 15.0 < 22.0;
    assert (110.0 / 3.0 - 15.0).Floor == 21;
  }
}
