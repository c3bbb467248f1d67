/** What admission buys: how an admitted batch of scrape_pages stands against its 110 seconds. */
module ScrapeBatch {
  import opened ScrapeBudget
  import opened ScrapeGate

  /** Every end of every batch of at most n fetches, blocked URLs taking none, is within the budget. */
  ghost predicate AlwaysInBudget(g: Gate, n: nat)
    requires Sound(g)
  {
    forall jobs, j :: |jobs| <= n && Nonnegative(jobs) && 0 <= j < |jobs| ==> Batch(g, jobs)[j].end <= g.deadline
  }

  lemma {:induction false} LastWave(mode: Mode, n: nat, j: nat)
    requires j < n
    ensures j / Slots(mode) + 1 <= Waves(mode, n) && (n - 1) / Slots(mode) + 1 == Waves(mode, n)
  {
  }

  lemma {:induction false} GateIsSound(mode: Mode, timeout: real)
    requires ValidTimeout(timeout)
    ensures Sound(GateOf(mode, timeout))
  {
  }

  lemma {:induction false} AdmittedFits(mode: Mode, timeout: real, n: nat)
    ensures Admitted(mode, timeout, n) <==> Times(Waves(mode, n), FetchBound(mode, timeout)) <= CALL_BUDGET
  {
    TimesMultiplies(Waves(mode, n), FetchBound(mode, timeout));
  }

  /** An admitted batch is out by 110 seconds when none of its fetches is cancelled at its bound. */
  lemma {:induction false} UncancelledBatchIsInBudget(mode: Mode, timeout: real, n: nat, jobs: seq<Fetch>, j: nat)
    requires ValidTimeout(timeout) && Admitted(mode, timeout, n)
    requires j < |jobs| <= n && Nonnegative(jobs) && forall i :: 0 <= i < |jobs| ==>
        jobs[i].fetching <= FetchBound(mode, timeout)
    ensures Sound(GateOf(mode, timeout)) && Batch(GateOf(mode, timeout), jobs)[j].end <= CALL_BUDGET
  {
    var g := GateOf(mode, timeout);
    GateIsSound(mode, timeout);
    AdmittedFits(mode, timeout, n);
    ListScheduling(g, jobs, j);
    LastWave(mode, n, j);
    TimesAscend(j / g.slots + 1, Waves(mode, n), g.bound);
    hide Admitted, Batch, Times, Waves, Nonnegative;
  }

  lemma {:induction false} TimesAscend(j: nat, k: nat, x: real)
    requires j <= k && x >= 0.0
    ensures Times(j, x) <= Times(k, x)
    decreases k
  {
    if j < k { TimesAscend(j, k - 1, x); }
  }

  /** The batch as a whole keeps to its deadline exactly when its waves do. */
  lemma {:induction false} BudgetIsTheLastWave(mode: Mode, timeout: real, n: nat)
    requires ValidTimeout(timeout) && n > 0
    ensures Sound(GateOf(mode, timeout))
    ensures AlwaysInBudget(GateOf(mode, timeout), n) <==> Wave(GateOf(mode, timeout), Waves(mode, n)) <= CALL_BUDGET
  {
    var g := GateOf(mode, timeout);
    GateIsSound(mode, timeout);
    if Wave(g, Waves(mode, n)) <= CALL_BUDGET {
      forall jobs, j | |jobs| <= n && Nonnegative(jobs) && 0 <= j < |jobs| ensures Batch(g, jobs)[j].end <= g.deadline {
        EachFetchInItsWave(g, jobs, j);
        LastWave(mode, n, j);
        WavesAscend(g, j / g.slots + 1, Waves(mode, n));
      }
    } else {
      var jobs := seq(n, _ => Hanging(g));
      WavesAreReached(g, n, n - 1);
      LastWave(mode, n, n - 1);
      assert Nonnegative(jobs);
    }
  }

  /** Whatever its fetches and browsers do, a batch keeps to 110 seconds exactly when all but its last
      wave fit with their close waits, and the last without. */
  lemma {:induction false} BudgetHeldExactly(mode: Mode, timeout: real, n: nat)
    requires ValidTimeout(timeout) && n > 0
    ensures var g := GateOf(mode, timeout);
            && Sound(g) && Waves(mode, n) > 0
            && (AlwaysInBudget(g, n) <==> Times(Waves(mode, n) - 1, g.bound + g.closeWait) + g.bound <= CALL_BUDGET)
  {
    BudgetIsTheLastWave(mode, timeout, n);
    LastWave(mode, n, 0);
    DeadlineExactly(GateOf(mode, timeout), Waves(mode, n));
    hide AlwaysInBudget, Wave, Waves;
  }

  /** So an admitted batch of one wave always keeps to it, and so does every admitted fast batch. */
  lemma {:induction false} AdmittedSingleWaveIsInBudget(mode: Mode, timeout: real, n: nat)
    requires ValidTimeout(timeout) && n > 0 && Admitted(mode, timeout, n) && (Waves(mode, n) == 1 || mode.Fast?)
    ensures Sound(GateOf(mode, timeout)) && AlwaysInBudget(GateOf(mode, timeout), n)
  {
    BudgetHeldExactly(mode, timeout, n);
    AdmittedFits(mode, timeout, n);
    hide AlwaysInBudget, Admitted, Waves;
  }

  /** Three URLs in browser mode at 40 seconds are admitted, and can hold the gate for 125 seconds. */
  lemma {:induction false} AnAdmittedBatchCanOverrun() returns (jobs: seq<Fetch>)
    ensures ValidTimeout(40.0) && Admitted(Browser, 40.0, 3) && |jobs| == 3 && Nonnegative(jobs)
    ensures Sound(GateOf(Browser, 40.0)) && Batch(GateOf(Browser, 40.0), jobs)[2].end == 125.0
  {
    var g := GateOf(Browser, 40.0);
    jobs := seq(3, _ => Hanging(g));
    WavesAreReached(g, 3, 2);
    assert Wave(g, 1) == Latest(g, Wave(g, 0)) == 70.0;
    assert Wave(g, 2) == Latest(g, Wave(g, 1)) == 125.0;
    assert Waves(Browser, 3) == 2;
  }

  // ----- the gate, run -----

  /** Lets each fetch in as the first slot frees up, in the order of the batch. */
  method RunBatch(g: Gate, jobs: seq<Fetch>) returns (spans: seq<Span>)
    requires Sound(g)
    ensures spans == Batch(g, jobs)
  {
    var free := new real[g.slots](_ => 0.0);
    spans := [];
    assert free[..] == seq(g.slots, _ => 0.0);
    for j := 0 to |jobs|
      invariant Batch(g, jobs) == spans + Schedule(g, free[..], jobs[j..])
    {
      var m := 0;
      for k := 1 to free.Length
        invariant m < free.Length && m == Soonest(free[..k])
      {
        assert free[..k + 1][..k] == free[..k];
        if free[k] < free[m] { m := k; }
      }
      assert free[..free.Length] == free[..];
      ghost var before := free[..];
      var end := Release(g, free[m], jobs[j]);
      spans := spans + [Span(free[m], end)];
      free[m] := end;
      assert free[..] == before[m := end];
      assert jobs[j..][1..] == jobs[j + 1..];
    }
  }
}
