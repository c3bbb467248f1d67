/** The concurrency gate of scrape_mcp_server.py with the teardown wait of _browser.py: when the
    fetches of one batch start and let their slots go. */
module ScrapeGate {
  import opened ScrapeBudget

  const CLOSE_DEADLINE: real := 15.0

  /** How long a fetch would run if nobody cut it short, and how long its browser takes to close. */
  datatype Fetch = Fetch(fetching: real, closing: real)

  datatype Span = Span(start: real, end: real)

  /** A gate of some slots; the bound on one fetch, the longest close wait, the call's deadline. */
  datatype Gate = Gate(slots: nat, bound: real, closeWait: real, deadline: real)

  predicate Sound(g: Gate) { g.slots > 0 && g.bound > 0.0 && g.closeWait >= 0.0 }

  /** Fast mode has no browser to close. */
  function GateOf(mode: Mode, timeout: real): Gate {
    Gate(Slots(mode), FetchBound(mode, timeout), if mode.Fast? then 0.0 else CLOSE_DEADLINE, CALL_BUDGET)
  }

  function Min(a: real, b: real): real { if a <= b then a else b }

  function Max(a: real, b: real): real { if a >= b then a else b }

  /** The wait for a close that begins now, out of what is left of the call. */
  function CloseWait(g: Gate, now: real): real { Max(0.0, Min(g.closeWait, g.deadline - now)) }

  /** When a fetch lets its slot go: one that ends in time closes within its own bound, one cancelled
      at the bound adds its close wait. */
  function Release(g: Gate, start: real, f: Fetch): real {
    if f.fetching <= g.bound
    then Min(start + g.bound, start + f.fetching + Min(f.closing, CloseWait(g, start + f.fetching)))
    else start + g.bound + Min(f.closing, CloseWait(g, start + g.bound))
  }

  /** The latest a fetch that starts at t can let go. */
  function Latest(g: Gate, t: real): real { Max(t + g.bound, Min(t + g.bound + g.closeWait, g.deadline)) }

  predicate Nonnegative(jobs: seq<Fetch>) {
    forall j :: 0 <= j < |jobs| ==> jobs[j].fetching >= 0.0 && jobs[j].closing >= 0.0
  }

  lemma {:induction false} ReleaseIsBounded(g: Gate, t: real, f: Fetch)
    requires Sound(g) && f.fetching >= 0.0 && f.closing >= 0.0
    ensures t <= Release(g, t, f) <= Latest(g, t)
    ensures f.fetching <= g.bound ==> Release(g, t, f) <= t + g.bound
  {
  }

  // ----- first come, first served -----

  /** The slot that frees first. */
  function Soonest(free: seq<real>): (m: nat)
    requires free != []
    ensures m < |free| && forall k :: 0 <= k < |free| ==> free[m] <= free[k]
  {
    if |free| == 1 then 0
    else
      var m := Soonest(free[..|free| - 1]);
      if free[m] <= free[|free| - 1] then m else |free| - 1
  }

  /** Waiting fetches take the slots as they free up, in the order they came. */
  function Schedule(g: Gate, free: seq<real>, jobs: seq<Fetch>): (spans: seq<Span>)
    requires free != []
    ensures |spans| == |jobs|
    decreases |jobs|
  {
    if jobs == [] then []
    else
      var m := Soonest(free);
      var span := Span(free[m], Release(g, free[m], jobs[0]));
      [span] + Schedule(g, free[m := span.end], jobs[1..])
  }

  /** The batch of one call: every slot is free when it starts. */
  function Batch(g: Gate, jobs: seq<Fetch>): (spans: seq<Span>)
    requires Sound(g)
    ensures |spans| == |jobs|
  {
    Schedule(g, seq(g.slots, _ => 0.0), jobs)
  }

  /** x taken k times. */
  function Times(k: nat, x: real): real { if k == 0 then 0.0 else Times(k - 1, x) + x }

  lemma {:induction false} OneMore(y: real, x: real)
    ensures (y + 1.0) * x == y * x + x
  {
  }

  lemma {:induction false} TimesMultiplies(k: nat, x: real)
    ensures Times(k, x) == k as real * x
  {
    if k == 0 {
    } else {
      TimesMultiplies(k - 1, x);
      OneMore((k - 1) as real, x);
    }
  }

  // ----- waves -----

  /** When wave k can have ended at the latest: each wave starts where the last one may have ended. */
  function Wave(g: Gate, k: nat): real { if k == 0 then 0.0 else Latest(g, Wave(g, k - 1)) }

  function Below(free: seq<real>, t: real): nat {
    if free == [] then 0 else Below(free[..|free| - 1], t) + if free[|free| - 1] <= t then 1 else 0
  }

  lemma {:induction false} TakingOneSlot(free: seq<real>, m: nat, x: real, t: real)
    requires m < |free|
    ensures Below(free[m := x], t) == Below(free, t) - (if free[m] <= t then 1 else 0) + (if x <= t then 1 else 0)
    decreases |free|
  {
    var n := |free| - 1;
    if m < n {
      TakingOneSlot(free[..n], m, x, t);
      assert free[m := x][..n] == free[..n][m := x];
    } else {
      assert free[m := x][..n] == free[..n];
    }
  }

  lemma {:induction false} SomeSlotBelow(free: seq<real>, t: real)
    requires free != [] && Below(free, t) > 0
    ensures free[Soonest(free)] <= t
    decreases |free|
  {
    var n := |free| - 1;
    if free[n] > t {
      SomeSlotBelow(free[..n], t);
      assert free[Soonest(free)] <= free[..n][Soonest(free[..n])];
    }
  }

  lemma {:induction false} AllSlotsBelow(free: seq<real>, t: real)
    ensures (forall k :: 0 <= k < |free| ==> free[k] <= t) <==> Below(free, t) == |free|
    ensures Below(free, t) <= |free|
    decreases |free|
  {
    if free == [] {
    } else {
      var n := |free| - 1;
      AllSlotsBelow(free[..n], t);
      assert forall k :: 0 <= k < n ==> free[..n][k] == free[k];
      if Below(free, t) == |free| {
        forall k | 0 <= k < |free| ensures free[k] <= t { if k < n { assert free[..n][k] <= t; } }
      }
    }
  }

  /** With r slots of wave k taken: the others are free by its start, all by its end. */
  ghost predicate Filled(g: Gate, free: seq<real>, k: nat, r: nat) {
    && |free| == g.slots && r < g.slots
    && Below(free, Wave(g, k)) >= g.slots - r && Below(free, Wave(g, k + 1)) == g.slots
  }

  lemma {:induction false} LatestIsMonotone(g: Gate, s: real, t: real)
    requires Sound(g) && s <= t
    ensures Latest(g, s) <= Latest(g, t) && t < Latest(g, t)
  {
  }

  /** A fetch let go by gate g is let go within what h allows. */
  ghost predicate Within(g: Gate, h: Gate, f: Fetch) { forall t: real :: Release(g, t, f) <= Latest(h, t) }

  lemma {:induction false} NextIsFilled(g: Gate, h: Gate, free: seq<real>, k: nat, r: nat, f: Fetch)
    requires Sound(h) && Filled(h, free, k, r) && Within(g, h, f)
    ensures var m := Soonest(free);
            var free' := free[m := Release(g, free[m], f)];
            && free[m] <= Wave(h, k) && Release(g, free[m], f) <= Wave(h, k + 1)
            && if r + 1 == h.slots then Filled(h, free', k + 1, 0) else Filled(h, free', k, r + 1)
  {
    var m := Soonest(free);
    SomeSlotBelow(free, Wave(h, k));
    var x := Release(g, free[m], f);
    LatestIsMonotone(h, free[m], Wave(h, k));
    LatestIsMonotone(h, Wave(h, k), Wave(h, k));
    LatestIsMonotone(h, Wave(h, k + 1), Wave(h, k + 1));
    TakingOneSlot(free, m, x, Wave(h, k));
    TakingOneSlot(free, m, x, Wave(h, k + 1));
    AllSlotsBelow(free[m := x], Wave(h, k + 1));
    AllSlotsBelow(free[m := x], Wave(h, k + 2));
  }

  /** The wave of the j-th fetch from here, when r slots of wave k are taken. */
  function WaveOf(slots: nat, k: nat, r: nat, j: nat): nat
    requires slots > 0
  {
    k + (r + j) / slots
  }

  lemma {:induction false} ProductOrder(p: nat, q: nat, b: nat)
    ensures p > q ==> p * b >= (q + 1) * b
  {
  }

  lemma {:induction false} QuotientIs(a: nat, b: nat, q: nat, rest: nat)
    requires rest < b && a == q * b + rest
    ensures a / b == q
  {
    var p := a / b;
    assert a == p * b + a % b;
    ProductOrder(p, q, b);
    ProductOrder(q, p, b);
  }

  lemma {:induction false} WaveOfNext(slots: nat, k: nat, r: nat, j: nat)
    requires r < slots
    ensures j == 0 ==> WaveOf(slots, k, r, j) == k
    ensures j > 0 ==>
        WaveOf(slots, k, r, j) ==
        if r + 1 == slots then WaveOf(slots, k + 1, 0, j - 1) else WaveOf(slots, k, r + 1, j - 1)
  {
    if j == 0 {
      QuotientIs(r, slots, 0, r);
    } else if r + 1 == slots {
      var q := (j - 1) / slots;
      assert r + j == (q + 1) * slots + (j - 1) % slots;
      QuotientIs(r + j, slots, q + 1, (j - 1) % slots);
    }
  }

  lemma {:induction false} JobIsInItsWave(g: Gate, h: Gate, free: seq<real>, jobs: seq<Fetch>, k: nat, r: nat, j: nat)
    requires Sound(h) && Filled(h, free, k, r) && j < |jobs| && forall i :: 0 <= i < |jobs| ==> Within(g, h, jobs[i])
    ensures var wave := WaveOf(h.slots, k, r, j);
            Schedule(g, free, jobs)[j].start <= Wave(h, wave) && Schedule(g, free, jobs)[j].end <= Wave(h, wave + 1)
    decreases j
  {
    hide Within;
    NextIsFilled(g, h, free, k, r, jobs[0]);
    WaveOfNext(h.slots, k, r, j);
    var m := Soonest(free);
    var free' := free[m := Release(g, free[m], jobs[0])];
    hide Release, Wave, WaveOf;
    if j == 0 {
    } else {
      assert Schedule(g, free, jobs)[j] == Schedule(g, free', jobs[1..])[j - 1];
      hide Schedule;
      if r + 1 == h.slots {
        JobIsInItsWave(g, h, free', jobs[1..], k + 1, 0, j - 1);
      } else {
        JobIsInItsWave(g, h, free', jobs[1..], k, r + 1, j - 1);
      }
    }
  }

  lemma {:induction false} AllFree(n: nat, t: real)
    requires t >= 0.0
    ensures Below(seq(n, _ => 0.0), t) == n
  {
    AllSlotsBelow(seq(n, _ => 0.0), t);
  }

  lemma {:induction false} EachWithin(g: Gate, h: Gate, jobs: seq<Fetch>, j: nat)
    requires Sound(g) && Sound(h) && g.slots == h.slots && j < |jobs| && forall i :: 0 <= i < |jobs| ==>
        Within(g, h, jobs[i])
    ensures Batch(g, jobs)[j].start <= Wave(h, j / g.slots) && Batch(g, jobs)[j].end <= Wave(h, j / g.slots + 1)
  {
    LatestIsMonotone(h, 0.0, 0.0);
    assert Wave(h, 1) == Latest(h, Wave(h, 0));
    AllFree(g.slots, 0.0);
    AllFree(g.slots, Wave(h, 1));
    JobIsInItsWave(g, h, seq(g.slots, _ => 0.0), jobs, 0, 0, j);
    assert WaveOf(g.slots, 0, 0, j) == j / g.slots;
  }

  /** Fetch j of a batch starts by the end of wave j / slots, and lets go by the end of the next. */
  lemma {:induction false} EachFetchInItsWave(g: Gate, jobs: seq<Fetch>, j: nat)
    requires Sound(g) && Nonnegative(jobs) && j < |jobs|
    ensures Batch(g, jobs)[j].start <= Wave(g, j / g.slots) && Batch(g, jobs)[j].end <= Wave(g, j / g.slots + 1)
  {
    forall i | 0 <= i < |jobs| ensures Within(g, g, jobs[i]) {
      forall t: real ensures Release(g, t, jobs[i]) <= Latest(g, t) { ReleaseIsBounded(g, t, jobs[i]); }
    }
    EachWithin(g, g, jobs, j);
  }

  /** When no fetch is cancelled at its bound, the classical bound: fetch j starts within j / slots
      bounds, and lets go within one more. */
  lemma {:induction false} ListScheduling(g: Gate, jobs: seq<Fetch>, j: nat)
    requires Sound(g) && Nonnegative(jobs) && j < |jobs| && forall i :: 0 <= i < |jobs| ==> jobs[i].fetching <= g.bound
    ensures Batch(g, jobs)[j].start <= Times(j / g.slots, g.bound)
        && Batch(g, jobs)[j].end <= Times(j / g.slots + 1, g.bound)
  {
    var h := g.(closeWait := 0.0);
    forall i | 0 <= i < |jobs| ensures Within(g, h, jobs[i]) {
      forall t: real ensures Release(g, t, jobs[i]) <= Latest(h, t) { ReleaseIsBounded(g, t, jobs[i]); }
    }
    EachWithin(g, h, jobs, j);
    TightWaves(h, j / g.slots);
    TightWaves(h, j / g.slots + 1);
  }

  // ----- what the recurrence comes to -----

  lemma {:induction false} TightWaves(g: Gate, k: nat)
    requires Sound(g) && g.closeWait == 0.0
    ensures Wave(g, k) == Times(k, g.bound)
  {
    if k == 0 {
    } else {
      TightWaves(g, k - 1);
    }
  }

  lemma {:induction false} WavesAreNear(g: Gate, k: nat)
    requires Sound(g)
    ensures Min(Times(k, g.bound + g.closeWait), g.deadline) <= Wave(g, k) <= Times(k, g.bound + g.closeWait)
    ensures Wave(g, k) >= 0.0
  {
    if k == 0 {
    } else {
      WavesAreNear(g, k - 1);
    }
  }

  /** The recurrence keeps to the deadline for k waves exactly when k - 1 full waves, close waits and
      all, leave room for one more bound. */
  lemma {:induction false} DeadlineExactly(g: Gate, k: nat)
    requires Sound(g) && k > 0
    ensures Wave(g, k) <= g.deadline <==> Times(k - 1, g.bound + g.closeWait) + g.bound <= g.deadline
  {
    WavesAreNear(g, k - 1);
    assert Wave(g, k) == Latest(g, Wave(g, k - 1));
  }

  lemma {:induction false} WavesAscend(g: Gate, j: nat, k: nat)
    requires Sound(g) && j <= k
    ensures Wave(g, j) <= Wave(g, k)
    decreases k
  {
    if j < k {
      WavesAscend(g, j, k - 1);
      LatestIsMonotone(g, Wave(g, k - 1), Wave(g, k - 1));
    }
  }

  // ----- the worst batch -----

  /** A fetch that hangs until it is cancelled, in a browser that hangs until it is given up. */
  function Hanging(g: Gate): Fetch { Fetch(g.bound + 1.0, g.closeWait) }

  lemma {:induction false} HangingIsLatest(g: Gate, t: real)
    requires Sound(g)
    ensures Release(g, t, Hanging(g)) == Latest(g, t)
  {
  }

  /** Every slot stands at the start of wave k or at its end. */
  ghost predicate Lockstep(g: Gate, free: seq<real>, k: nat, r: nat) {
    && Filled(g, free, k, r) && Below(free, Wave(g, k)) == g.slots - r
    && forall i :: 0 <= i < |free| ==> free[i] == Wave(g, k) || free[i] == Wave(g, k + 1)
  }

  lemma {:induction false} HangingKeepsLockstep(g: Gate, free: seq<real>, k: nat, r: nat)
    requires Sound(g) && Lockstep(g, free, k, r)
    ensures var m := Soonest(free);
            var free' := free[m := Release(g, free[m], Hanging(g))];
            && free[m] == Wave(g, k)
            && if r + 1 == g.slots then Lockstep(g, free', k + 1, 0) else Lockstep(g, free', k, r + 1)
  {
    forall t: real ensures Release(g, t, Hanging(g)) <= Latest(g, t) { HangingIsLatest(g, t); }
    NextIsFilled(g, g, free, k, r, Hanging(g));
    var m := Soonest(free);
    LatestIsMonotone(g, Wave(g, k), Wave(g, k));
    var free' := free[m := Wave(g, k + 1)];
    TakingOneSlot(free, m, Wave(g, k + 1), Wave(g, k));
    assert Release(g, free[m], Hanging(g)) == Wave(g, k + 1);
    if r + 1 == g.slots {
      AllSlotsBelow(free', Wave(g, k + 1));
      NoneBelow(free', Wave(g, k), Wave(g, k + 1));
    }
  }

  lemma {:induction false} NoneBelow(free: seq<real>, t: real, u: real)
    requires t < u && Below(free, t) == 0 && forall i :: 0 <= i < |free| ==> free[i] == t || free[i] == u
    ensures forall i :: 0 <= i < |free| ==> free[i] == u
    decreases |free|
  {
    if free == [] {
    } else {
      var n := |free| - 1;
      assert forall i :: 0 <= i < n ==> free[..n][i] == free[i];
      NoneBelow(free[..n], t, u);
      forall i | 0 <= i < |free| ensures free[i] == u { if i < n { assert free[..n][i] == u; } }
    }
  }

  lemma {:induction false} HangingTakesAllOfItsWave(g: Gate, free: seq<real>, n: nat, k: nat, r: nat, j: nat)
    requires Sound(g) && Lockstep(g, free, k, r) && j < n
    ensures Schedule(g, free, seq(n, _ => Hanging(g)))[j].end == Wave(g, WaveOf(g.slots, k, r, j) + 1)
    decreases j
  {
    var jobs := seq(n, _ => Hanging(g));
    HangingKeepsLockstep(g, free, k, r);
    WaveOfNext(g.slots, k, r, j);
    var m := Soonest(free);
    HangingIsLatest(g, free[m]);
    var free' := free[m := Release(g, free[m], jobs[0])];
    hide Release, WaveOf, Lockstep;
    if j == 0 {
    } else {
      assert jobs[1..] == seq(n - 1, _ => Hanging(g));
      assert Schedule(g, free, jobs)[j] == Schedule(g, free', jobs[1..])[j - 1];
      hide Schedule, Wave;
      if r + 1 == g.slots {
        HangingTakesAllOfItsWave(g, free', n - 1, k + 1, 0, j - 1);
      } else {
        HangingTakesAllOfItsWave(g, free', n - 1, k, r + 1, j - 1);
      }
    }
  }

  /** The bound is met: in a batch of hanging fetches, each takes all of its wave. */
  lemma {:induction false} WavesAreReached(g: Gate, n: nat, j: nat)
    requires Sound(g) && j < n
    ensures Batch(g, seq(n, _ => Hanging(g)))[j].end == Wave(g, j / g.slots + 1)
  {
    LatestIsMonotone(g, 0.0, 0.0);
    assert Wave(g, 1) == Latest(g, Wave(g, 0));
    AllFree(g.slots, 0.0);
    AllFree(g.slots, Wave(g, 1));
    HangingTakesAllOfItsWave(g, seq(g.slots, _ => 0.0), n, 0, 0, j);
    assert WaveOf(g.slots, 0, 0, j) == j / g.slots;
  }
}
