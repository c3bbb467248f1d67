/** What the gate does at every moment of a batch: never more fetches than slots, never a slot idle while
    a fetch waits, and a slot held no longer than its fetch and its browser need. */
module ScrapeOrder {
  import opened ScrapeBudget
  import opened ScrapeGate

  // ----- one slot -----

  /** A slot is held while its fetch runs, up to the bound, and from then on at most until its browser
      has closed: exactly until then where the close ends within the bound, its wait and the call. */
  lemma {:induction false} SlotHeldExactly(g: Gate, start: real, f: Fetch)
    requires Sound(g) && f.fetching >= 0.0 && f.closing >= 0.0
    ensures var over := start + (if f.fetching <= g.bound then f.fetching else g.bound);
            && over <= Release(g, start, f) <= over + f.closing
            && (f.closing <= g.closeWait && over + f.closing <= g.deadline
                && (f.fetching <= g.bound ==> f.fetching + f.closing <= g.bound)
                ==> Release(g, start, f) == over + f.closing)
  {
  }

  // ----- all slots -----

  /** How many of the first n fetches hold a slot at t. */
  function Running(spans: seq<Span>, n: nat, t: real): nat
    requires n <= |spans|
  {
    if n == 0 then 0 else Running(spans, n - 1, t) + if spans[n - 1].start <= t < spans[n - 1].end then 1 else 0
  }

  lemma {:induction false} RunningShifted(first: Span, rest: seq<Span>, n: nat, t: real)
    requires n <= |rest|
    ensures Running([first] + rest, n + 1, t) == Running(rest, n, t) + if first.start <= t < first.end then 1 else 0
  {
    if n == 0 {
    } else {
      RunningShifted(first, rest, n - 1, t);
    }
  }

  lemma {:induction false} NoneFree(free: seq<real>, t: real)
    requires forall k :: 0 <= k < |free| ==> free[k] > t
    ensures Below(free, t) == 0
    decreases |free|
  {
    if free == [] {
    } else {
      assert forall k :: 0 <= k < |free| - 1 ==> free[..|free| - 1][k] == free[k];
      NoneFree(free[..|free| - 1], t);
    }
  }

  /** The fetches running at t took slots that were free by then; all of those while a fetch waits. */
  lemma {:induction false} RunningFillsFree(g: Gate, free: seq<real>, jobs: seq<Fetch>, n: nat, t: real)
    requires Sound(g) && Nonnegative(jobs) && free != [] && n <= |jobs|
    ensures Running(Schedule(g, free, jobs), n, t) <= Below(free, t)
    ensures n < |jobs| && t < Schedule(g, free, jobs)[n].start ==>
        Running(Schedule(g, free, jobs), n, t) == Below(free, t)
    decreases n
  {
    hide Release, Soonest;
    if jobs == [] {
    } else {
      var m := Soonest(free);
      ReleaseIsBounded(g, free[m], jobs[0]);
      if free[m] > t { NoneFree(free, t); }
      if n == 0 {
      } else {
        var end := Release(g, free[m], jobs[0]);
        var rest := Schedule(g, free[m := end], jobs[1..]);
        RunningFillsFree(g, free[m := end], jobs[1..], n - 1, t);
        TakingOneSlot(free, m, end, t);
        assert Schedule(g, free, jobs) == [Span(free[m], end)] + rest;
        RunningShifted(Span(free[m], end), rest, n - 1, t);
      }
    }
  }

  /** At no moment do more fetches run than there are slots. */
  lemma {:induction false} NeverMoreThanSlots(g: Gate, jobs: seq<Fetch>, t: real)
    requires Sound(g) && Nonnegative(jobs)
    ensures Running(Batch(g, jobs), |jobs|, t) <= g.slots
  {
    var free := seq(g.slots, _ => 0.0);
    RunningFillsFree(g, free, jobs, |jobs|, t);
    AllSlotsBelow(free, t);
  }

  /** While a fetch waits, every slot is held by one that came before it: it starts the moment one frees. */
  lemma {:induction false} NoSlotIdles(g: Gate, jobs: seq<Fetch>, j: nat, t: real)
    requires Sound(g) && Nonnegative(jobs) && j < |jobs| && 0.0 <= t < Batch(g, jobs)[j].start
    ensures Running(Batch(g, jobs), j, t) == g.slots
  {
    var free := seq(g.slots, _ => 0.0);
    RunningFillsFree(g, free, jobs, j, t);
    AllFree(g.slots, t);
  }

  /** No slot is taken before the batch starts, and none out of turn. */
  lemma {:induction false} StartsFollow(g: Gate, free: seq<real>, jobs: seq<Fetch>, i: nat, j: nat, low: real)
    requires Sound(g) && free != [] && Nonnegative(jobs) && i <= j < |jobs|
    requires forall k :: 0 <= k < |free| ==> low <= free[k]
    ensures low <= Schedule(g, free, jobs)[i].start <= Schedule(g, free, jobs)[j].start
    decreases j
  {
    var m := Soonest(free);
    var end := Release(g, free[m], jobs[0]);
    ReleaseIsBounded(g, free[m], jobs[0]);
    hide Release, Soonest;
    var free' := free[m := end];
    if j == 0 {
    } else if i == 0 {
      StartsFollow(g, free', jobs[1..], j - 1, j - 1, free[m]);
    } else {
      StartsFollow(g, free', jobs[1..], i - 1, j - 1, low);
    }
  }

  /** Fetches start in the order of the batch. */
  lemma {:induction false} StartsInOrder(g: Gate, jobs: seq<Fetch>, i: nat, j: nat)
    requires Sound(g) && Nonnegative(jobs) && i <= j < |jobs|
    ensures 0.0 <= Batch(g, jobs)[i].start <= Batch(g, jobs)[j].start
  {
    StartsFollow(g, seq(g.slots, _ => 0.0), jobs, i, j, 0.0);
  }
}
