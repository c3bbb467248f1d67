/** What every interleaving of failures, navigations, probes and retries gives an outage window. */
module OutageRuns {
  import opened Options
  import opened Outage
  import Pigeonhole

  // ----- a run only adds -----

  /** Generations rise; probes, timers and effects keep their places. */
  ghost predicate Grown(a: Window, b: Window) {
    && a.generation <= b.generation && |a.portals| <= |b.portals| && |a.reloads| <= |b.reloads|
        && |a.silents| <= |b.silents|
    && (forall i :: 0 <= i < |a.portals| ==> b.portals[i].since == a.portals[i].since)
    && (forall i :: 0 <= i < |a.reloads| ==> b.reloads[i].since == a.reloads[i].since)
    && (forall i :: 0 <= i < |a.silents| ==> b.silents[i].since == a.silents[i].since)
    && a.effects <= b.effects && (a.destroyed ==> b.destroyed)
  }

  lemma {:induction false} ShowGrows(w: Window, target: string, status: Option<int>, online: bool)
    ensures Grown(w, Show(w, target, status, online))
  {
  }

  lemma {:induction false} ReloadProbeGrows(w: Window, i: nat, ok: bool, status: Option<int>, online: bool)
    requires i < |w.reloads|
    ensures Grown(w, AfterReloadProbe(w, i, ok, status, online))
  {
    ShowGrows(w.(reloads := w.reloads[i := w.reloads[i].(answered := true)]), w.reloads[i].url, status, online);
    hide Show;
  }

  lemma {:induction false} StepGrows(w: Window, e: Event)
    requires Possible(w, e)
    ensures Grown(w, Step(w, e))
  {
    hide Show, AfterReloadProbe;
    match e
    case FailLoad(_, target, _, online) => ShowGrows(w, target, None, online);
    case Navigated(target, status, online) => ShowGrows(w, target, status, online);
    case ReloadAnswer(i, ok, status, online) => ReloadProbeGrows(w, i, ok, status, online);
    case _ =>
  }

  lemma {:induction false} RunGrows(from: Window, events: seq<Event>, to: Window)
    requires Run(from, events, to)
    ensures Grown(from, to)
    decreases |events|
  {
    if events == [] {
    } else {
      StepGrows(from, events[0]);
      RunGrows(Step(from, events[0]), events[1..], to);
    }
  }

  // ----- stale work -----

  /** Nothing the window shows, holds or has out changes, and the claim of the outage it is on stays. */
  ghost predicate StoodDown(w: Window, w': Window) {
    && w'.effects == w.effects && w'.showing == w.showing && w'.url == w.url && w'.reason == w.reason
    && w'.generation == w.generation && w'.retried == w.retried
    && |w'.portals| == |w.portals| && |w'.reloads| == |w.reloads| && |w'.silents| == |w.silents|
    && (w.probing == Some(w.generation) ==> w'.probing == w.probing)
  }

  /** Work begun in an earlier generation changes nothing but its own bookkeeping. */
  lemma {:induction false} OldWorkStandsDown(a: Window, b: Window)
    requires Inv(a) && Grown(a, b) && a.generation < b.generation
    ensures forall i: nat, portal, online :: i < |a.portals| ==> StoodDown(b, AfterPortal(b, i, portal, online))
    ensures forall i: nat, ok, status, online :: i < |a.reloads| ==>
        StoodDown(b, AfterReloadProbe(b, i, ok, status, online))
    ensures forall i: nat :: i < |a.silents| ==> StoodDown(b, OnSilentFires(b, i))
  {
    forall i: nat, portal, online | i < |a.portals| ensures StoodDown(b, AfterPortal(b, i, portal, online)) {
      assert b.portals[i].since <= a.generation;
    }
    forall i: nat, ok, status, online | i < |a.reloads|
      ensures StoodDown(b, AfterReloadProbe(b, i, ok, status, online)) {
      assert b.reloads[i].since <= a.generation;
    }
    forall i: nat | i < |a.silents| ensures StoodDown(b, OnSilentFires(b, i)) {
      assert b.silents[i].since <= a.generation;
    }
  }

  /** Once the main frame has set off for a real page, no probe or timer begun before that can paint,
      navigate, start another probe, or release the claim of a later outage, however late it comes. */
  lemma {:induction false} WorkBegunBeforeANavigationNeverLands(
    early: seq<Event>, a: Window, between: seq<Event>, m: Window, target: string, after: seq<Event>, b: Window)
    requires Run(FRESH, early, a) && Run(a, between, m)
    requires target != "" && !IsFile(target)
    requires Run(Step(m, StartNavigation(target, true)), after, b)
    ensures |a.portals| <= |b.portals| && |a.reloads| <= |b.reloads| && |a.silents| <= |b.silents|
    ensures forall i: nat, portal, online :: i < |a.portals| ==> StoodDown(b, AfterPortal(b, i, portal, online))
    ensures forall i: nat, ok, status, online :: i < |a.reloads| ==>
        StoodDown(b, AfterReloadProbe(b, i, ok, status, online))
    ensures forall i: nat :: i < |a.silents| ==> StoodDown(b, OnSilentFires(b, i))
  {
    EveryRunKeepsInv(FRESH, early, a);
    RunGrows(a, between, m);
    StepGrows(m, StartNavigation(target, true));
    RunGrows(Step(m, StartNavigation(target, true)), after, b);
    OldWorkStandsDown(a, b);
  }

  /** Whatever reached the window landed in the generation it was begun for. */
  lemma {:induction false} NothingStaleLands(events: seq<Event>, w: Window, k: nat)
    requires Run(FRESH, events, w) && k < |w.effects|
    ensures w.effects[k].begun == w.effects[k].landed <= w.generation
  {
    EveryRunKeepsInv(FRESH, events, w);
  }

  /** One portal probe at a time for each generation. */
  lemma {:induction false} OneProbePerGeneration(events: seq<Event>, w: Window, i: nat, j: nat)
    requires Run(FRESH, events, w) && Out(w, i) && Out(w, j) && w.portals[i].since == w.portals[j].since
    ensures i == j
  {
    EveryRunKeepsInv(FRESH, events, w);
  }

  /** A retry that goes through is the last thing its generation sees. */
  lemma {:induction false} OneReloadPerGeneration(events: seq<Event>, w: Window, k: nat, l: nat)
    requires Run(FRESH, events, w) && k < l < |w.effects| && w.effects[k].Reloaded?
    ensures w.effects[k].landed < w.effects[l].landed
  {
    EveryRunKeepsInv(FRESH, events, w);
  }

  lemma {:induction false} NothingLandsOnADestroyedWindow(from: Window, events: seq<Event>, to: Window)
    requires from.destroyed && Run(from, events, to)
    ensures to.destroyed && to.effects == from.effects
    decreases |events|
  {
    if events == [] {
    } else {
      NothingLandsOnADestroyedWindow(Step(from, events[0]), events[1..], to);
    }
  }

  // ----- every outage gets its page -----

  /** The page is up for exactly what the record says, or the probe that will put it up is out and
      answers within two seconds. */
  ghost predicate Served(w: Window) {
    PaintedNow(w) || exists i ::
        Out(w, i) && w.portals[i].since == w.generation && w.portals[i].url == w.url
        && w.portals[i].due <= w.now + 2000
  }

  lemma {:induction false} ServedWhileShowing(w: Window)
    requires Inv(w) && w.showing && !w.destroyed
    ensures Served(w)
  {
    if !PaintedNow(w) {
      var i :| Out(w, i) && w.portals[i].since == w.generation;
    }
  }

  lemma {:induction false} EveryOutageIsServed(events: seq<Event>, w: Window)
    requires Run(FRESH, events, w) && w.showing && !w.destroyed
    ensures Served(w)
  {
    EveryRunKeepsInv(FRESH, events, w);
    ServedWhileShowing(w);
  }

  lemma {:induction false} FreshIsSafe()
    ensures Inv(FRESH)
  {
  }

  lemma {:induction false} ClaimMeansShowing(w: Window)
    requires Inv(w) && w.probing == Some(w.generation)
    ensures w.showing
  {
    var i :| Out(w, i) && w.portals[i].since == w.generation;
  }

  /** Every main-frame failure but an aborted load, a file and a transient one's first, gets the page,
      even while the probe of an outage the window has left is still out. */
  lemma {:induction false} EveryFailureIsServed(events: seq<Event>, w: Window, code: int, target: string, online: bool)
    requires Run(FRESH, events, w) && !w.destroyed
    requires code != -3 && target != "" && !("file://" <= target) && !(code == -21 && !w.retried)
    ensures var w' := Step(w, FailLoad(code, target, true, online)); w'.showing && Served(w')
  {
    hide Inv, Served, Run;
    FreshIsSafe();
    EveryRunKeepsInv(FRESH, events, w);
    StepKeepsInv(w, FailLoad(code, target, true, online));
    if w.probing == Some(w.generation) { ClaimMeansShowing(w); }
    ServedWhileShowing(Step(w, FailLoad(code, target, true, online)));
  }

  /** A page blames a portal only on a portal's answer to a machine that is online, the server only for
      a 5xx, and the machine only when it is offline. */
  lemma {:induction false} ReasonsAreEarned(w: Window, e: Event)
    requires Possible(w, e) && |Step(w, e).effects| > |w.effects| && Step(w, e).effects[|w.effects|].Painted?
    ensures var why := Step(w, e).effects[|w.effects|].reason;
            && (why == CaptivePortal <==> e.PortalAnswer? && e.portal && e.online)
            && (why == ServerError <==> (e.Navigated? || e.ReloadAnswer?) && e.status.Some? && e.status.value >= 500)
            && (why == Offline <==> !e.online && why != ServerError)
            && (why == Unreachable <==> e.PortalAnswer? && !e.portal && e.online)
  {
  }

  // ----- the silent retry -----

  function Spent(w: Window): int { |w.silents| - if w.retried then 1 else 0 }

  /** Until a load completes, at most one silent retry is armed, and none when the budget is spent. */
  lemma {:induction false} OneSilentRetryBetweenLoads(from: Window, events: seq<Event>, to: Window)
    requires Run(from, events, to) && FinishLoad !in events
    ensures |to.silents| <= |from.silents| + (if from.retried then 0 else 1)
    ensures Spent(to) == Spent(from) && (from.retried ==> to.retried)
    decreases |events|
  {
    if events == [] {
    } else {
      assert events[0] in events;
      OneSilentRetryBetweenLoads(Step(from, events[0]), events[1..], to);
    }
  }

  /** A load that completes gives the retry back: the next transient failure is retried in silence a
      second later, at its own address and in its own generation, and shows nothing. */
  lemma {:induction false} CompletedLoadReturnsTheRetry(w: Window, code: int, target: string, online: bool)
    requires code == -21 && !("file://" <= target)
    ensures var after := Step(Step(w, FinishLoad), FailLoad(code, target, true, online));
            && after.silents == w.silents + [SilentRetry(w.now + 1000, w.generation, target, false)]
            && after.effects == w.effects && after.showing == w.showing
            && Step(after, FailLoad(code, target, true, online)) == Show(after, target, None, online)
  {
  }

  function SilentReloads(effects: seq<Effect>): nat {
    if effects == [] then 0
    else SilentReloads(effects[..|effects| - 1]) + if effects[|effects| - 1].SilentlyReloaded? then 1 else 0
  }

  function Timers(effects: seq<Effect>): set<nat> {
    set k | 0 <= k < |effects| && effects[k].SilentlyReloaded? :: effects[k].timer
  }

  lemma {:induction false} DistinctTimersCount(effects: seq<Effect>)
    requires forall k, l :: 0 <= k < l < |effects| && effects[k].SilentlyReloaded? && effects[l].SilentlyReloaded? ==>
        effects[k].timer != effects[l].timer
    ensures SilentReloads(effects) == |Timers(effects)|
    decreases |effects|
  {
    if effects == [] {
    } else {
      var n := |effects| - 1;
      DistinctTimersCount(effects[..n]);
      assert Timers(effects) == Timers(effects[..n]) + if effects[n].SilentlyReloaded? then {effects[n].timer} else {};
    }
  }

  lemma {:induction false} NumbersBelow(s: set<nat>, n: nat)
    requires forall t :: t in s ==> t < n
    ensures |s| <= n
  {
    if n == 0 {
      assert s == {};
    } else {
      NumbersBelow(s - {n - 1}, n - 1);
    }
  }

  /** Silent reloads never outnumber completed loads by more than one. */
  lemma {:induction false} SilentReloadsAreBudgeted(events: seq<Event>, w: Window)
    requires Run(FRESH, events, w)
    ensures SilentReloads(w.effects) <= w.loads + 1
  {
    EveryRunKeepsInv(FRESH, events, w);
    assert BudgetOk(w);
    DistinctTimersCount(w.effects);
    NumbersBelow(Timers(w.effects), |w.silents|);
  }

  // ----- Retry -----

  /** Probes that are out keep their url and who asked. */
  lemma {:induction false} StepKeepsAsked(w: Window, e: Event, i: nat)
    requires Possible(w, e) && i < |w.reloads|
    ensures var w' := Step(w, e);
            && i < |w'.reloads| && w'.reloads[i].(answered := w.reloads[i].answered) == w.reloads[i]
            && (!e.ReloadAnswer? || e.i != i ==> w'.reloads[i] == w.reloads[i])
  {
  }

  lemma {:induction false} RunKeepsAsked(from: Window, events: seq<Event>, to: Window, i: nat)
    requires Run(from, events, to) && i < |from.reloads|
    ensures i < |to.reloads| && to.reloads[i].(answered := from.reloads[i].answered) == from.reloads[i]
    ensures (forall e :: e in events && e.ReloadAnswer? ==> e.i != i) ==> to.reloads[i] == from.reloads[i]
    decreases |events|
  {
    if events == [] {
    } else {
      assert events[0] in events;
      StepKeepsAsked(from, events[0], i);
      hide Step, Possible;
      RunKeepsAsked(Step(from, events[0]), events[1..], to, i);
    }
  }

  /** Retry asked for while the page shows: its answer, whatever came between, reloads the page that
      was up when it was asked exactly when the answer is good and the window has not moved on. */
  lemma {:induction false} RetryReloadsExactly(
    w: Window, fromMenu: bool, between: seq<Event>, m: Window, ok: bool, status: Option<int>, online: bool)
    requires w.showing && !w.destroyed && Run(Step(w, AskReload(fromMenu)), between, m)
    requires forall e :: e in between && e.ReloadAnswer? ==> e.i != |w.reloads|
    ensures Possible(m, ReloadAnswer(|w.reloads|, ok, status, online))
    ensures var m' := Step(m, ReloadAnswer(|w.reloads|, ok, status, online));
            && (m'.effects == m.effects + [Reloaded(w.generation, w.generation, w.url)] <==>
                ok && (status.None? || status.value < 500) && m.generation == w.generation && !m.destroyed)
            && forall url :: url != w.url ==> Reloaded(w.generation, w.generation, url) !in m'.effects[|m.effects|..]
  {
    var w1 := Step(w, AskReload(fromMenu));
    RunKeepsAsked(w1, between, m, |w.reloads|);
    hide Run;
    assert w1.reloads[|w.reloads|] == RetryProbe(w.generation, w.url, fromMenu, false);
  }

  // ----- silent reloads that land between two loads -----

  /** Silent retries that could still land: armed in this generation, while no page shows. */
  function Armed(w: Window): set<nat> {
    set i: nat | i < |w.silents| && !w.silents[i].fired && !MovedOn(w, w.silents[i].since) && !w.showing
  }

  /** How many silent reloads can still land before a load completes: those armed, and one more unless
      the budget is spent or the window gone. */
  function CanLand(w: Window): nat { |Armed(w)| + if w.retried || w.destroyed then 0 else 1 }

  lemma {:induction false} OneMoreEffect(effects: seq<Effect>, e: Effect)
    ensures SilentReloads(effects + [e]) == SilentReloads(effects) + if e.SilentlyReloaded? then 1 else 0
  {
    assert (effects + [e])[..|effects|] == effects;
  }

  /** What a step that is neither the arming nor the firing of a silent retry does to the count. */
  ghost predicate Quiet(a: Window, b: Window) {
    && b.silents == a.silents && a.retried == b.retried && a.generation <= b.generation
    && (a.destroyed ==> b.destroyed) && (a.showing ==> b.showing || a.generation < b.generation)
    && (b.effects == a.effects || exists e :: b.effects == a.effects + [e] && !e.SilentlyReloaded?)
  }

  lemma {:induction false} QuietStep(w: Window, e: Event)
    requires Possible(w, e) && !e.SilentFires? && !e.FinishLoad?
    ensures Quiet(w, Step(w, e))
        || (e.FailLoad? && !w.retried &&
            Step(w, e) == w.(retried := true, silents := Step(w, e).silents) &&
            Step(w, e).silents ==
            w.silents + [SilentRetry(w.now + SILENT_RETRY_DELAY, w.generation, e.target, false)])
  {
    var w' := Step(w, e);
    if |w'.effects| > |w.effects| { assert w'.effects == w.effects + [w'.effects[|w.effects|]]; }
  }

  lemma {:induction false} QuietCanLandNoMore(a: Window, b: Window)
    requires WaitingOk(a) && Quiet(a, b)
    ensures SilentReloads(b.effects) == SilentReloads(a.effects) && CanLand(b) <= CanLand(a)
  {
    if b.effects != a.effects {
      var e :| b.effects == a.effects + [e] && !e.SilentlyReloaded?;
      OneMoreEffect(a.effects, e);
    }
    assert Armed(b) <= Armed(a);
    Pigeonhole.SubsetSize(Armed(b), Armed(a));
  }

  lemma {:induction false} ArmingSpends(a: Window, b: Window, t: SilentRetry)
    requires b == a.(retried := true, silents := a.silents + [t]) && !a.retried
    ensures CanLand(b) <= CanLand(a)
  {
    assert Armed(b) <= Armed(a) + {|a.silents|};
    Pigeonhole.SubsetSize(Armed(b), Armed(a) + {|a.silents|});
    Pigeonhole.UnionSize(Armed(a), {|a.silents|});
  }

  lemma {:induction false} FiredIsNotArmed(w: Window, i: nat)
    requires Possible(w, SilentFires(i))
    ensures var w' := OnSilentFires(w, i);
            && Armed(w') <= Armed(w) && i !in Armed(w') && w'.retried == w.retried
            && (w'.effects == w.effects
                || (i in Armed(w) && w'.effects ==
                    w.effects + [SilentlyReloaded(w.silents[i].since, w.generation, w.silents[i].url, i)]))
  {
  }

  lemma {:induction false} FiringLands(w: Window, i: nat)
    requires Possible(w, SilentFires(i))
    ensures var w' := OnSilentFires(w, i);
            SilentReloads(w'.effects) + CanLand(w') <= SilentReloads(w.effects) + CanLand(w)
  {
    FiredIsNotArmed(w, i);
    hide OnSilentFires, Armed, SilentReloads;
    var w' := OnSilentFires(w, i);
    if w'.effects == w.effects {
      Pigeonhole.SubsetSize(Armed(w'), Armed(w));
    } else {
      OneMoreEffect(w.effects, SilentlyReloaded(w.silents[i].since, w.generation, w.silents[i].url, i));
      Pigeonhole.SubsetSize(Armed(w'), Armed(w) - {i});
    }
  }

  /** Until a load completes, no more silent reloads land than could at the start. */
  lemma {:induction false} LandingsBetweenLoads(from: Window, events: seq<Event>, to: Window)
    requires Inv(from) && Run(from, events, to) && FinishLoad !in events
    ensures SilentReloads(to.effects) + CanLand(to) <= SilentReloads(from.effects) + CanLand(from)
    decreases |events|
  {
    hide CanLand, SilentReloads, Quiet, Step;
    if events == [] {
    } else {
      var e, mid := events[0], Step(from, events[0]);
      assert e in events;
      StepKeepsInv(from, e);
      if e.SilentFires? {
        assert mid == OnSilentFires(from, e.i) by { SilentStep(from, e.i); }
        FiringLands(from, e.i);
      } else {
        QuietStep(from, e);
        if Quiet(from, mid) {
          QuietCanLandNoMore(from, mid);
        } else {
          ArmingSpends(from, mid, SilentRetry(from.now + SILENT_RETRY_DELAY, from.generation, e.target, false));
        }
      }
      hide Inv, Possible;
      LandingsBetweenLoads(mid, events[1..], to);
    }
  }

  lemma {:induction false} RunOn(from: Window, e: Event, rest: seq<Event>, to: Window) returns (events: seq<Event>)
    requires Possible(from, e) && Run(Step(from, e), rest, to) && !e.FinishLoad? && FinishLoad !in rest
    ensures Run(from, events, to) && FinishLoad !in events
  {
    events := [e] + rest;
    assert events[1..] == rest;
  }

  function Outstanding(w: Window): set<nat> { set i: nat | i < |w.portals| && Out(w, i) }

  /** The clock can move on at will once no probe is out. */
  lemma {:induction false} Wait(w: Window, ms: nat)
    requires Inv(w) && Outstanding(w) == {}
    ensures Possible(w, Tick(ms))
    ensures var w' := Step(w, Tick(ms));
            && Inv(w') && w' == w.(now := w.now + ms) && Armed(w') == Armed(w) && Outstanding(w') == Outstanding(w)
  {
    assert forall j: nat :: j < |w.portals| && !w.portals[j].answered ==> j in Outstanding(w);
    StepKeepsInv(w, Tick(ms));
    hide Inv;
  }

  /** An armed retry that is due lands. */
  lemma {:induction false} FireArmed(w: Window, i: nat)
    requires Inv(w) && i in Armed(w) && w.silents[i].due <= w.now
    ensures Possible(w, SilentFires(i))
    ensures var w' := Step(w, SilentFires(i));
            && Inv(w') && !w'.showing && w'.retried == w.retried && w'.destroyed == w.destroyed
            && Armed(w') == Armed(w) - {i} && Outstanding(w') == Outstanding(w)
            && SilentReloads(w'.effects) == SilentReloads(w.effects) + 1
  {
    hide Inv, SilentReloads;
    OneMoreEffect(w.effects, SilentlyReloaded(w.silents[i].since, w.generation, w.silents[i].url, i));
    StepKeepsInv(w, SilentFires(i));
  }

  /** An answer to a probe of an outage left behind only takes that probe away. */
  lemma {:induction false} AnswerStale(w: Window, i: nat)
    requires Inv(w) && !w.showing && i in Outstanding(w)
    ensures Possible(w, PortalAnswer(i, false, true))
    ensures var w' := Step(w, PortalAnswer(i, false, true));
            && Inv(w') && w'.effects == w.effects && !w'.showing && w'.retried == w.retried
            && w'.destroyed == w.destroyed && Armed(w') == Armed(w) && Outstanding(w') == Outstanding(w) - {i}
  {
    StepKeepsInv(w, PortalAnswer(i, false, true));
    assert w.portals[i].since != w.generation;
    hide Inv;
  }

  lemma {:induction false} LeavePage(w: Window)
    requires Inv(w) && w.showing
    ensures var w' := Step(w, StartNavigation("https:", true));
            && Inv(w') && w'.effects == w.effects && !w'.showing && w'.retried == w.retried
            && w'.destroyed == w.destroyed && Armed(w') == Armed(w) == {}
  {
    StepKeepsInv(w, StartNavigation("https:", true));
    assert WaitingOk(w);
    hide Inv;
  }

  lemma {:induction false} ArmOne(w: Window)
    requires Inv(w) && !w.showing && !w.retried && !w.destroyed
    ensures var w' := Step(w, FailLoad(-21, "https:", true, true));
            && Inv(w') && w'.effects == w.effects && !w'.showing && w'.retried && !w'.destroyed
            && |Armed(w')| == |Armed(w)| + 1
  {
    StepKeepsInv(w, FailLoad(-21, "https:", true, true));
    assert Armed(Step(w, FailLoad(-21, "https:", true, true))) == Armed(w) + {|w.silents|};
    hide Inv;
  }

  /** As many silent reloads as can land do in some run, one after the other. */
  lemma {:induction false} AllCanLand(from: Window) returns (events: seq<Event>, to: Window)
    requires Inv(from)
    ensures Run(from, events, to) && FinishLoad !in events
    ensures SilentReloads(to.effects) == SilentReloads(from.effects) + CanLand(from)
    decreases from.showing, !from.retried, Outstanding(from), Armed(from)
  {
    hide Inv, Step, SilentReloads, Outstanding;
    if from.destroyed || (from.showing && from.retried) {
      events, to := [], from;
    } else if from.showing {
      LeavePage(from);
      events, to := AllCanLand(Step(from, StartNavigation("https:", true)));
      events := RunOn(from, StartNavigation("https:", true), events, to);
    } else if !from.retried {
      ArmOne(from);
      events, to := AllCanLand(Step(from, FailLoad(-21, "https:", true, true)));
      events := RunOn(from, FailLoad(-21, "https:", true, true), events, to);
    } else if i :| i in Outstanding(from) {
      AnswerStale(from, i);
      events, to := AllCanLand(Step(from, PortalAnswer(i, false, true)));
      events := RunOn(from, PortalAnswer(i, false, true), events, to);
    } else if i :| i in Armed(from) {
      var wait := Tick(from.silents[i].due);
      Wait(from, from.silents[i].due);
      var ready := Step(from, wait);
      FireArmed(ready, i);
      var next := Step(ready, SilentFires(i));
      assert Outstanding(next) == {};
      events, to := AllCanLand(next);
      events := RunOn(ready, SilentFires(i), events, to);
      events := RunOn(from, wait, events, to);
    } else {
      events, to := [], from;
    }
  }

  /** Whatever happens, at most k silent reloads land before a load completes exactly when no more than
      k can at the start: of those armed in the generation, and of the budget. */
  lemma {:induction false} LandingsExactly(from: Window, k: nat)
    requires Inv(from)
    ensures (forall events, to :: Run(from, events, to) && FinishLoad !in events ==>
               SilentReloads(to.effects) <= SilentReloads(from.effects) + k)
            <==> CanLand(from) <= k
  {
    hide Inv, Run, CanLand, SilentReloads;
    if CanLand(from) <= k {
      forall events, to | Run(from, events, to) && FinishLoad !in events
        ensures SilentReloads(to.effects) <= SilentReloads(from.effects) + k {
        LandingsBetweenLoads(from, events, to);
      }
    } else {
      var events, to := AllCanLand(from);
    }
  }

  lemma {:induction false} SilentStep(w: Window, i: nat)
    requires Possible(w, SilentFires(i))
    ensures Step(w, SilentFires(i)) == OnSilentFires(w, i)
  {
  }

  /** So at most one lands between loads when each load set off with a navigation of its own, whatever
      was armed before it: the navigation moves the generation on. */
  lemma {:induction false} OneLandsAfterADeparture(early: seq<Event>, m: Window, target: string, events: seq<Event>,
      to: Window)
    requires Run(FRESH, early, m) && target != "" && !IsFile(target)
    requires Run(Step(m, StartNavigation(target, true)), events, to) && FinishLoad !in events
    ensures SilentReloads(to.effects) <= SilentReloads(m.effects) + 1
  {
    EveryRunKeepsInv(FRESH, early, m);
    var from := Step(m, StartNavigation(target, true));
    StepKeepsInv(m, StartNavigation(target, true));
    assert WaitingOk(m);
    hide Inv, Run;
    assert Armed(from) == {};
    LandingsBetweenLoads(from, events, to);
  }

  /** A retry armed before a load completes is still armed after it, with the budget back. */
  lemma {:induction false} ArmedAcrossALoad() returns (early: seq<Event>, from: Window)
    ensures Run(FRESH, early, from) && CanLand(from) == 2
  {
    var fail := FailLoad(-21, "https:", true, true);
    var w1 := FRESH.(retried := true, silents := [SilentRetry(1000, 0, "https:", false)]);
    from := w1.(retried := false, loads := 1);
    early := [fail, FinishLoad];
    assert Armed(from) == {0};
    hide Armed;
    assert Step(FRESH, fail) == w1;
    assert early[1..] == [FinishLoad] && [FinishLoad][1..] == [];
    assert Run(from, [], from);
    assert Run(w1, [FinishLoad], from);
  }

  /** Without one, two can: armed before and after a load that completed, both land in one generation. */
  lemma {:induction false} TwoCanLandBetweenLoads()
    returns (early: seq<Event>, from: Window, events: seq<Event>, to: Window)
    ensures Run(FRESH, early, from) && Run(from, events, to) && FinishLoad !in events
    ensures SilentReloads(to.effects) == SilentReloads(from.effects) + 2
  {
    hide Run, Step, CanLand, SilentReloads;
    early, from := ArmedAcrossALoad();
    EveryRunKeepsInv(FRESH, early, from);
    hide Inv;
    events, to := AllCanLand(from);
  }
}
