/** The outage page of desktop/src/outage.js, with the menu's reload of desktop/src/main.js: what one
    window's record does under failed loads, navigations, probes that answer late, and retries. */
module Outage {
  import opened Options

  const SILENT_RETRY_DELAY: nat := 1000
  const PORTAL_TIMEOUT: nat := 2000
  const BENIGN: set<int> := {-3}
  const TRANSIENT: set<int> := {-21}
  const FILE_SCHEME: string := "file://"

  datatype Reason = Unreachable | ServerError | Offline | CaptivePortal

  /** What waits on a probe or a timer, and the generation it was begun for. */
  datatype PortalProbe = PortalProbe(due: nat, since: nat, url: string, answered: bool)
  datatype RetryProbe = RetryProbe(since: nat, url: string, fromMenu: bool, answered: bool)
  datatype SilentRetry = SilentRetry(due: nat, since: nat, url: string, fired: bool)

  /** What reached the window: the generation the work was begun for, and the one it landed in. */
  datatype Effect =
    | Painted(begun: nat, landed: nat, url: string, reason: Reason)
    | Reloaded(begun: nat, landed: nat, url: string)
    | SilentlyReloaded(begun: nat, landed: nat, url: string, timer: nat)

  /** The window's record, "" standing for null, then the continuations that still hold one of its
      generations, what has reached the window, and how many loads have completed. */
  datatype Window = Window(
    now: nat, destroyed: bool,
    showing: bool, url: string, reason: Option<Reason>, retried: bool, probing: Option<nat>, generation: nat,
    portals: seq<PortalProbe>, reloads: seq<RetryProbe>, silents: seq<SilentRetry>,
    effects: seq<Effect>, loads: nat)

  const FRESH: Window := Window(0, false, false, "", None, false, None, 0, [], [], [], [], 0)

  datatype Event =
    | Tick(ms: nat)
    | FailLoad(code: int, target: string, mainFrame: bool, online: bool)
    | Navigated(target: string, status: Option<int>, online: bool)
    | StartNavigation(target: string, mainFrame: bool)
    | FinishLoad
    | PortalAnswer(i: nat, portal: bool, online: bool)
    | AskReload(fromMenu: bool)
    | ReloadAnswer(i: nat, ok: bool, status: Option<int>, online: bool)
    | SilentFires(i: nat)
    | Destroy

  predicate IsFile(url: string) { FILE_SCHEME <= url }

  predicate IsHttp(url: string) { "http:" <= url || "https:" <= url }

  predicate IsServerError(status: Option<int>) { status.Some? && status.value >= 500 }

  predicate ShouldShow(code: int, mainFrame: bool) { mainFrame && code !in BENIGN }

  function ReasonFor(status: Option<int>, online: bool, portal: bool): Reason {
    if IsServerError(status) then ServerError
    else if !online then Offline
    else if portal then CaptivePortal
    else Unreachable
  }

  predicate MovedOn(w: Window, since: nat) { w.destroyed || w.generation != since }

  function Clear(w: Window): Window {
    w.(showing := false, url := "", reason := None, generation := w.generation + 1)
  }

  function Paint(w: Window, since: nat, url: string, reason: Reason): Window {
    w.(showing := true, url := url, reason := Some(reason),
        effects := w.effects + [Painted(since, w.generation, url, reason)])
  }

  /** Show up to its first await: either the page is painted at once, or a portal probe goes out. */
  function Show(w: Window, target: string, status: Option<int>, online: bool): Window {
    var url := if target != "" then target else w.url;
    if w.destroyed || w.probing == Some(w.generation) || url == "" then w
    else if IsServerError(status) || !online then Paint(w, w.generation, url, ReasonFor(status, online, false))
    else
      w.(showing := true, url := url, reason := Some(Unreachable), probing := Some(w.generation),
         portals := w.portals + [PortalProbe(w.now + PORTAL_TIMEOUT, w.generation, url, false)])
  }

  /** The rest of Show, once the probe has answered. */
  function AfterPortal(w: Window, i: nat, portal: bool, online: bool): Window
    requires i < |w.portals|
  {
    var p := w.portals[i];
    var w1 := w.(portals := w.portals[i := p.(answered := true)],
                 probing := if w.probing == Some(p.since) then None else w.probing);
    if MovedOn(w, p.since) then w1 else Paint(w1, p.since, p.url, ReasonFor(None, online, portal))
  }

  function OnFailLoad(w: Window, code: int, target: string, mainFrame: bool, online: bool): Window {
    if !ShouldShow(code, mainFrame) || IsFile(target) then w
    else if code in TRANSIENT && !w.retried then
      w.(retried := true, silents := w.silents + [SilentRetry(w.now + SILENT_RETRY_DELAY, w.generation, target, false)])
    else Show(w, target, None, online)
  }

  function OnNavigated(w: Window, target: string, status: Option<int>, online: bool): Window {
    if IsServerError(status) && IsHttp(target) then Show(w, target, status, online) else w
  }

  function OnStartNavigation(w: Window, target: string, mainFrame: bool): Window {
    if mainFrame && target != "" && !IsFile(target) then Clear(w) else w
  }

  function OnAskReload(w: Window, fromMenu: bool): Window {
    if w.destroyed || !w.showing then w
    else w.(reloads := w.reloads + [RetryProbe(w.generation, w.url, fromMenu, false)])
  }

  function Reload(w: Window, since: nat, url: string): Window {
    Clear(w.(effects := w.effects + [Reloaded(since, w.generation, url)]))
  }

  /** The page's own button stands down on any failure; the menu repaints the page instead. */
  function AfterReloadProbe(w: Window, i: nat, ok: bool, status: Option<int>, online: bool): Window
    requires i < |w.reloads|
  {
    var r := w.reloads[i];
    var w1 := w.(reloads := w.reloads[i := r.(answered := true)]);
    if MovedOn(w, r.since) then w1
    else if ok && !IsServerError(status) then Reload(w1, r.since, r.url)
    else if r.fromMenu then Show(w1, r.url, status, online)
    else w1
  }

  function OnSilentFires(w: Window, i: nat): Window
    requires i < |w.silents|
  {
    var t := w.silents[i];
    var w1 := w.(silents := w.silents[i := t.(fired := true)]);
    if MovedOn(w, t.since) || w.showing then w1
    else w1.(effects := w.effects + [SilentlyReloaded(t.since, w.generation, t.url, i)])
  }

  /** A probe answers once and a timer fires once; a portal probe is aborted, so answers, on time. */
  predicate Possible(w: Window, e: Event) {
    match e
    case Tick(ms) => forall i :: 0 <= i < |w.portals| && !w.portals[i].answered ==> w.now + ms <= w.portals[i].due
    case PortalAnswer(i, _, _) => i < |w.portals| && !w.portals[i].answered
    case ReloadAnswer(i, _, _, _) => i < |w.reloads| && !w.reloads[i].answered
    case SilentFires(i) => i < |w.silents| && !w.silents[i].fired && w.silents[i].due <= w.now
    case _ => true
  }

  function Step(w: Window, e: Event): Window
    requires Possible(w, e)
  {
    match e
    case Tick(ms) => w.(now := w.now + ms)
    case FailLoad(code, target, mainFrame, online) => OnFailLoad(w, code, target, mainFrame, online)
    case Navigated(target, status, online) => OnNavigated(w, target, status, online)
    case StartNavigation(target, mainFrame) => OnStartNavigation(w, target, mainFrame)
    case FinishLoad => w.(retried := false, loads := w.loads + 1)
    case PortalAnswer(i, portal, online) => AfterPortal(w, i, portal, online)
    case AskReload(fromMenu) => OnAskReload(w, fromMenu)
    case ReloadAnswer(i, ok, status, online) => AfterReloadProbe(w, i, ok, status, online)
    case SilentFires(i) => OnSilentFires(w, i)
    case Destroy => w.(destroyed := true)
  }

  ghost predicate Run(from: Window, events: seq<Event>, to: Window)
    decreases |events|
  {
    if events == [] then from == to
    else Possible(from, events[0]) && Run(Step(from, events[0]), events[1..], to)
  }

  // ----- the invariant -----

  /** The record's own fields agree with each other. */
  ghost predicate RecordOk(w: Window) {
    && (w.showing <==> w.url != "") && (w.showing <==> w.reason.Some?)
    && (w.probing.Some? ==> w.probing.value <= w.generation)
  }

  predicate Out(w: Window, i: int) { 0 <= i < |w.portals| && !w.portals[i].answered }

  /** Unanswered portal probes belong to different generations; the one for the current generation
      holds the claim and asks about the record's own URL; a claim is always somebody's. */
  ghost predicate ProbesOk(w: Window) {
    && (forall i :: 0 <= i < |w.portals| ==> w.portals[i].since <= w.generation)
    && (forall i :: Out(w, i) ==> w.now <= w.portals[i].due <= w.now + PORTAL_TIMEOUT && w.portals[i].url != "")
    && (forall i, j :: i < j && Out(w, i) && Out(w, j) ==> w.portals[i].since != w.portals[j].since)
    && (forall i :: Out(w, i) && w.portals[i].since == w.generation ==>
        w.probing == Some(w.generation) && w.showing && w.url == w.portals[i].url)
    && (w.probing.Some? ==> exists i :: Out(w, i) && w.portals[i].since == w.probing.value)
  }

  /** The last thing to reach the window was this very page, in this generation. */
  predicate PaintedNow(w: Window) {
    w.effects != [] && w.effects[|w.effects| - 1] ==
        Painted(w.generation, w.generation, w.url, w.reason.GetOr(Unreachable))
  }

  ghost predicate ServedOk(w: Window) {
    w.showing && !w.destroyed ==> PaintedNow(w) || w.probing == Some(w.generation)
  }

  /** Nothing landed in a generation it was not begun for; each reload used its generation up. */
  ghost predicate EffectsOk(w: Window) {
    && (forall k :: 0 <= k < |w.effects| ==> w.effects[k].begun == w.effects[k].landed <= w.generation)
    && (forall k :: 0 <= k < |w.effects| && w.effects[k].Reloaded? ==> w.effects[k].landed < w.generation)
    && (forall k, l :: 0 <= k < l < |w.effects| && w.effects[k].Reloaded? ==> w.effects[k].landed < w.effects[l].landed)
  }

  ghost predicate WaitingOk(w: Window) {
    && (forall i :: 0 <= i < |w.reloads| ==> w.reloads[i].since <= w.generation && w.reloads[i].url != "")
    && (forall i :: 0 <= i < |w.silents| ==> w.silents[i].since <= w.generation)
  }

  /** The retry budget: spent by arming, returned by a load that completes. */
  ghost predicate BudgetOk(w: Window) {
    && |w.silents| <= w.loads + (if w.retried then 1 else 0)
    && (forall k :: 0 <= k < |w.effects| && w.effects[k].SilentlyReloaded? ==>
        w.effects[k].timer < |w.silents| && w.silents[w.effects[k].timer].fired)
    && (forall k, l :: 0 <= k < l < |w.effects| && w.effects[k].SilentlyReloaded? && w.effects[l].SilentlyReloaded?
                       ==> w.effects[k].timer != w.effects[l].timer)
  }

  ghost predicate Inv(w: Window) {
    RecordOk(w) && ProbesOk(w) && ServedOk(w) && EffectsOk(w) && WaitingOk(w) && BudgetOk(w)
  }

  lemma {:induction false} ShowKeepsProbes(w: Window, target: string, status: Option<int>, online: bool)
    requires RecordOk(w) && ProbesOk(w)
    ensures ProbesOk(Show(w, target, status, online))
  {
    var w' := Show(w, target, status, online);
    if |w'.portals| > |w.portals| {
      assert Out(w', |w.portals|);
      assert forall i :: Out(w', i) ==> i == |w.portals| || (Out(w, i) && w.portals[i] == w'.portals[i]);
    } else {
      assert forall i :: Out(w', i) <==> Out(w, i);
    }
  }

  lemma {:induction false} ShowKeepsInv(w: Window, target: string, status: Option<int>, online: bool)
    requires Inv(w)
    ensures Inv(Show(w, target, status, online))
  {
    ShowKeepsProbes(w, target, status, online);
    hide ProbesOk;
  }

  /** ProbesOk reads the probes, the clock, and the fields a claim is about. */
  lemma {:induction false} ProbesKept(w: Window, w': Window)
    requires ProbesOk(w) && w'.portals == w.portals && w'.probing == w.probing && w'.generation == w.generation
    requires w'.showing == w.showing && w'.url == w.url
    requires w.now <= w'.now && forall i :: 0 <= i < |w.portals| && !w.portals[i].answered ==>
        w'.now <= w.portals[i].due
    ensures ProbesOk(w')
  {
    assert forall i :: Out(w', i) <==> Out(w, i);
  }

  /** Clearing needs of the effects only what the next generation asks of them. */
  lemma {:induction false} ClearKeepsInv(w: Window)
    requires RecordOk(w) && ProbesOk(w) && EffectsOk(w.(generation := w.generation + 1)) && WaitingOk(w) && BudgetOk(w)
    ensures Inv(Clear(w))
  {
    assert forall i :: Out(Clear(w), i) <==> Out(w, i);
  }

  lemma {:induction false} AfterPortalKeepsProbes(w: Window, i: nat, portal: bool, online: bool)
    requires RecordOk(w) && ProbesOk(w) && Out(w, i)
    ensures ProbesOk(AfterPortal(w, i, portal, online))
  {
    var w' := AfterPortal(w, i, portal, online);
    assert forall j :: Out(w', j) ==> Out(w, j) && j != i && w'.portals[j] == w.portals[j];
    if w'.probing.Some? {
      var j :| Out(w, j) && w.portals[j].since == w.probing.value;
      assert Out(w', j);
    }
  }

  lemma {:induction false} AfterPortalKeepsInv(w: Window, i: nat, portal: bool, online: bool)
    requires Inv(w) && Out(w, i)
    ensures Inv(AfterPortal(w, i, portal, online))
  {
    AfterPortalKeepsProbes(w, i, portal, online);
    var w' := AfterPortal(w, i, portal, online);
    assert w.portals[i].url != "" && w.portals[i].since <= w.generation;
    hide ProbesOk;
  }

  /** Answering a reload probe changes nothing the invariant reads but the list of those probes. */
  lemma {:induction false} AnsweringKeepsInv(w: Window, w1: Window, i: nat)
    requires Inv(w) && i < |w.reloads| && w1 == w.(reloads := w.reloads[i := w.reloads[i].(answered := true)])
    ensures Inv(w1)
  {
    assert forall j :: Out(w1, j) <==> Out(w, j);
  }

  lemma {:induction false} ReloadKeepsInv(w: Window, url: string)
    requires Inv(w)
    ensures Inv(Reload(w, w.generation, url))
  {
    var w1 := w.(effects := w.effects + [Reloaded(w.generation, w.generation, url)]);
    assert forall i :: Out(w1, i) <==> Out(w, i);
    ClearKeepsInv(w1);
  }

  lemma {:induction false} AfterReloadProbeKeepsInv(w: Window, i: nat, ok: bool, status: Option<int>, online: bool)
    requires Inv(w) && i < |w.reloads|
    ensures Inv(AfterReloadProbe(w, i, ok, status, online))
  {
    var r := w.reloads[i];
    var w1 := w.(reloads := w.reloads[i := r.(answered := true)]);
    AnsweringKeepsInv(w, w1, i);
    hide Inv, Reload, Show;
    if w.generation == r.since { ReloadKeepsInv(w1, r.url); }
    ShowKeepsInv(w1, r.url, status, online);
  }

  lemma {:induction false} OnFailLoadKeepsInv(w: Window, code: int, target: string, mainFrame: bool, online: bool)
    requires Inv(w)
    ensures Inv(OnFailLoad(w, code, target, mainFrame, online))
  {
    var w' := OnFailLoad(w, code, target, mainFrame, online);
    if w'.retried == w.retried {
      ShowKeepsInv(w, target, None, online);
      hide Inv, Show;
    } else {
      ProbesKept(w, w');
      hide ProbesOk, Show;
    }
  }

  /** The steps that leave every portal probe and the claim as they are. */
  lemma {:induction false} SmallStepsKeepProbes(w: Window, e: Event)
    requires ProbesOk(w) && Possible(w, e)
    requires e.Tick? || e.FinishLoad? || e.AskReload? || e.SilentFires? || e.Destroy?
    ensures ProbesOk(Step(w, e))
  {
    assert forall i :: Out(w, i) ==> w.now <= w.portals[i].due;
    assert forall i :: 0 <= i < |w.portals| && !w.portals[i].answered ==> Out(w, i);
    ProbesKept(w, Step(w, e));
  }

  lemma {:induction false} SilentFiresKeepsBudget(w: Window, i: nat)
    requires BudgetOk(w) && Possible(w, SilentFires(i))
    ensures BudgetOk(OnSilentFires(w, i))
  {
    var w' := OnSilentFires(w, i);
    if |w'.effects| > |w.effects| {
      var n := |w.effects|;
      assert w'.effects[..n] == w.effects && w'.effects[n].timer == i;
      forall k | 0 <= k < n && w.effects[k].SilentlyReloaded? ensures w.effects[k].timer != i {
        assert w.silents[w.effects[k].timer].fired;
      }
    }
  }

  lemma {:induction false} SilentFiresKeepsInv(w: Window, i: nat)
    requires Inv(w) && Possible(w, SilentFires(i))
    ensures Inv(OnSilentFires(w, i))
  {
    SmallStepsKeepProbes(w, SilentFires(i));
    SilentFiresKeepsBudget(w, i);
    hide ProbesOk, BudgetOk;
  }

  lemma {:induction false} SmallStepsKeepInv(w: Window, e: Event)
    requires Inv(w) && Possible(w, e)
    requires e.Tick? || e.FinishLoad? || e.AskReload? || e.Destroy?
    ensures Inv(Step(w, e))
  {
    SmallStepsKeepProbes(w, e);
    hide ProbesOk;
  }

  lemma {:induction false} StepKeepsInv(w: Window, e: Event)
    requires Inv(w) && Possible(w, e)
    ensures Inv(Step(w, e))
  {
    match e
    case FailLoad(code, target, mainFrame, online) => OnFailLoadKeepsInv(w, code, target, mainFrame, online);
    case Navigated(target, status, online) => ShowKeepsInv(w, target, status, online);
    case StartNavigation(_, _) => ClearKeepsInv(w);
    case PortalAnswer(i, portal, online) => AfterPortalKeepsInv(w, i, portal, online);
    case ReloadAnswer(i, ok, status, online) => AfterReloadProbeKeepsInv(w, i, ok, status, online);
    case SilentFires(i) => SilentFiresKeepsInv(w, i);
    case _ => SmallStepsKeepInv(w, e);
  }

  lemma {:induction false} EveryRunKeepsInv(from: Window, events: seq<Event>, to: Window)
    requires Inv(from) && Run(from, events, to)
    ensures Inv(to)
    decreases |events|
  {
    if events == [] {
    } else {
      StepKeepsInv(from, events[0]);
      EveryRunKeepsInv(Step(from, events[0]), events[1..], to);
    }
  }
}
