/** What one event of an outage window means, said of the states before and after it. */
module OutageEvents {
  import opened Options
  import opened Outage
  import opened OutageRuns

  /** A window with somewhere to go back to ends up served: painted at once where a probe could teach
      nothing, behind one probe otherwise, and left alone where this outage's probe is already out. */
  ghost predicate ShownFor(a: Window, b: Window, target: string, status: Option<int>, online: bool) {
    if a.destroyed || (target == "" && !a.showing) then b == a
    else
      && b.showing && Served(b) && b.generation == a.generation
      && b.retried == a.retried && b.silents == a.silents && b.reloads == a.reloads
      && (a.probing == Some(a.generation) ==> b == a)
      && (a.probing != Some(a.generation) ==>
            && b.url == (if target != "" then target else a.url)
            && if IsServerError(status) || !online
               then PaintedNow(b) && |b.effects| == |a.effects| + 1 && b.portals == a.portals
               else b.effects == a.effects && |b.portals| == |a.portals| + 1 && Out(b, |a.portals|))
  }

  lemma {:induction false} ShowMeans(w: Window, target: string, status: Option<int>, online: bool)
    requires Inv(w)
    ensures ShownFor(w, Show(w, target, status, online), target, status, online)
  {
    var w' := Show(w, target, status, online);
    ShowKeepsInv(w, target, status, online);
    assert w.showing <==> w.url != "";
    if w'.showing && !w'.destroyed { ServedWhileShowing(w'); }
    hide Inv, Served;
  }

  /** A probe that answers late stands down; one that answers in its own outage paints it, for the
      reason it found, and frees the claim. */
  ghost predicate PortalTaken(a: Window, b: Window, i: nat, portal: bool, online: bool)
    requires i < |a.portals|
  {
    if a.generation != a.portals[i].since then StoodDown(a, b)
    else if a.destroyed then b.effects == a.effects && b.destroyed
    else
      && b.showing && b.url == a.url && PaintedNow(b) && |b.effects| == |a.effects| + 1 && a.effects <= b.effects
      && (b.reason == Some(CaptivePortal) <==> online && portal) && (b.reason == Some(Offline) <==> !online)
      && b.probing.None? && b.generation == a.generation
  }

  lemma {:induction false} PortalMeans(w: Window, i: nat, portal: bool, online: bool)
    requires Inv(w) && Out(w, i)
    ensures PortalTaken(w, AfterPortal(w, i, portal, online), i, portal, online)
  {
    assert w.portals[i].since == w.generation ==> w.probing == Some(w.generation) && w.url == w.portals[i].url;
    hide Inv, ProbesOk;
  }

  /** Only the main frame's own failures count; the first transient one is retried in silence. */
  ghost predicate FailureTaken(a: Window, b: Window, code: int, target: string, mainFrame: bool, online: bool) {
    if !ShouldShow(code, mainFrame) || IsFile(target) then b == a
    else if code in TRANSIENT && !a.retried then
      && b == a.(retried := true, silents := b.silents)
      && b.silents == a.silents + [SilentRetry(a.now + SILENT_RETRY_DELAY, a.generation, target, false)]
    else ShownFor(a, b, target, None, online)
  }

  lemma {:induction false} FailureMeans(w: Window, code: int, target: string, mainFrame: bool, online: bool)
    requires Inv(w)
    ensures FailureTaken(w, OnFailLoad(w, code, target, mainFrame, online), code, target, mainFrame, online)
  {
    ShowMeans(w, target, None, online);
    hide Inv, ShownFor, Show;
  }

  /** No probe or timer that is out, or ever was, can do anything to the window any more. */
  ghost predicate AllStandDown(w: Window) {
    && (forall i: nat, portal, online :: i < |w.portals| ==> StoodDown(w, AfterPortal(w, i, portal, online)))
    && (forall i: nat, ok, status, online :: i < |w.reloads| ==>
        StoodDown(w, AfterReloadProbe(w, i, ok, status, online)))
    && (forall i: nat :: i < |w.silents| ==> StoodDown(w, OnSilentFires(w, i)))
  }

  /** Setting off for a real page ends the outage and all work begun for it; nothing else does. */
  ghost predicate DepartureTaken(a: Window, b: Window, target: string, mainFrame: bool) {
    if mainFrame && target != "" && !IsFile(target)
    then !b.showing && b.effects == a.effects && b.generation > a.generation && AllStandDown(b)
    else b == a
  }

  lemma {:induction false} DepartureMeans(w: Window, target: string, mainFrame: bool)
    requires Inv(w)
    ensures DepartureTaken(w, OnStartNavigation(w, target, mainFrame), target, mainFrame)
  {
    var w' := OnStartNavigation(w, target, mainFrame);
    if w'.generation > w.generation {
      StepGrows(w, StartNavigation(target, mainFrame));
      OldWorkStandsDown(w, w');
    }
    hide Inv, StoodDown;
  }

  /** A silent retry lands exactly in the generation it was armed in, while no page shows. */
  ghost predicate SilentTaken(a: Window, b: Window, i: nat)
    requires i < |a.silents|
  {
    var t := a.silents[i];
    if MovedOn(a, t.since) || a.showing then StoodDown(a, b) else
    b.effects == a.effects + [SilentlyReloaded(a.generation, a.generation, t.url, i)] &&
    StoodDown(a, b.(effects := a.effects))
  }

  lemma {:induction false} SilentMeans(w: Window, i: nat)
    requires i < |w.silents|
    ensures SilentTaken(w, OnSilentFires(w, i), i)
  {
  }

  /** A reload probe that answers late stands down; a good answer reloads and ends the outage; a bad
      one leaves the button's window as it is and has the menu's served. */
  ghost predicate ReloadTaken(a: Window, b: Window, i: nat, ok: bool, status: Option<int>)
    requires i < |a.reloads|
  {
    var r := a.reloads[i];
    if MovedOn(a, r.since) then StoodDown(a, b)
    else if ok && (status.None? || status.value < 500) then
      && b.effects == a.effects + [Reloaded(a.generation, a.generation, r.url)]
      && !b.showing && b.generation == a.generation + 1
    else if r.fromMenu then b.showing && Served(b) && b.generation == a.generation
    else StoodDown(a, b)
  }

  lemma {:induction false} ReloadMeans(w: Window, i: nat, ok: bool, status: Option<int>, online: bool)
    requires Inv(w) && i < |w.reloads|
    ensures ReloadTaken(w, AfterReloadProbe(w, i, ok, status, online), i, ok, status)
  {
    var r := w.reloads[i];
    var w1 := w.(reloads := w.reloads[i := r.(answered := true)]);
    AnsweringKeepsInv(w, w1, i);
    ShowMeans(w1, r.url, status, online);
    assert r.url != "";
    hide Inv, Served, Show;
  }
}
