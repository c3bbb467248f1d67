/** The handlers of desktop/src/outage.js on one window's mutable record: each is one step of the
    outage protocol, keeps its invariant, and says what it does to what the user sees. */
module OutageWindow {
  import opened Options
  import opened Outage
  import opened OutageRuns
  import opened OutageEvents

  datatype Response = Nothing | Failed | Answered(status: int) | Done

  class WindowRecord {
    var now: nat
    var destroyed: bool
    var showing: bool
    var url: string
    var reason: Option<Reason>
    var retried: bool
    var probing: Option<nat>
    var generation: nat
    var portals: seq<PortalProbe>
    var reloads: seq<RetryProbe>
    var silents: seq<SilentRetry>
    ghost var effects: seq<Effect>
    ghost var loads: nat

    ghost function View(): Window
      reads this
    {
      Window(now, destroyed, showing, url, reason, retried, probing, generation, portals, reloads, silents, effects,
          loads)
    }

    /** Claims, probes, effects and the retry budget agree; a showing window is served. */
    ghost predicate Valid()
      reads this
    {
      Inv(View())
    }

    constructor ()
      ensures Valid() && View() == FRESH
    {
      now, destroyed, showing, url, reason, retried, probing, generation := 0, false, false, "", None, false, None, 0;
      portals, reloads, silents, effects, loads := [], [], [], [], 0;
    }

    method ClearRecord()
      modifies this
      ensures View() == Clear(old(View()))
    {
      showing := false;
      url := "";
      reason := None;
      generation := generation + 1;
    }

    /** Assigns the record and loads the page. */
    method PaintPage(since: nat, target: string, why: Reason)
      modifies this
      ensures View() == Paint(old(View()), since, target, why)
    {
      showing, url, reason := true, target, Some(why);
      effects := effects + [Painted(since, generation, target, why)];
    }

    /** A window with somewhere to go back to ends up served. */
    method ShowPage(target: string, status: Option<int>, online: bool)
      requires Valid()
      modifies this
      ensures Valid() && View() == Show(old(View()), target, status, online)
      ensures ShownFor(old(View()), View(), target, status, online)
    {
      hide Inv, ShownFor;
      ShowMeans(View(), target, status, online);
      ShowKeepsInv(View(), target, status, online);
      if destroyed {
        return;
      }
      if probing == Some(generation) {
        return;
      }
      var full := if target != "" then target else url;
      if full == "" {
        return;
      }
      showing, url, reason := true, full, Some(Unreachable);
      if !IsServerError(status) && online {
        probing := Some(generation);
        portals := portals + [PortalProbe(now + PORTAL_TIMEOUT, generation, full, false)];
        return;
      }
      PaintPage(generation, full, ReasonFor(status, online, false));
    }

    /** Paints the outage the probe was for; a late answer, of an outage left behind, does nothing. */
    method OnPortalAnswer(i: nat, portal: bool, online: bool)
      requires Valid() && Out(View(), i)
      modifies this
      ensures Valid() && View() == Step(old(View()), PortalAnswer(i, portal, online))
      ensures PortalTaken(old(View()), View(), i, portal, online)
    {
      hide Inv, PortalTaken;
      PortalMeans(View(), i, portal, online);
      StepKeepsInv(View(), PortalAnswer(i, portal, online));
      var p := portals[i];
      portals := portals[i := p.(answered := true)];
      if probing == Some(p.since) {
        probing := None;
      }
      if destroyed || generation != p.since {
        return;
      }
      PaintPage(p.since, p.url, ReasonFor(None, online, portal));
    }

    /** One silent retry on the first transient failure, the page on every other of the main frame. */
    method OnDidFailLoad(code: int, target: string, mainFrame: bool, online: bool)
      requires Valid()
      modifies this
      ensures Valid() && View() == Step(old(View()), FailLoad(code, target, mainFrame, online))
      ensures FailureTaken(old(View()), View(), code, target, mainFrame, online)
    {
      hide Inv, FailureTaken, ShownFor, Show;
      FailureMeans(View(), code, target, mainFrame, online);
      StepKeepsInv(View(), FailLoad(code, target, mainFrame, online));
      if !ShouldShow(code, mainFrame) {
        return;
      }
      if IsFile(target) {
        return;
      }
      if code in TRANSIENT && !retried {
        retried := true;
        silents := silents + [SilentRetry(now + SILENT_RETRY_DELAY, generation, target, false)];
        return;
      }
      ShowPage(target, None, online);
    }

    /** A silent retry lands exactly in its own generation, while no page shows. */
    method OnSilentTimer(i: nat)
      requires Valid() && Possible(View(), SilentFires(i))
      modifies this
      ensures Valid() && View() == Step(old(View()), SilentFires(i))
      ensures SilentTaken(old(View()), View(), i)
    {
      hide Inv, SilentTaken;
      SilentMeans(View(), i);
      StepKeepsInv(View(), SilentFires(i));
      var t := silents[i];
      silents := silents[i := t.(fired := true)];
      if destroyed || generation != t.since || showing {
        return;
      }
      effects := effects + [SilentlyReloaded(t.since, generation, t.url, i)];
    }

    /** Gives the silent retry back, and nothing else. */
    method OnDidFinishLoad()
      requires Valid()
      modifies this
      ensures Valid() && View() == Step(old(View()), FinishLoad)
      ensures !retried && View() == old(View()).(retried := false, loads := loads)
    {
      hide Inv;
      StepKeepsInv(View(), FinishLoad);
      retried := false;
      loads := loads + 1;
    }

    /** A 5xx answer over http or https ends up served like a failure; any other answer is the page's. */
    method OnDidNavigate(target: string, status: Option<int>, online: bool)
      requires Valid()
      modifies this
      ensures Valid() && View() == Step(old(View()), Navigated(target, status, online))
      ensures var failed := status.Some? && status.value >= 500 && ("http:" <= target || "https:" <= target);
              if failed
              then ShownFor(old(View()), View(), target, status, online) && (!destroyed ==> showing && Served(View()))
              else View() == old(View())
    {
      hide Inv, Show, Served;
      StepKeepsInv(View(), Navigated(target, status, online));
      if !IsServerError(status) {
        return;
      }
      if !IsHttp(target) {
        return;
      }
      ShowPage(target, status, online);
    }

    /** Leaving for a real page ends the outage, and nothing begun for it can land afterwards. */
    method OnDidStartNavigation(target: string, mainFrame: bool)
      requires Valid()
      modifies this
      ensures Valid() && View() == Step(old(View()), StartNavigation(target, mainFrame))
      ensures DepartureTaken(old(View()), View(), target, mainFrame)
    {
      hide Inv, DepartureTaken;
      DepartureMeans(View(), target, mainFrame);
      StepKeepsInv(View(), StartNavigation(target, mainFrame));
      if mainFrame && target != "" && !IsFile(target) {
        ClearRecord();
      }
    }

    /** Retry, from the page's button or the menu, up to its probe. */
    method AskForReload(fromMenu: bool) returns (asked: bool)
      requires Valid()
      modifies this
      ensures Valid() && View() == Step(old(View()), AskReload(fromMenu))
      ensures asked <==> !old(destroyed) && old(showing)
      ensures asked ==> reloads == old(reloads) + [RetryProbe(generation, old(url), fromMenu, false)]
      ensures View() == old(View()).(reloads := if asked then reloads else old(reloads))
    {
      hide Inv;
      StepKeepsInv(View(), AskReload(fromMenu));
      if destroyed || !showing {
        return false;
      }
      reloads := reloads + [RetryProbe(generation, url, fromMenu, false)];
      asked := true;
    }

    method LoadAgain(since: nat, target: string)
      modifies this
      ensures View() == Reload(old(View()), since, target)
    {
      effects := effects + [Reloaded(since, generation, target)];
      ClearRecord();
    }

    /** The page's button: told it is done exactly when the window was reloaded. */
    method OnRetryAnswer(i: nat, ok: bool, status: Option<int>, online: bool) returns (response: Response)
      requires Valid() && Possible(View(), ReloadAnswer(i, ok, status, online)) && !reloads[i].fromMenu
      modifies this
      ensures Valid() && View() == Step(old(View()), ReloadAnswer(i, ok, status, online))
      ensures ReloadTaken(old(View()), View(), i, ok, status)
      ensures response == Done <==> |effects| > |old(effects)|
    {
      hide Inv, ReloadTaken;
      ReloadMeans(View(), i, ok, status, online);
      StepKeepsInv(View(), ReloadAnswer(i, ok, status, online));
      var r := reloads[i];
      reloads := reloads[i := r.(answered := true)];
      if !ok {
        return Failed;
      }
      if destroyed || generation != r.since {
        return Nothing;
      }
      if IsServerError(status) {
        return Answered(status.value);
      }
      LoadAgain(r.since, r.url);
      response := Done;
    }

    /** The menu's reload: a failed probe has the window served instead of left as it is. */
    method OnMenuReloadAnswer(i: nat, ok: bool, status: Option<int>, online: bool)
      requires Valid() && Possible(View(), ReloadAnswer(i, ok, status, online)) && reloads[i].fromMenu
      modifies this
      ensures Valid() && View() == Step(old(View()), ReloadAnswer(i, ok, status, online))
      ensures ReloadTaken(old(View()), View(), i, ok, status)
    {
      hide Inv, ReloadTaken, ShownFor, Show;
      ReloadMeans(View(), i, ok, status, online);
      StepKeepsInv(View(), ReloadAnswer(i, ok, status, online));
      AnsweringKeepsInv(View(), View().(reloads := reloads[i := reloads[i].(answered := true)]), i);
      var r := reloads[i];
      reloads := reloads[i := r.(answered := true)];
      if destroyed || generation != r.since {
        return;
      }
      if ok && !IsServerError(status) {
        LoadAgain(r.since, r.url);
        return;
      }
      ShowPage(r.url, status, online);
    }
  }

  // ----- the outage page leaves no trace in history -----

  function WithoutPage(entries: seq<string>, page: string): (kept: seq<string>)
    ensures forall e :: e in kept <==> e in entries && !(page <= e)
  {
    if entries == [] then [] else (if page <= entries[0] then [] else [entries[0]]) + WithoutPage(entries[1..], page)
  }

  /** Removing entries backwards by index, as listed before the first removal, filters the history. */
  method PruneHistory(entries: seq<string>, page: string) returns (history: seq<string>)
    ensures history == WithoutPage(entries, page)
  {
    history := entries;
    var i := |entries|;
    assert entries[..i] + WithoutPage(entries[i..], page) == entries;
    while i > 0
      invariant 0 <= i <= |entries|
      invariant history == entries[..i] + WithoutPage(entries[i..], page)
    {
      i := i - 1;
      assert entries[i..][1..] == entries[i + 1..];
      assert entries[..i + 1] == entries[..i] + [entries[i]];
      if page <= entries[i] {
        history := history[..i] + history[i + 1..];
      }
    }
  }
}
