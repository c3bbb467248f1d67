/** The handlers of desktop/src/oauth.js on the module's mutable state: each is one step of the flow
    manager, keeps its invariant, and says which flow it touches. */
module OAuthShell {
  import opened Options
  import opened OAuthFlows
  import opened OAuthInvariant
  import opened OAuthEvents

  class CallbackShell {
    var now: nat
    var pending: Option<Flow>
    var connectors: seq<Flow>
    var timers: map<FlowId, nat>
    var nextId: FlowId
    var era: nat
    var starting: Option<nat>
    var callbackPort: Option<nat>
    ghost var armed: map<FlowId, nat>
    ghost var log: seq<Ended>

    ghost function View(): Shell
      reads this
    {
      Shell(now, pending, connectors, timers, nextId, era, starting, callbackPort, armed, log)
    }

    /** Stored or ended exactly once, a timer for each stored flow, no clock past its allowance. */
    ghost predicate Valid()
      reads this
    {
      Inv(View())
    }

    constructor ()
      ensures Valid() && View() == BOOT
    {
      now, pending, connectors, timers, nextId, era, starting, callbackPort := 0, None, [], map[], 0, 0, None, None;
      armed, log := map[], [];
      new;
      BootIsSafe();
    }

    method MakeFlow(kind: Kind, win: Window) returns (flow: Flow)
      modifies this`nextId
      ensures flow == Flow(old(nextId), kind, win, None) && nextId == old(nextId) + 1
    {
      flow := Flow(nextId, kind, win, None);
      nextId := nextId + 1;
    }

    method StartClock(id: FlowId)
      modifies this`timers
      ensures timers == old(timers)[id := now + FLOW_TIMEOUT]
    {
      timers := timers[id := now + FLOW_TIMEOUT];
    }

    method ClearTimer(id: FlowId)
      modifies this`timers
      ensures timers == old(timers) - {id}
    {
      timers := timers - {id};
    }

    /** Runs a flow's finish callback; what it does to its window is not modelled. */
    method Finish(flow: Flow, ghost cause: Cause)
      modifies this`log
      ensures log == old(log) + [Ended(flow.id, cause, true)]
    {
      log := log + [Ended(flow.id, cause, true)];
    }

    /** The new flow owns the slot; one it displaces is told so only when another window took it. */
    method ArmSigninFlow(win: Window) returns (flow: Flow)
      requires Valid() && callbackPort.Some?
      modifies this
      ensures Valid() && View() == Step(old(View()), Signing(win))
      ensures SlotTaken(old(View()), View(), win, flow)
    {
      hide Inv, SlotTaken;
      SigninEnters(View(), win);
      StepKeepsInv(View(), Signing(win));
      if pending.Some? {
        ClearTimer(pending.value.id);
        if pending.value.win != win {
          Finish(pending.value, ByOtherWindow);
        } else {
          log := log + [Ended(pending.value.id, BySameWindow, false)];
        }
        pending := None;
      }
      flow := MakeFlow(Signin, win);
      StartClock(flow.id);
      armed := armed[flow.id := now];
      pending := Some(flow);
    }

    /** Connector flows displace nobody; a ninth is refused. */
    method ArmConnectorFlow(win: Window) returns (flow: Option<Flow>)
      requires Valid() && callbackPort.Some?
      modifies this
      ensures Valid() && View() == Step(old(View()), Connecting(win))
      ensures ConnectorTaken(old(View()), View(), win, if flow.Some? then Some(flow.value.id) else None)
      ensures flow.Some? ==> flow.value in connectors
    {
      hide Inv, ConnectorTaken;
      StepKeepsInv(View(), Connecting(win));
      ConnectorEnters(View(), win);
      if |connectors| >= MAX_CONNECTOR_FLOWS {
        return None;
      }
      var f := MakeFlow(Connector, win);
      StartClock(f.id);
      armed := armed[f.id := now];
      connectors := connectors + [f];
      flow := Some(f);
    }

    method Remove(flow: Flow)
      modifies this`connectors
      ensures connectors == Without(old(connectors), flow.id)
    {
      connectors := Without(connectors, flow.id);
    }

    method ConnectorFlowFor(state: string) returns (flow: Option<Flow>)
      ensures flow == FlowFor(connectors, state)
    {
      if state == "" {
        return None;
      }
      var i := 0;
      while i < |connectors|
        invariant 0 <= i <= |connectors|
        invariant FlowFor(connectors, state) == FlowFor(connectors[i..], state)
      {
        if connectors[i].state == Some(state) {
          return Some(connectors[i]);
        }
        i := i + 1;
      }
      flow := None;
    }

    /** Spends the one flow the request reaches, answers 404 or stale and changes nothing otherwise. */
    method OnCallback(request: Request) returns (answer: Answer)
      requires Valid()
      modifies this
      ensures Valid() && View() == Step(old(View()), Arriving(request))
      ensures CallbackTaken(old(View()), View(), request, answer)
    {
      hide Shapes, Accounted, Clocked, CallbackTaken;
      CallbackMeans(View(), request);
      StepKeepsInv(View(), Arriving(request));
      hide Inv;
      if request.kind.None? || (!request.code && !request.detail) {
        return NotFound;
      }
      if request.repeats {
        return NotFound;
      }
      if !request.navigation {
        return NotFound;
      }
      var flow: Option<Flow> := None;
      if request.kind == Some(Connector) {
        flow := ConnectorFlowFor(request.state);
      } else {
        flow := pending;
      }
      if flow.None? {
        return Stale;
      }
      if request.kind == Some(Signin) {
        pending := None;
      } else {
        Remove(flow.value);
      }
      ClearTimer(flow.value.id);
      Finish(flow.value, ByCallback);
      answer := Served(flow.value.id);
    }

    /** A timer that runs out ends its own flow: the guard against a flow already gone never bites. */
    method OnTimer(id: FlowId)
      requires Valid() && id in timers && timers[id] <= now
      modifies this
      ensures Valid() && View() == Step(old(View()), Firing(id))
      ensures Spent(old(View()), View(), id, ByTimeout, true)
    {
      hide Inv, Spent;
      FireMeans(View(), id);
      StepKeepsInv(View(), Firing(id));
      ClearTimer(id);
      if pending.Some? && pending.value.id == id {
        var flow := pending.value;
        pending := None;
        Finish(flow, ByTimeout);
      } else {
        var flow := Lookup(connectors, id);
        if flow.Some? {
          Remove(flow.value);
          Finish(flow.value, ByTimeout);
        }
      }
    }

    /** The sign-in a browser refused is over; any other flow, a later sign-in included, goes on. */
    method OnBrowserRefused(id: FlowId)
      requires Valid()
      modifies this
      ensures Valid() && View() == Step(old(View()), Refused(id))
      ensures old(pending).Some? && old(pending).value.id == id ==>
          Spent(old(View()), View(), id, ByBrowserRefusal, true)
      ensures old(pending).None? || old(pending).value.id != id ==> View() == old(View())
    {
      if pending.Some? { PendingSpent(View(), ByBrowserRefusal); }
      hide Inv, Spent;
      StepKeepsInv(View(), Refused(id));
      if pending.None? || pending.value.id != id {
        return;
      }
      var flow := pending.value;
      ClearTimer(id);
      pending := None;
      Finish(flow, ByBrowserRefusal);
    }

    /** Binds exactly the asking window's own flow, and only its first bind restarts its clock. */
    method Bind(win: Window, id: FlowId, state: string) returns (ok: bool)
      requires Valid()
      modifies this
      ensures Valid() && View() == Step(old(View()), Binding(win, id, state))
      ensures BindTaken(old(View()), View(), win, id, state, ok)
    {
      hide Inv, BindTaken;
      BindMeans(View(), win, id, state);
      StepKeepsInv(View(), Binding(win, id, state));
      var flow := Lookup(connectors, id);
      if flow.None? || flow.value.win != win || state == "" {
        return false;
      }
      if flow.value.state.None? {
        StartClock(id);
      }
      connectors := Bound(connectors, id, state);
      ok := true;
    }

    /** Ends exactly the asking window's own flow, unreported. */
    method Cancel(win: Window, id: FlowId) returns (ok: bool)
      requires Valid()
      modifies this
      ensures Valid() && View() == Step(old(View()), Cancelling(win, id))
      ensures CancelTaken(old(View()), View(), win, id, ok)
    {
      hide Inv, CancelTaken;
      CancelMeans(View(), win, id);
      StepKeepsInv(View(), Cancelling(win, id));
      var flow := Lookup(connectors, id);
      if flow.None? || flow.value.win != win {
        return false;
      }
      ClearTimer(flow.value.id);
      Remove(flow.value);
      log := log + [Ended(flow.value.id, ByCancel, false)];
      ok := true;
    }

    /** Afterwards a listener is up or exactly one start is under way, a new one exactly when neither
        was; no flow is touched. */
    method Ensure()
      requires Valid()
      modifies this
      ensures Valid() && View() == Step(old(View()), Ensuring)
      ensures callbackPort.Some? || starting.Some?
      ensures starting == if old(callbackPort).None? && old(starting).None? then Some(era) else old(starting)
      ensures View() == old(View()).(starting := starting)
    {
      StepKeepsInv(View(), Ensuring);
      hide Inv;
      if callbackPort.Some? {
        return;
      }
      if starting.None? {
        starting := Some(era);
      }
    }

    /** A listener comes up exactly when a start begun since the last stop has bound its port. */
    method OnStartSettled(bound: Option<nat>)
      requires Valid()
      modifies this
      ensures Valid() && View() == Step(old(View()), Settling(bound))
      ensures starting.None? && View() == old(View()).(starting := None, port := callbackPort)
      ensures old(starting) == Some(era) && bound.Some? ==> callbackPort == bound
      ensures old(starting) != Some(era) || bound.None? ==> callbackPort == old(callbackPort)
    {
      StepKeepsInv(View(), Settling(bound));
      hide Inv;
      if starting.Some? {
        var mine := starting.value;
        starting := None;
        if bound.Some? && mine == era {
          callbackPort := bound;
        }
      }
    }

    /** Clears the connectors' timers one by one. */
    method ClearConnectorTimers()
      modifies this`timers, this`log
      ensures timers == old(timers) - set f | f in connectors :: f.id
      ensures log == old(log) + Stops(connectors)
    {
      for i := 0 to |connectors|
        invariant timers == old(timers) - set f | f in connectors[..i] :: f.id
        invariant log == old(log) + Stops(connectors)[..i]
      {
        assert connectors[..i + 1] == connectors[..i] + [connectors[i]];
        ClearTimer(connectors[i].id);
        log := log + [Ended(connectors[i].id, ByStop, false)];
      }
      assert connectors[..|connectors|] == connectors;
      assert Stops(connectors)[..|connectors|] == Stops(connectors);
    }

    /** No flow is left and no timer runs on for one: every timer there was belonged to a flow. */
    method StopServer()
      requires Valid()
      modifies this
      ensures Valid() && View() == Step(old(View()), Stopping)
      ensures AllStopped(old(View()), View())
    {
      hide Inv, AllStopped, Stops;
      StopMeans(View());
      StepKeepsInv(View(), Stopping);
      TimersAreForFlows(View());
      era := era + 1;
      if pending.Some? {
        log := log + [Ended(pending.value.id, ByStop, false)];
        ClearTimer(pending.value.id);
        pending := None;
      }
      ClearConnectorTimers();
      assert timers == map[];
      assert old(log) + [] == old(log);
      connectors := [];
      callbackPort := None;
    }
  }
}
