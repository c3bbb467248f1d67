/** What one event of the OAuth shell means for the flows, said of the states before and after it. */
module OAuthEvents {
  import opened Options
  import opened OAuthFlows
  import opened OAuthInvariant

  /** Flow id alone is over: out of the store, its timer with it, its end on record; every other flow,
      every other timer and the listener are as they were. */
  ghost predicate Spent(a: Shell, b: Shell, id: FlowId, cause: Cause, finished: bool) {
    && id in Stored(a) && Stored(b) == Stored(a) - {id}
    && (forall f :: f in b.connectors <==> f in a.connectors && f.id != id)
    && (b.pending == if a.pending.Some? && a.pending.value.id == id then None else a.pending)
    && b.timers == a.timers - {id} && b.log == a.log + [Ended(id, cause, finished)]
    && b.now == a.now && b.nextId == a.nextId && b.era == a.era && b.starting == a.starting && b.port == a.port
        && b.armed == a.armed
  }

  /** A new flow is stored, unbound, with a full clock of its own; no other timer moved. */
  ghost predicate Entered(a: Shell, b: Shell, flow: Flow) {
    && flow.id !in Stored(a) && flow.id !in Logged(a) && flow.state.None?
    && (flow in b.connectors || b.pending == Some(flow))
    && flow.id in b.timers && b.timers[flow.id] == a.now + FLOW_TIMEOUT
    && flow.id in b.armed && b.armed[flow.id] == a.now
    && (forall id :: id in b.timers && id != flow.id ==> id in a.timers && b.timers[id] == a.timers[id])
    && b.now == a.now && b.era == a.era && b.starting == a.starting && b.port == a.port
  }

  lemma {:induction false} PendingSpent(s: Shell, cause: Cause)
    requires Shapes(s) && s.pending.Some?
    ensures Spent(s, EndPending(s, s.pending.value, cause), s.pending.value.id, cause, true)
  {
    forall f | f in s.connectors ensures f.id != s.pending.value.id { }
  }

  lemma {:induction false} ConnectorSpent(s: Shell, f: Flow, cause: Cause, finished: bool)
    requires Shapes(s) && f in s.connectors
    ensures Spent(s, EndConnector(s, f, cause, finished), f.id, cause, finished)
  {
    var s' := EndConnector(s, f, cause, finished);
    assert f.id in Stored(s);
    forall id ensures id in Stored(s') <==> id in Stored(s) && id != f.id {
      if id in Stored(s) && id != f.id && !(s.pending.Some? && s.pending.value.id == id) {
        var g :| g in s.connectors && g.id == id;
        assert g in s'.connectors;
      }
    }
  }

  /** The new sign-in owns the slot; the one it displaces is told so only when another window took it. */
  ghost predicate SlotTaken(a: Shell, b: Shell, win: Window, flow: Flow) {
    && b.pending == Some(flow) && flow.kind == Signin && flow.win == win && Entered(a, b, flow)
        && b.connectors == a.connectors
    && match a.pending
       case None => b.log == a.log
       case Some(p) =>
         && p.id !in b.timers && a.log < b.log && |b.log| == |a.log| + 1 && b.log[|a.log|].id == p.id
         && (b.log[|a.log|].finished <==> p.win != win)
  }

  lemma {:induction false} SigninEnters(s: Shell, win: Window)
    requires Inv(s)
    ensures ArmSignin(s, win).pending.Some? && SlotTaken(s, ArmSignin(s, win), win, ArmSignin(s, win).pending.value)
  {
    assert s.nextId !in Stored(s) && s.nextId !in Logged(s);
    hide Logged;
  }

  /** A connector is armed exactly when fewer than eight are, and displaces nobody. */
  ghost predicate ConnectorTaken(a: Shell, b: Shell, win: Window, id: Option<FlowId>) {
    && (id.Some? <==> |a.connectors| < MAX_CONNECTOR_FLOWS) && (id.None? ==> b == a)
    && (id.Some? ==>
          && b.connectors == a.connectors + [Flow(id.value, Connector, win, None)]
          && Entered(a, b, Flow(id.value, Connector, win, None)) && b.pending == a.pending && b.log == a.log)
  }

  lemma {:induction false} ConnectorEnters(s: Shell, win: Window)
    requires Inv(s)
    ensures ConnectorTaken(s, ArmConnector(s, win).0, win, ArmConnector(s, win).1)
  {
    assert s.nextId !in Stored(s) && s.nextId !in Logged(s);
    var f := Flow(s.nextId, Connector, win, None);
    assert f in s.connectors + [f];
    hide Logged;
  }

  /** A callback worth looking at: on a flow's path, with a code or a detail, each parameter once, and a
      navigation. */
  predicate Proper(r: Request) { r.kind.Some? && (r.code || r.detail) && !r.repeats && r.navigation }

  /** Whom a request reaches: a connector by the state it carries, a sign-in by the one slot. */
  ghost predicate Reaches(s: Shell, r: Request, id: FlowId) {
    && Proper(r)
    && if r.kind.value.Connector? then exists f ::
        f in s.connectors && f.id == id && f.state == Some(r.state) && r.state != ""
       else s.pending.Some? && s.pending.value.id == id
  }

  /** The request spends one flow it reaches; it reaches none exactly when nothing is served, and is told
      its flow is over exactly when it was a proper callback. */
  ghost predicate CallbackTaken(a: Shell, b: Shell, r: Request, answer: Answer) {
    (answer.NotFound? <==> !Proper(r)) &&
    if answer.Served? then Reaches(a, r, answer.id) && Spent(a, b, answer.id, ByCallback, true)
    else b == a && forall id :: !Reaches(a, r, id)
  }

  lemma {:induction false} CallbackMeans(s: Shell, r: Request)
    requires Shapes(s)
    ensures CallbackTaken(s, HandleCallback(s, r).0, r, HandleCallback(s, r).1)
  {
    hide Shapes, Spent;
    match HandleCallback(s, r).1
    case Served(id) =>
      if r.kind.value.Connector? {
        ConnectorSpent(s, FlowFor(s.connectors, r.state).value, ByCallback, true);
      } else {
        PendingSpent(s, ByCallback);
      }
    case _ =>
  }

  /** A timer that runs out ends its own flow, whichever store holds it. */
  lemma {:induction false} FireMeans(s: Shell, id: FlowId)
    requires Inv(s) && id in s.timers
    ensures Spent(s, Fire(s, id), id, ByTimeout, true)
  {
    if s.pending.Some? && s.pending.value.id == id {
      PendingSpent(s, ByTimeout);
    } else {
      assert id in Stored(s);
      ConnectorSpent(s, Lookup(s.connectors, id).value, ByTimeout, true);
    }
  }

  /** A bind names exactly the asking window's flow; only its first one moves a clock, its own. */
  ghost predicate BoundOnly(a: Shell, b: Shell, id: FlowId, state: string) {
    && Stored(b) == Stored(a) && |b.connectors| == |a.connectors|
    && (forall i :: 0 <= i < |a.connectors| ==>
          if a.connectors[i].id == id then b.connectors[i] == a.connectors[i].(state := Some(state))
              else b.connectors[i] == a.connectors[i])
    && id in a.timers && b.timers.Keys == a.timers.Keys
    && (forall i :: i in a.timers && i != id ==> b.timers[i] == a.timers[i])
    && (forall f :: f in a.connectors && f.id == id ==>
        b.timers[id] == if f.state.None? then a.now + FLOW_TIMEOUT else a.timers[id])
    && b == a.(connectors := b.connectors, timers := b.timers)
  }

  /** A bind goes through exactly for the asking window's own flow and a state worth binding. */
  ghost predicate BindTaken(a: Shell, b: Shell, win: Window, id: FlowId, state: string, ok: bool) {
    && (ok <==> state != "" && exists f :: f in a.connectors && f.id == id && f.win == win)
    && if ok then BoundOnly(a, b, id, state) else b == a
  }

  lemma {:induction false} LookupFindsOnly(s: Shell, id: FlowId)
    requires Shapes(s)
    ensures forall f :: f in s.connectors && f.id == id ==> Lookup(s.connectors, id) == Some(f)
  {
    forall f | f in s.connectors && f.id == id ensures Lookup(s.connectors, id) == Some(f) {
      OneFlowPerId(s.connectors, f, Lookup(s.connectors, id).value);
    }
  }

  lemma {:induction false} BindMeans(s: Shell, win: Window, id: FlowId, state: string)
    requires Inv(s)
    ensures BindTaken(s, BindMcp(s, win, id, state).0, win, id, state, BindMcp(s, win, id, state).1)
  {
    LookupFindsOnly(s, id);
    if Lookup(s.connectors, id).Some? {
      BoundKeepsIds(s.connectors, id, state);
      assert id in Stored(s);
    }
  }

  /** A cancel goes through exactly for the asking window's own flow, and is not reported to it. */
  ghost predicate CancelTaken(a: Shell, b: Shell, win: Window, id: FlowId, ok: bool) {
    && (ok <==> exists f :: f in a.connectors && f.id == id && f.win == win)
    && if ok then Spent(a, b, id, ByCancel, false) else b == a
  }

  lemma {:induction false} CancelMeans(s: Shell, win: Window, id: FlowId)
    requires Inv(s)
    ensures CancelTaken(s, CancelMcp(s, win, id).0, win, id, CancelMcp(s, win, id).1)
  {
    LookupFindsOnly(s, id);
    var found := Lookup(s.connectors, id);
    if found.Some? { ConnectorSpent(s, found.value, ByCancel, false); }
    hide Spent;
  }

  /** No flow and no timer is left; each flow that was stored is on record as stopped, unreported; a
      start under way belongs to an era that is over. */
  ghost predicate AllStopped(a: Shell, b: Shell) {
    && b.pending.None? && b.connectors == [] && b.timers == map[] && b.port.None?
    && Logged(b) == Logged(a) + Stored(a)
    && a.log <= b.log && (forall e :: e in b.log[|a.log|..] ==> e.cause == ByStop && !e.finished)
    && (b.starting.Some? ==> b.starting.value < b.era)
  }

  lemma {:induction false} AllEnded(s: Shell, s': Shell)
    requires Accounted(s) && Accounted(s') && s'.nextId == s.nextId && Stored(s') == {}
    ensures Logged(s') == Logged(s) + Stored(s)
  {
    hide Stored, Logged;
    forall id: FlowId ensures id in Logged(s') <==> id in Logged(s) + Stored(s) { }
  }

  lemma {:induction false} StopLog(s: Shell) returns (stops: seq<Ended>)
    ensures Stop(s).log == s.log + stops && forall e :: e in stops ==> e.cause == ByStop && !e.finished
  {
    stops := (if s.pending.Some? then [Ended(s.pending.value.id, ByStop, false)] else []) + Stops(s.connectors);
    assert Stop(s).log == s.log + stops;
  }

  lemma {:induction false} StopMeans(s: Shell)
    requires Inv(s)
    ensures AllStopped(s, Stop(s))
  {
    StopKeepsInv(s);
    AllEnded(s, Stop(s));
    var stops := StopLog(s);
    assert s.starting.Some? ==> s.starting.value <= s.era;
    hide Inv, Shapes, Accounted, Clocked, Stored, Logged, Stops;
    assert Stop(s).log[|s.log|..] == stops;
  }

  lemma {:induction false} TimersAreForFlows(s: Shell)
    requires Inv(s)
    ensures s.timers.Keys <= (set f | f in s.connectors :: f.id) + if s.pending.Some? then {s.pending.value.id} else {}
  {
    assert s.timers.Keys == Stored(s);
  }
}
