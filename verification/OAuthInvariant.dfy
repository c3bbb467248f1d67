/** What every interleaving of the OAuth shell's events keeps. */
module OAuthInvariant {
  import opened Options
  import opened OAuthFlows

  // ----- bookkeeping -----

  lemma {:induction false} WithoutKeepsDistinct(fs: seq<Flow>, id: FlowId)
    requires DistinctFlows(fs)
    ensures DistinctFlows(Without(fs, id))
  {
    if fs == [] {
    } else {
      WithoutKeepsDistinct(fs[1..], id);
      if fs[0].id != id {
        var rest := Without(fs[1..], id);
        forall j | 0 <= j < |rest| ensures rest[j].id != fs[0].id {
          assert rest[j] in fs[1..];
        }
      }
    }
  }

  /** Ending a flow that is stored moves its id, alone, from the stored to the ended. */
  lemma {:induction false} EndingKeepsInv(s: Shell, s': Shell, id: FlowId, e: Ended)
    requires Inv(s) && id in Stored(s) && e.id == id
    requires Shapes(s') && Stored(s') == Stored(s) - {id}
    requires s'.log == s.log + [e] && s'.timers == s.timers - {id}
    requires s'.now == s.now && s'.nextId == s.nextId && s'.armed == s.armed
    requires forall f :: f in s'.connectors ==> f in s.connectors
    requires s'.pending.Some? ==> s'.pending == s.pending
    ensures Inv(s')
  {
    assert Logged(s') == Logged(s) + {id};
    forall i, j | 0 <= i < j < |s'.log| ensures s'.log[i].id != s'.log[j].id {
      if j == |s.log| { assert s.log[i].id in Logged(s); }
    }
    assert s'.timers.Keys == Stored(s');
  }

  lemma {:induction false} EndConnectorKeepsInv(s: Shell, f: Flow, cause: Cause, finished: bool)
    requires Inv(s) && f in s.connectors
    ensures Inv(EndConnector(s, f, cause, finished))
  {
    var s' := EndConnector(s, f, cause, finished);
    WithoutKeepsDistinct(s.connectors, f.id);
    assert Stored(s') == Stored(s) - {f.id} by {
      forall g | g in s.connectors ensures g.id != f.id ==> g in s'.connectors {}
    }
    EndingKeepsInv(s, s', f.id, Ended(f.id, cause, finished));
  }

  lemma {:induction false} EndPendingKeepsInv(s: Shell, cause: Cause, finished: bool)
    requires Inv(s) && s.pending.Some?
    ensures var f := s.pending.value;
            Inv(s.(pending := None, timers := s.timers - {f.id}, log := s.log + [Ended(f.id, cause, finished)]))
  {
    var f := s.pending.value;
    var s' := s.(pending := None, timers := s.timers - {f.id}, log := s.log + [Ended(f.id, cause, finished)]);
    assert Stored(s') == Stored(s) - {f.id};
    EndingKeepsInv(s, s', f.id, Ended(f.id, cause, finished));
  }

  /** Arming stores one flow under a fresh id with a fresh timer. */
  lemma {:induction false} ArmingKeepsInv(s: Shell, s': Shell, f: Flow)
    requires Inv(s) && f.id == s.nextId
    requires Shapes(s') && Stored(s') == Stored(s) + {f.id}
    requires s'.log == s.log && s'.now == s.now && s'.nextId == s.nextId + 1
    requires s'.timers == s.timers[f.id := s.now + FLOW_TIMEOUT] && s'.armed == s.armed[f.id := s.now]
    requires forall g :: g in s'.connectors && g.id != f.id ==> g in s.connectors
    requires s'.pending.Some? && s'.pending.value.id != f.id ==> s'.pending == s.pending
    ensures Inv(s')
  {
    assert f.id !in Stored(s) + Logged(s);
  }

  lemma {:induction false} ArmSigninKeepsInv(s: Shell, win: Window)
    requires Inv(s) && s.port.Some?
    ensures Inv(ArmSignin(s, win))
  {
    var cleared := s;
    hide Clocked;
    if s.pending.Some? {
      var cause := if s.pending.value.win != win then ByOtherWindow else BySameWindow;
      var finished := s.pending.value.win != win;
      cleared := s.(pending := None, timers := s.timers - {s.pending.value.id},
          log := s.log + [Ended(s.pending.value.id, cause, finished)]);
      EndPendingKeepsInv(s, cause, finished);
    }
    var s' := ArmSignin(s, win);
    assert s'.nextId == cleared.nextId + 1;
    forall f | f in cleared.connectors ensures f.id != cleared.nextId { assert f.id in Stored(cleared); }
    assert Stored(s') == Stored(cleared) + {cleared.nextId};
    ArmingKeepsInv(cleared, s', s'.pending.value);
  }

  lemma {:induction false} ArmConnectorKeepsInv(s: Shell, win: Window)
    requires Inv(s) && s.port.Some?
    ensures Inv(ArmConnector(s, win).0)
  {
    if |s.connectors| < MAX_CONNECTOR_FLOWS {
      var f := Flow(s.nextId, Connector, win, None);
      var s' := ArmConnector(s, win).0;
      forall g | g in s.connectors ensures g.id != f.id { assert g.id in Stored(s); }
      if s.pending.Some? { assert s.pending.value.id in Stored(s); }
      assert f in s'.connectors;
      assert Stored(s') == Stored(s) + {f.id};
      forall i, j | 0 <= i < j < |s'.connectors| ensures s'.connectors[i].id != s'.connectors[j].id {
        if j == |s.connectors| { assert s.connectors[i] in s.connectors; }
      }
      ArmingKeepsInv(s, s', f);
    }
  }

  lemma {:induction false} BoundFrom(fs: seq<Flow>, id: FlowId, state: string, h: Flow) returns (g: Flow)
    requires h in Bound(fs, id, state)
    ensures g in fs && g.id == h.id && g.kind == h.kind && h == if g.id == id then g.(state := Some(state)) else g
  {
    var i :| 0 <= i < |fs| && Bound(fs, id, state)[i] == h;
    g := fs[i];
  }

  function Ids(fs: seq<Flow>): set<FlowId> { set f | f in fs :: f.id }

  lemma {:induction false} BoundKeepsIds(fs: seq<Flow>, id: FlowId, state: string)
    ensures Ids(Bound(fs, id, state)) == Ids(fs)
  {
    var gs := Bound(fs, id, state);
    forall n | n in Ids(fs) ensures n in Ids(gs) {
      var i :| 0 <= i < |fs| && fs[i].id == n;
      assert gs[i] in gs;
    }
    forall n | n in Ids(gs) ensures n in Ids(fs) {
      var h :| h in gs && h.id == n;
      var g := BoundFrom(fs, id, state, h);
    }
  }

  lemma {:induction false} BindKeepsShapes(s: Shell, s': Shell, id: FlowId, state: string)
    requires Shapes(s) && s'.connectors == Bound(s.connectors, id, state)
    requires s'.pending == s.pending && s'.port == s.port && s'.starting == s.starting && s'.era == s.era
    ensures Shapes(s') && Stored(s') == Stored(s)
  {
    BoundKeepsIds(s.connectors, id, state);
    assert Stored(s') == Ids(s'.connectors) + if s.pending.Some? then {s.pending.value.id} else {};
    assert Stored(s) == Ids(s.connectors) + if s.pending.Some? then {s.pending.value.id} else {};
    forall h | h in s'.connectors ensures h.kind == Connector && (s.pending.Some? ==> h.id != s.pending.value.id) {
      var g := BoundFrom(s.connectors, id, state, h);
    }
  }

  lemma {:induction false} ConnectorIsClocked(s: Shell, f: Flow)
    requires Clocked(s) && f in s.connectors
    ensures f.id in s.timers && f.id in s.armed && s.armed[f.id] <= s.now <= s.timers[f.id]
    ensures s.timers[f.id] <= s.armed[f.id] + Allowance(f)
  {
    assert f.id in Stored(s);
  }

  lemma {:induction false} SigninIsClocked(s: Shell)
    requires Shapes(s) && Clocked(s) && s.pending.Some?
    ensures s.pending.value.id in s.timers && forall f :: f in s.connectors ==> f.id != s.pending.value.id
  {
    assert s.pending.value.id in Stored(s);
  }

  lemma {:induction false} BindKeepsClocks(s: Shell, s': Shell, f: Flow, state: string)
    requires Shapes(s) && Clocked(s) && f in s.connectors
    requires s' == s.(connectors := Bound(s.connectors, f.id, state),
                      timers := if f.state.None? then s.timers[f.id := s.now + FLOW_TIMEOUT] else s.timers)
    requires Stored(s') == Stored(s)
    ensures Clocked(s')
  {
    hide Stored, Bound;
    ConnectorIsClocked(s, f);
    forall h | h in s'.connectors ensures h.id in s'.timers && s'.timers[h.id] <= s'.armed[h.id] + Allowance(h) {
      var g := BoundFrom(s.connectors, f.id, state, h);
      OneFlowPerId(s.connectors, f, g);
      ConnectorIsClocked(s, g);
    }
    assert s'.timers.Keys == s.timers.Keys;
    if s.pending.Some? { SigninIsClocked(s); }
  }

  lemma {:induction false} AccountedAlike(s: Shell, s': Shell)
    requires Accounted(s) && Stored(s') == Stored(s) && s'.log == s.log && s'.nextId == s.nextId
    ensures Accounted(s')
  {
    assert Logged(s') == Logged(s);
  }

  lemma {:induction false} BoundKeepsInv(s: Shell, s': Shell, f: Flow, state: string)
    requires Inv(s) && f in s.connectors
    requires s' == s.(connectors := Bound(s.connectors, f.id, state),
                      timers := if f.state.None? then s.timers[f.id := s.now + FLOW_TIMEOUT] else s.timers)
    ensures Inv(s')
  {
    BindKeepsShapes(s, s', f.id, state);
    hide Shapes;
    AccountedAlike(s, s');
    hide Accounted;
    BindKeepsClocks(s, s', f, state);
  }

  lemma {:induction false} BindKeepsInv(s: Shell, win: Window, id: FlowId, state: string)
    requires Inv(s)
    ensures Inv(BindMcp(s, win, id, state).0)
  {
    hide Shapes, Accounted, Clocked;
    match Lookup(s.connectors, id)
    case None =>
    case Some(f) =>
      if f.win == win && state != "" { BoundKeepsInv(s, BindMcp(s, win, id, state).0, f, state); }
  }

  lemma {:induction false} OneFlowPerId(fs: seq<Flow>, f: Flow, g: Flow)
    requires DistinctFlows(fs) && f in fs && g in fs
    ensures f.id == g.id ==> f == g
  {
  }

  lemma {:induction false} StopLogs(s: Shell)
    ensures Logged(Stop(s)) == Logged(s) + Stored(s)
  {
    var s' := Stop(s);
    var head := if s.pending.Some? then [Ended(s.pending.value.id, ByStop, false)] else [];
    var tail := Stops(s.connectors);
    assert s'.log == s.log + head + tail;
    forall id ensures id in Logged(s') <==> id in Logged(s) + Stored(s) {
      if id in Stored(s) && !(s.pending.Some? && s.pending.value.id == id) {
        var f :| f in s.connectors && f.id == id;
        var i :| 0 <= i < |s.connectors| && s.connectors[i] == f;
        assert tail[i] in s'.log;
      }
      if s.pending.Some? && s.pending.value.id == id { assert head[0] in s'.log; }
      if id in Logged(s) {
        var e :| e in s.log && e.id == id;
        assert e in s'.log;
      }
      if e :| e in s'.log && e.id == id {
        if e in tail {
          var i :| 0 <= i < |tail| && tail[i] == e;
          assert s.connectors[i] in s.connectors;
        }
      }
    }
  }

  lemma {:induction false} StopLogDistinct(s: Shell)
    requires Inv(s)
    ensures forall i, j :: 0 <= i < j < |Stop(s).log| ==> Stop(s).log[i].id != Stop(s).log[j].id
  {
    hide Clocked, Allowance;
    var log := Stop(s).log;
    var n, m := |s.log|, |log| - |s.connectors|;
    forall i | 0 <= i < |log|
      ensures i < n ==> log[i].id in Logged(s)
      ensures i >= n ==> log[i].id in Stored(s)
      ensures i >= m ==> log[i].id == s.connectors[i - m].id
    {
      if i >= m { assert s.connectors[i - m] in s.connectors; }
      if i < n { assert log[i] == s.log[i]; }
    }
    forall i, j | 0 <= i < j < |log| ensures log[i].id != log[j].id {
      if m <= i {
      } else if m <= j && n <= i {
        assert s.connectors[j - m] in s.connectors;
      } else if j < n {
        assert log[i] == s.log[i] && log[j] == s.log[j];
      }
    }
  }

  lemma {:induction false} StopKeepsInv(s: Shell)
    requires Inv(s)
    ensures Inv(Stop(s))
  {
    hide Logged, Stored, Stops;
    StopLogs(s);
    StopLogDistinct(s);
    StopStoresNothing(s);
  }

  lemma {:induction false} StopStoresNothing(s: Shell)
    ensures Stored(Stop(s)) == {}
  {
  }

  lemma {:induction false} CallbackKeepsInv(s: Shell, r: Request)
    requires Inv(s)
    ensures Inv(HandleCallback(s, r).0)
  {
    match HandleCallback(s, r).1
    case Served(id) =>
      if r.kind.value.Connector? {
        EndConnectorKeepsInv(s, FlowFor(s.connectors, r.state).value, ByCallback, true);
      } else {
        EndPendingKeepsInv(s, ByCallback, true);
      }
    case _ =>
  }

  lemma {:induction false} FireKeepsInv(s: Shell, id: FlowId)
    requires Inv(s) && id in s.timers
    ensures Inv(Fire(s, id))
  {
    if s.pending.Some? && s.pending.value.id == id {
      EndPendingKeepsInv(s, ByTimeout, true);
    } else {
      assert Lookup(s.connectors, id).Some?;
      EndConnectorKeepsInv(s, Lookup(s.connectors, id).value, ByTimeout, true);
    }
  }

  lemma {:induction false} StepKeepsInv(s: Shell, e: Event)
    requires Inv(s) && Possible(s, e)
    ensures Inv(Step(s, e))
  {
    hide Shapes, Accounted, Clocked;
    match e
    case Signing(win) => ArmSigninKeepsInv(s, win);
    case Connecting(win) => ArmConnectorKeepsInv(s, win);
    case Binding(win, id, state) => BindKeepsInv(s, win, id, state);
    case Arriving(r) => CallbackKeepsInv(s, r);
    case Firing(id) => FireKeepsInv(s, id);
    case Stopping => StopKeepsInv(s);
    case Refused(id) =>
      if BrowserRefused(s, id) != s { EndPendingKeepsInv(s, ByBrowserRefusal, true); }
    case Cancelling(win, id) =>
      if CancelMcp(s, win, id).1 { EndConnectorKeepsInv(s, Lookup(s.connectors, id).value, ByCancel, false); }
    case _ => QuietStepKeepsInv(s, e);
  }

  lemma {:induction false} QuietStepKeepsInv(s: Shell, e: Event)
    requires Inv(s) && Possible(s, e) && (e.Tick? || e.Ensuring? || e.Settling?)
    ensures Inv(Step(s, e))
  {
    var s' := Step(s, e);
    assert Stored(s') == Stored(s);
    AccountedAlike(s, s');
    hide Accounted;
  }

  /** The invariant holds after every run from boot. */
  lemma {:induction false} EveryRunKeepsInv(from: Shell, events: seq<Event>, to: Shell)
    requires Inv(from) && Run(from, events, to)
    ensures Inv(to)
    decreases |events|
  {
    if events == [] {
    } else {
      StepKeepsInv(from, events[0]);
      EveryRunKeepsInv(Step(from, events[0]), events[1..], to);
    }
  }

  lemma {:induction false} BootIsSafe()
    ensures Inv(BOOT)
  {
  }

  // ----- what the invariant means over whole runs -----

  /** In every reachable state at most eight connectors are armed, a timer runs for exactly the
      stored flows, each flow ever armed is either stored or has ended, and none ended twice. */
  lemma {:induction false} FlowsAreAccountedFor(events: seq<Event>, s: Shell)
    requires Run(BOOT, events, s)
    ensures |s.connectors| <= 8
    ensures s.timers.Keys == Stored(s)
    ensures forall id: FlowId :: id < s.nextId <==> id in Stored(s) || id in Logged(s)
    ensures Stored(s) !! Logged(s)
    ensures forall i, j :: 0 <= i < j < |s.log| ==> s.log[i].id != s.log[j].id
    ensures s.port.None? ==> Stored(s) == {}
  {
    BootIsSafe();
    EveryRunKeepsInv(BOOT, events, s);
  }

  /** A stored sign-in is younger than one timeout, a connector than two, however often it was
      bound: only the first bind restarts its clock. */
  lemma {:induction false} FlowsDoNotOutliveTheirTime(events: seq<Event>, s: Shell)
    requires Run(BOOT, events, s)
    ensures s.pending.Some? ==> s.pending.value.id in s.armed && s.now - s.armed[s.pending.value.id] <= 600000
    ensures forall f :: f in s.connectors ==>
              f.id in s.armed && s.now - s.armed[f.id] <= (if f.state.None? then 600000 else 1200000)
  {
    BootIsSafe();
    EveryRunKeepsInv(BOOT, events, s);
    forall f | f in s.connectors ensures f.id in Stored(s) {}
  }

  /** A timer's closure always finds its own flow still stored: its staleness guard never bites. */
  lemma {:induction false} TimersNeverMiss(events: seq<Event>, s: Shell, id: FlowId)
    requires Run(BOOT, events, s) && id in s.timers
    ensures Fire(s, id).log == s.log + [Ended(id, ByTimeout, true)]
  {
    FlowsAreAccountedFor(events, s);
  }

  /** A connector callback spends exactly the one flow bound to its state, and touches no other;
      an unbound flow, a sign-in and every other connector are left as they were. */
  lemma {:induction false} CallbackSpendsItsOwnFlow(events: seq<Event>, s: Shell, r: Request)
    requires Run(BOOT, events, s) && r.kind == Some(Connector)
    ensures var (s', answer) := HandleCallback(s, r);
            match answer
            case Served(id) =>
              && s'.pending == s.pending
              && (exists f :: f in s.connectors && f.id == id && f.state == Some(r.state) && r.state != "")
              && (forall f :: f in s'.connectors <==> f in s.connectors && f.id != id)
              && (forall f :: f in s.connectors && f.id != id ==>
                  f.id in s'.timers && f.id in s.timers && s'.timers[f.id] == s.timers[f.id])
              && s'.log == s.log + [Ended(id, ByCallback, true)]
            case _ => s' == s
  {
    FlowsAreAccountedFor(events, s);
    forall f | f in s.connectors ensures f.id in s.timers {
      assert f.id in Stored(s);
    }
  }

  /** A start overtaken by a stop never brings a listener up: not even one asked for again while
      the overtaken start was still under way. */
  lemma {:induction false} OvertakenStartStaysDown(events: seq<Event>, s: Shell, bound: Option<nat>)
    requires Run(BOOT, events, s) && s.starting.Some?
    ensures EnsureServer(Stop(s)) == Stop(s)
    ensures StartSettled(Stop(s), bound).port.None?
  {
    BootIsSafe();
    EveryRunKeepsInv(BOOT, events, s);
  }

  // ----- the listener -----

  /** What a step that settles no start does to the listener and to the start under way. */
  lemma {:induction false} StepKeepsStart(s: Shell, e: Event)
    requires Possible(s, e) && !e.Settling?
    ensures var s' := Step(s, e);
            && s'.era == s.era + (if e.Stopping? then 1 else 0)
            && s'.port == (if e.Stopping? then None else s.port)
            && (s.starting.Some? ==> s'.starting == s.starting)
  {
  }

  /** While a start is under way nothing takes its place, and only a stop overtakes it. */
  lemma {:induction false} StartGoesOn(from: Shell, events: seq<Event>, to: Shell)
    requires Run(from, events, to) && from.starting.Some? && from.port.None?
    requires forall bound :: Settling(bound) !in events
    ensures to.starting == from.starting && to.port.None? && from.era <= to.era
    ensures to.era == from.era <==> Stopping !in events
    decreases |events|
  {
    if events == [] {
    } else {
      assert events[0] in events;
      StepKeepsStart(from, events[0]);
      hide Step, Possible;
      StartGoesOn(Step(from, events[0]), events[1..], to);
      assert events == [events[0]] + events[1..];
    }
  }

  /** A start asked for with no listener up, on the port it then binds, brings the listener up exactly
      when no stop came between. */
  lemma {:induction false} ListenerComesUpExactly(
    early: seq<Event>, s: Shell, between: seq<Event>, m: Shell, bound: Option<nat>)
    requires Run(BOOT, early, s) && s.port.None? && s.starting.None?
    requires Run(Step(s, Ensuring), between, m) && forall b :: Settling(b) !in between
    ensures Step(m, Settling(bound)).port == if Stopping !in between then bound else None
    ensures Step(m, Settling(bound)).starting.None?
  {
    StartGoesOn(Step(s, Ensuring), between, m);
  }

  /** A listener that is up stays up, on its port, until a stop. */
  lemma {:induction false} ListenerStaysUp(from: Shell, events: seq<Event>, to: Shell)
    requires Inv(from) && Run(from, events, to) && from.port.Some?
    requires Stopping !in events
    ensures to.port == from.port
    decreases |events|
  {
    if events == [] {
    } else {
      var e := events[0];
      assert e in events;
      StepKeepsInv(from, e);
      if e.Settling? {
        assert Step(from, e) == from;
      } else {
        StepKeepsStart(from, e);
      }
      hide Inv, Step, Possible;
      ListenerStaysUp(Step(from, e), events[1..], to);
    }
  }

  lemma {:induction false} StepKeepsLog(s: Shell, e: Event)
    requires Possible(s, e)
    ensures s.log <= Step(s, e).log
  {
  }

  /** How a flow ended never changes afterwards: the log only grows. */
  lemma {:induction false} EndsAreFinal(from: Shell, events: seq<Event>, to: Shell)
    requires Run(from, events, to)
    ensures from.log <= to.log
    decreases |events|
  {
    if events == [] {
    } else {
      StepKeepsLog(from, events[0]);
      hide Step;
      EndsAreFinal(Step(from, events[0]), events[1..], to);
    }
  }
}
