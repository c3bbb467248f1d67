/** The flow manager of desktop/src/oauth.js as a transition system over explicit time. */
module OAuthFlows {
  import opened Options

  const FLOW_TIMEOUT: nat := 600000
  const MAX_CONNECTOR_FLOWS: nat := 8

  type Window = nat
  type FlowId = nat

  datatype Kind = Signin | Connector
  datatype Flow = Flow(id: FlowId, kind: Kind, win: Window, state: Option<string>)

  /** Why a flow stopped being stored, and whether its `finish` ran. */
  datatype Cause = ByCallback | ByTimeout | ByOtherWindow | BySameWindow | ByCancel | ByStop | ByBrowserRefusal
  datatype Ended = Ended(id: FlowId, cause: Cause, finished: bool)

  /** A request on the loopback port, as far as the handler's decisions go. */
  datatype Request = Request(kind: Option<Kind>, code: bool, detail: bool, repeats: bool, navigation: bool,
      state: string)

  datatype Answer = NotFound | Stale | Served(id: FlowId)

  /** `armed` and `log` record history: when each flow was armed, and how each one ended. */
  datatype Shell = Shell(
    now: nat,
    pending: Option<Flow>,
    connectors: seq<Flow>,
    timers: map<FlowId, nat>,
    nextId: FlowId,
    era: nat,
    starting: Option<nat>,
    port: Option<nat>,
    armed: map<FlowId, nat>,
    log: seq<Ended>)

  const BOOT: Shell := Shell(0, None, [], map[], 0, 0, None, None, map[], [])

  // ----- connectors in insertion order -----

  function Without(fs: seq<Flow>, id: FlowId): (r: seq<Flow>)
    ensures forall f :: f in r <==> f in fs && f.id != id
    ensures |r| <= |fs|
  {
    if fs == [] then []
    else if fs[0].id == id then Without(fs[1..], id)
    else [fs[0]] + Without(fs[1..], id)
  }

  function Lookup(fs: seq<Flow>, id: FlowId): (r: Option<Flow>)
    ensures r.Some? ==> r.value in fs && r.value.id == id
    ensures r.None? ==> forall f :: f in fs ==> f.id != id
  {
    if fs == [] then None else if fs[0].id == id then Some(fs[0]) else Lookup(fs[1..], id)
  }

  /** The first armed flow that named this state; an unbound flow matches nothing. */
  function FlowFor(fs: seq<Flow>, state: string): (r: Option<Flow>)
    ensures r.Some? ==> r.value in fs && r.value.state == Some(state) && state != ""
    ensures r.None? ==> state == "" || forall f :: f in fs ==> f.state != Some(state)
  {
    if state == "" || fs == [] then None
    else if fs[0].state == Some(state) then Some(fs[0])
    else FlowFor(fs[1..], state)
  }

  function Bound(fs: seq<Flow>, id: FlowId, state: string): (r: seq<Flow>)
    ensures |r| == |fs|
    ensures forall i :: 0 <= i < |fs| ==> r[i] == if fs[i].id == id then fs[i].(state := Some(state)) else fs[i]
  {
    seq(|fs|, i requires 0 <= i < |fs| => if fs[i].id == id then fs[i].(state := Some(state)) else fs[i])
  }

  function Stops(fs: seq<Flow>): (r: seq<Ended>)
    ensures |r| == |fs| && forall i :: 0 <= i < |fs| ==> r[i] == Ended(fs[i].id, ByStop, false)
  {
    seq(|fs|, i requires 0 <= i < |fs| => Ended(fs[i].id, ByStop, false))
  }

  // ----- the handlers -----

  function Armed(s: Shell, f: Flow): Shell {
    s.(timers := s.timers[f.id := s.now + FLOW_TIMEOUT], nextId := s.nextId + 1, armed := s.armed[f.id := s.now])
  }

  /** A second sign-in takes the slot: silently from the same window, reported to another. */
  function ArmSignin(s: Shell, win: Window): Shell {
    var f := Flow(s.nextId, Signin, win, None);
    var cleared := match s.pending
      case None => s
      case Some(p) => s.(
        timers := s.timers - {p.id},
        log := s.log + [if p.win != win then Ended(p.id, ByOtherWindow, true) else Ended(p.id, BySameWindow, false)]);
    Armed(cleared, f).(pending := Some(f))
  }

  function ArmConnector(s: Shell, win: Window): (Shell, Option<FlowId>) {
    if |s.connectors| >= MAX_CONNECTOR_FLOWS then (s, None)
    else
      var f := Flow(s.nextId, Connector, win, None);
      (Armed(s, f).(connectors := s.connectors + [f]), Some(f.id))
  }

  function EndPending(s: Shell, f: Flow, cause: Cause): Shell {
    s.(pending := None, timers := s.timers - {f.id}, log := s.log + [Ended(f.id, cause, true)])
  }

  function EndConnector(s: Shell, f: Flow, cause: Cause, finished: bool): Shell {
    s.(connectors := Without(s.connectors, f.id), timers := s.timers - {f.id},
        log := s.log + [Ended(f.id, cause, finished)])
  }

  function BrowserRefused(s: Shell, id: FlowId): Shell {
    if s.pending.Some? && s.pending.value.id == id then EndPending(s, s.pending.value, ByBrowserRefusal) else s
  }

  /** Only the first bind restarts the clock. */
  function BindMcp(s: Shell, win: Window, id: FlowId, state: string): (Shell, bool) {
    match Lookup(s.connectors, id)
    case None => (s, false)
    case Some(f) =>
      if f.win != win || state == "" then (s, false)
      else (s.(
        connectors := Bound(s.connectors, id, state),
        timers := if f.state.None? then s.timers[id := s.now + FLOW_TIMEOUT] else s.timers), true)
  }

  function CancelMcp(s: Shell, win: Window, id: FlowId): (Shell, bool) {
    match Lookup(s.connectors, id)
    case None => (s, false)
    case Some(f) => if f.win != win then (s, false) else (EndConnector(s, f, ByCancel, false), true)
  }

  function HandleCallback(s: Shell, r: Request): (Shell, Answer) {
    if r.kind.None? || (!r.code && !r.detail) || r.repeats || !r.navigation then (s, NotFound)
    else if r.kind.value.Connector? then
      match FlowFor(s.connectors, r.state)
      case None => (s, Stale)
      case Some(f) => (EndConnector(s, f, ByCallback, true), Served(f.id))
    else
      match s.pending
      case None => (s, Stale)
      case Some(f) => (EndPending(s, f, ByCallback), Served(f.id))
  }

  /** A timer's closure runs: it acts only if its flow is still the one stored. */
  function Fire(s: Shell, id: FlowId): Shell {
    if s.pending.Some? && s.pending.value.id == id then EndPending(s, s.pending.value, ByTimeout)
    else match Lookup(s.connectors, id)
         case Some(f) => EndConnector(s, f, ByTimeout, true)
         case None => s.(timers := s.timers - {id})
  }

  function EnsureServer(s: Shell): Shell {
    if s.port.Some? || s.starting.Some? then s else s.(starting := Some(s.era))
  }

  /** A start settles; one overtaken by a stop closes what it opened. */
  function StartSettled(s: Shell, bound: Option<nat>): Shell {
    if s.starting.None? then s
    else if bound.Some? && s.starting.value == s.era then s.(starting := None, port := bound)
    else s.(starting := None)
  }

  function Stop(s: Shell): Shell {
    s.(
      era := s.era + 1, pending := None, connectors := [], timers := map[], port := None,
      log := s.log + (if s.pending.Some? then [Ended(s.pending.value.id, ByStop, false)] else []) + Stops(s.connectors))
  }

  // ----- runs -----

  datatype Event =
    | Tick(ms: nat)
    | Signing(win: Window)
    | Refused(id: FlowId)
    | Connecting(win: Window)
    | Binding(win: Window, id: FlowId, state: string)
    | Cancelling(win: Window, id: FlowId)
    | Arriving(request: Request)
    | Firing(id: FlowId)
    | Ensuring
    | Settling(bound: Option<nat>)
    | Stopping

  /** Timers are punctual: the clock does not pass one that is due. Flows are only armed with a
      listener up, and a timer only fires once it is due. */
  predicate Possible(s: Shell, e: Event) {
    match e
    case Tick(ms) => forall id :: id in s.timers ==> s.now + ms <= s.timers[id]
    case Signing(_) => s.port.Some?
    case Connecting(_) => s.port.Some?
    case Firing(id) => id in s.timers && s.timers[id] <= s.now
    case _ => true
  }

  function Step(s: Shell, e: Event): Shell {
    match e
    case Tick(ms) => s.(now := s.now + ms)
    case Signing(win) => ArmSignin(s, win)
    case Refused(id) => BrowserRefused(s, id)
    case Connecting(win) => ArmConnector(s, win).0
    case Binding(win, id, state) => BindMcp(s, win, id, state).0
    case Cancelling(win, id) => CancelMcp(s, win, id).0
    case Arriving(r) => HandleCallback(s, r).0
    case Firing(id) => Fire(s, id)
    case Ensuring => EnsureServer(s)
    case Settling(bound) => StartSettled(s, bound)
    case Stopping => Stop(s)
  }

  ghost predicate Run(from: Shell, events: seq<Event>, to: Shell)
    decreases |events|
  {
    if events == [] then from == to
    else Possible(from, events[0]) && Run(Step(from, events[0]), events[1..], to)
  }

  // ----- the invariant -----

  function Stored(s: Shell): set<FlowId> {
    (set f | f in s.connectors :: f.id) + if s.pending.Some? then {s.pending.value.id} else {}
  }

  function Logged(s: Shell): set<FlowId> { set e | e in s.log :: e.id }

  ghost predicate DistinctFlows(fs: seq<Flow>) { forall i, j :: 0 <= i < j < |fs| ==> fs[i].id != fs[j].id }

  ghost predicate Shapes(s: Shell) {
    && DistinctFlows(s.connectors)
    && (s.pending.Some? ==> s.pending.value.kind == Signin && forall f :: f in s.connectors ==>
        f.id != s.pending.value.id)
    && (forall f :: f in s.connectors ==> f.kind == Connector)
    && |s.connectors| <= MAX_CONNECTOR_FLOWS
    && (s.port.None? ==> s.pending.None? && s.connectors == [])
    && (s.starting.Some? ==> s.starting.value <= s.era && s.port.None?)
  }

  /** Every flow ever armed is stored or ended, never both, and ended at most once. */
  ghost predicate Accounted(s: Shell) {
    && (forall id: FlowId :: id in Stored(s) || id in Logged(s) <==> id < s.nextId)
    && Stored(s) !! Logged(s)
    && forall i, j :: 0 <= i < j < |s.log| ==> s.log[i].id != s.log[j].id
  }

  function Allowance(f: Flow): nat { if f.state.Some? then 2 * FLOW_TIMEOUT else FLOW_TIMEOUT }

  /** A timer runs for exactly the stored flows, and none is due later than its flow's allowance. */
  ghost predicate Clocked(s: Shell) {
    && s.timers.Keys == Stored(s)
    && Stored(s) <= s.armed.Keys
    && (forall id :: id in s.timers ==> s.armed[id] <= s.now <= s.timers[id])
    && (forall f :: f in s.connectors ==> s.timers[f.id] <= s.armed[f.id] + Allowance(f))
    && (s.pending.Some? ==> s.timers[s.pending.value.id] <= s.armed[s.pending.value.id] + FLOW_TIMEOUT)
  }

  ghost predicate Inv(s: Shell) { Shapes(s) && Accounted(s) && Clocked(s) }
}
