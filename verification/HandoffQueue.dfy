/** handOff of desktop/src/oauth.js: deliveries to the one window, queued behind one another, each
    wait bounded by a timer that runs from the moment the delivery was queued. */
module HandoffQueue {
  import opened Options

  const HANDOFF_TIMEOUT: nat := 30000

  /** One delivery: when it was queued, what it waits on, when its step started and settled, and
      when it let the next one go. */
  datatype Entry = Entry(
    arrived: nat, era: nat, waitsOn: Option<nat>, started: Option<nat>, settled: Option<nat>, released: Option<nat>)

  datatype Queue = Queue(now: nat, era: nat, entries: seq<Entry>, handoff: Option<nat>)

  const EMPTY: Queue := Queue(0, 0, [], None)

  datatype Event = Tick(ms: nat) | Arrive | Settle(i: nat) | Expire(i: nat) | Stop

  /** Lets entry i's successor go: it starts now, and a queue nobody follows empties. */
  function Release(q: Queue, i: nat): Queue
    requires i < |q.entries|
  {
    var freed := q.entries[i := q.entries[i].(released := Some(q.now))];
    var next := i + 1;
    q.(
      entries := if next < |freed| && freed[next].waitsOn == Some(i)
          then freed[next := freed[next].(started := Some(q.now))] else freed,
      handoff := if q.handoff == Some(i) then None else q.handoff)
  }

  function Arriving(q: Queue): Queue {
    q.(
      entries := q.entries
          + [Entry(q.now, q.era, q.handoff, if q.handoff.None? then Some(q.now) else None, None, None)],
      handoff := Some(|q.entries|))
  }

  function Settling(q: Queue, i: nat): Queue
    requires i < |q.entries|
  {
    var q1 := q.(entries := q.entries[i := q.entries[i].(settled := Some(q.now))]);
    if q.entries[i].released.Some? then q1 else Release(q1, i)
  }

  function Stopping(q: Queue): Queue { q.(era := q.era + 1, handoff := None) }

  /** Timers are punctual and fire in the order they fall due, ties in the order they were set. */
  predicate Possible(q: Queue, e: Event) {
    match e
    case Tick(ms) => forall i :: 0 <= i < |q.entries| && q.entries[i].released.None? ==>
        q.now + ms <= q.entries[i].arrived + HANDOFF_TIMEOUT
    case Settle(i) => i < |q.entries| && q.entries[i].started.Some? && q.entries[i].settled.None?
    case Expire(i) =>
      && i < |q.entries| && q.entries[i].released.None? && q.entries[i].arrived + HANDOFF_TIMEOUT <= q.now
      && forall j :: 0 <= j < i ==> q.entries[j].released.Some?
    case _ => true
  }

  function Step(q: Queue, e: Event): Queue
    requires Possible(q, e)
  {
    match e
    case Tick(ms) => q.(now := q.now + ms)
    case Arrive => Arriving(q)
    case Settle(i) => Settling(q, i)
    case Expire(i) => Release(q, i)
    case Stop => Stopping(q)
  }

  ghost predicate Run(from: Queue, events: seq<Event>, to: Queue)
    decreases |events|
  {
    if events == [] then from == to
    else Possible(from, events[0]) && Run(Step(from, events[0]), events[1..], to)
  }

  // ----- the invariant -----

  /** Each entry on its own. */
  ghost predicate EntryOk(now: nat, era: nat, e: Entry) {
    && e.arrived <= now && e.era <= era
    && (e.started.Some? ==> e.arrived <= e.started.value <= now)
    && (e.waitsOn.None? ==> e.started == Some(e.arrived))
    && (e.settled.Some? ==> e.started.Some? && e.started.value <= e.settled.value <= now && e.released.Some?)
    && (e.released.Some? ==>
          && e.started.Some? && e.started.value <= e.released.value <= e.arrived + HANDOFF_TIMEOUT
              && e.released.value <= now
          && (e.settled == e.released || (e.released.value == e.arrived + HANDOFF_TIMEOUT
                                          && (e.settled.Some? ==> e.released.value <= e.settled.value))))
    && (e.released.None? ==> now <= e.arrived + HANDOFF_TIMEOUT)
  }

  /** Each entry against the one before it. */
  ghost predicate LinkOk(a: Entry, b: Entry, i: nat) {
    && a.arrived <= b.arrived && a.era <= b.era
    && (b.waitsOn.Some? ==>
        b.waitsOn == Some(i) && a.era == b.era && b.started == a.released
        && (a.released.Some? ==> b.arrived <= a.released.value))
    && (b.waitsOn.None? && a.era == b.era ==> a.released.Some? && a.released.value <= b.arrived)
  }

  ghost predicate Inv(q: Queue) {
    && (forall i :: 0 <= i < |q.entries| ==> EntryOk(q.now, q.era, q.entries[i]))
    && (forall i :: 0 < i < |q.entries| ==> LinkOk(q.entries[i - 1], q.entries[i], i - 1))
    && (q.entries != [] ==> q.entries[0].waitsOn.None?)
    && (q.handoff.Some? ==> q.handoff.value + 1 == |q.entries| && q.entries[q.handoff.value].era == q.era
                            && q.entries[q.handoff.value].released.None?)
    && (q.handoff.None? && q.entries != [] ==>
        q.entries[|q.entries| - 1].era < q.era || q.entries[|q.entries| - 1].released.Some?)
  }

  lemma {:induction false} ReleaseKeepsInv(q: Queue, i: nat)
    requires Inv(q) && i < |q.entries| && q.entries[i].released.None? && q.entries[i].started.Some?
    requires q.now == q.entries[i].arrived + HANDOFF_TIMEOUT
    ensures Inv(Release(q, i))
  {
    var q' := Release(q, i);
    forall j | 0 < j < |q.entries| ensures LinkOk(q'.entries[j - 1], q'.entries[j], j - 1) {
      assert LinkOk(q.entries[j - 1], q.entries[j], j - 1);
    }
    if i + 1 < |q.entries| { assert LinkOk(q.entries[i], q.entries[i + 1], i); }
  }

  lemma {:induction false} LateSettleKeepsInv(q: Queue, i: nat)
    requires Inv(q) && Possible(q, Settle(i)) && q.entries[i].released.Some?
    ensures Inv(Settling(q, i))
  {
    var q' := Settling(q, i);
    assert EntryOk(q.now, q.era, q.entries[i]);
    forall j | 0 < j < |q.entries| ensures LinkOk(q'.entries[j - 1], q'.entries[j], j - 1) {
      assert LinkOk(q.entries[j - 1], q.entries[j], j - 1);
    }
  }

  /** Settling lets the next one go: entries i and i + 1 change, every other stays. */
  ghost predicate Settled(q: Queue, i: nat, fs: seq<Entry>)
    requires i < |q.entries|
  {
    var es := q.entries;
    && |fs| == |es|
    && (forall j :: 0 <= j < |es| && j != i && j != i + 1 ==> fs[j] == es[j])
    && fs[i] == es[i].(settled := Some(q.now), released := Some(q.now))
    && (i + 1 < |es| ==> fs[i + 1] == if es[i + 1].waitsOn == Some(i) then es[i + 1].(started := Some(q.now))
        else es[i + 1])
  }

  lemma {:induction false} PromptSettleEntries(q: Queue, i: nat)
    requires i < |q.entries| && q.entries[i].released.None?
    ensures Settled(q, i, Settling(q, i).entries)
  {
  }

  lemma {:induction false} PromptSettleLinks(q: Queue, i: nat, fs: seq<Entry>)
    requires Inv(q) && Possible(q, Settle(i)) && q.entries[i].released.None? && Settled(q, i, fs)
    ensures forall j :: 0 <= j < |fs| ==> EntryOk(q.now, q.era, fs[j])
    ensures i + 1 < |fs| ==> LinkOk(fs[i], fs[i + 1], i)
    ensures i > 0 ==> LinkOk(fs[i - 1], fs[i], i - 1)
    ensures i + 2 < |fs| ==> LinkOk(fs[i + 1], fs[i + 2], i + 1)
  {
    assert EntryOk(q.now, q.era, q.entries[i]);
    if i > 0 { assert LinkOk(q.entries[i - 1], q.entries[i], i - 1); }
    if i + 1 < |q.entries| {
      assert LinkOk(q.entries[i], q.entries[i + 1], i) && EntryOk(q.now, q.era, q.entries[i + 1]);
    }
    if i + 2 < |q.entries| { assert LinkOk(q.entries[i + 1], q.entries[i + 2], i + 1); }
  }

  lemma {:induction false} PromptSettleKeepsInv(q: Queue, i: nat)
    requires Inv(q) && Possible(q, Settle(i)) && q.entries[i].released.None?
    ensures Inv(Settling(q, i))
  {
    PromptSettleEntries(q, i);
    PromptSettleLinks(q, i, Settling(q, i).entries);
    hide EntryOk, LinkOk;
    var es, fs := q.entries, Settling(q, i).entries;
    forall j | 0 < j < |fs| ensures LinkOk(fs[j - 1], fs[j], j - 1) {
      if j != i && j != i + 1 && j != i + 2 { assert LinkOk(es[j - 1], es[j], j - 1); }
    }
  }

  /** A delivery is never let go by its own timer before it has started: the one it waits on was
      queued no later, so that one's timer has gone first. */
  lemma {:induction false} ExpiredHasStarted(q: Queue, i: nat)
    requires Inv(q) && Possible(q, Expire(i))
    ensures q.entries[i].started.Some? && q.now == q.entries[i].arrived + HANDOFF_TIMEOUT
  {
    assert EntryOk(q.now, q.era, q.entries[i]);
    if i > 0 { assert LinkOk(q.entries[i - 1], q.entries[i], i - 1); }
  }

  lemma {:induction false} ArriveKeepsInv(q: Queue)
    requires Inv(q)
    ensures Inv(Arriving(q))
  {
    var q', n := Arriving(q), |q.entries|;
    forall j | 0 < j < |q'.entries| ensures LinkOk(q'.entries[j - 1], q'.entries[j], j - 1) {
      if j < n { assert LinkOk(q.entries[j - 1], q.entries[j], j - 1); }
      else { assert EntryOk(q.now, q.era, q.entries[n - 1]); }
    }
    forall j | 0 <= j < |q'.entries| ensures EntryOk(q'.now, q'.era, q'.entries[j]) {
      if j < n { assert EntryOk(q.now, q.era, q.entries[j]); }
    }
  }

  lemma {:induction false} StepKeepsInv(q: Queue, e: Event)
    requires Inv(q) && Possible(q, e)
    ensures Inv(Step(q, e))
  {
    match e
    case Arrive => ArriveKeepsInv(q);
    case Settle(i) => if q.entries[i].released.Some? { LateSettleKeepsInv(q, i); } else { PromptSettleKeepsInv(q, i); }
    case Expire(i) =>
      ExpiredHasStarted(q, i);
      ReleaseKeepsInv(q, i);
    case _ =>
      var q' := Step(q, e);
      forall j | 0 <= j < |q.entries| ensures EntryOk(q'.now, q'.era, q'.entries[j]) {
        assert EntryOk(q.now, q.era, q.entries[j]);
      }
      forall j | 0 < j < |q.entries| ensures LinkOk(q'.entries[j - 1], q'.entries[j], j - 1) {
        assert LinkOk(q.entries[j - 1], q.entries[j], j - 1);
      }
  }

  lemma {:induction false} EveryRunKeepsInv(from: Queue, events: seq<Event>, to: Queue)
    requires Inv(from) && Run(from, events, to)
    ensures Inv(to)
    decreases |events|
  {
    if events == [] {
    } else {
      StepKeepsInv(from, events[0]);
      EveryRunKeepsInv(Step(from, events[0]), events[1..], to);
    }
  }

  // ----- what every run gives -----

  /** However long the queue, a delivery starts within 30 seconds of being queued. */
  lemma {:induction false} StartsAreBounded(events: seq<Event>, q: Queue, i: nat)
    requires Run(EMPTY, events, q) && i < |q.entries|
    ensures q.entries[i].started.Some? ==>
        q.entries[i].arrived <= q.entries[i].started.value <= q.entries[i].arrived + 30000
    ensures q.entries[i].started.None? ==> q.now <= q.entries[i].arrived + 30000
  {
    EveryRunKeepsInv(EMPTY, events, q);
    assert EntryOk(q.now, q.era, q.entries[i]);
    if i > 0 {
      assert EntryOk(q.now, q.era, q.entries[i - 1]);
      assert LinkOk(q.entries[i - 1], q.entries[i], i - 1);
    }
  }

  /** Between two stops of the listener, deliveries start in the order they were queued. */
  lemma {:induction false} StartsAreInOrder(events: seq<Event>, q: Queue, i: nat, j: nat)
    requires Run(EMPTY, events, q) && i < j < |q.entries| && q.entries[i].era == q.entries[j].era
    requires q.entries[j].started.Some?
    ensures q.entries[i].started.Some? && q.entries[i].started.value <= q.entries[j].started.value
    decreases j - i
  {
    EveryRunKeepsInv(EMPTY, events, q);
    OrderHolds(q, i, j);
  }

  lemma {:induction false} OrderHolds(q: Queue, i: nat, j: nat)
    requires Inv(q) && i < j < |q.entries| && q.entries[i].era == q.entries[j].era
    requires q.entries[j].started.Some?
    ensures q.entries[i].released.Some? && q.entries[i].started.Some?
        && q.entries[i].started.value <= q.entries[i].released.value <= q.entries[j].started.value
    decreases j - i
  {
    ErasAscend(q, i, j - 1);
    assert LinkOk(q.entries[j - 1], q.entries[j], j - 1);
    assert EntryOk(q.now, q.era, q.entries[j - 1]) && EntryOk(q.now, q.era, q.entries[j]);
    if i < j - 1 { OrderHolds(q, i, j - 1); }
  }

  lemma {:induction false} ErasAscend(q: Queue, i: nat, j: nat)
    requires Inv(q) && i <= j < |q.entries|
    ensures q.entries[i].era <= q.entries[j].era
    decreases j
  {
    if i < j {
      ErasAscend(q, i, j - 1);
      assert LinkOk(q.entries[j - 1], q.entries[j], j - 1);
    }
  }

  /** Two deliveries queued one after the other under one listener do not overlap exactly when the
      first settles within 30 seconds of being queued, or before the second is queued. How long its
      step itself took does not matter. */
  lemma {:induction false} NeighboursOverlapExactly(events: seq<Event>, q: Queue, i: nat)
    requires Run(EMPTY, events, q) && i + 1 < |q.entries| && q.entries[i].era == q.entries[i + 1].era
    requires q.entries[i].settled.Some? && q.entries[i + 1].started.Some?
    ensures var settled := q.entries[i].settled.value;
            settled <= q.entries[i + 1].started.value <==>
            settled <= q.entries[i].arrived + 30000 || settled <= q.entries[i + 1].arrived
  {
    EveryRunKeepsInv(EMPTY, events, q);
    assert EntryOk(q.now, q.era, q.entries[i]) && EntryOk(q.now, q.era, q.entries[i + 1]);
    assert LinkOk(q.entries[i], q.entries[i + 1], i);
  }

  /** If a delivery settles within 30 seconds of being queued, no later one under the same listener
      starts before it has. */
  lemma {:induction false} PromptDeliveriesNeverOverlap(events: seq<Event>, q: Queue, i: nat, j: nat)
    requires Run(EMPTY, events, q) && i < j < |q.entries| && q.entries[i].era == q.entries[j].era
    requires q.entries[j].started.Some?
    requires q.entries[i].settled.Some? && q.entries[i].settled.value <= q.entries[i].arrived + 30000
    ensures q.entries[i].settled.value <= q.entries[j].started.value
  {
    EveryRunKeepsInv(EMPTY, events, q);
    OrderHolds(q, i, j);
    assert EntryOk(q.now, q.era, q.entries[i]);
  }

  lemma {:induction false} RunOn(from: Queue, events: seq<Event>, mid: Queue, e: Event)
    requires Run(from, events, mid) && Possible(mid, e)
    ensures Run(from, events + [e], Step(mid, e))
    decreases |events|
  {
    if events == [] {
    } else {
      assert (events + [e])[1..] == events[1..] + [e];
      RunOn(Step(from, events[0]), events[1..], mid, e);
    }
  }

  lemma {:induction false} Extend(events: seq<Event>, q: Queue, e: Event) returns (longer: seq<Event>, next: Queue)
    requires Run(EMPTY, events, q) && Possible(q, e)
    ensures longer == events + [e] && next == Step(q, e) && Run(EMPTY, longer, next)
  {
    longer, next := events + [e], Step(q, e);
    RunOn(EMPTY, events, q, e);
  }

  /** Three deliveries queued a second apart, the first settling after 20 seconds. */
  lemma {:induction false} FirstOfThreeSettles() returns (events: seq<Event>, q: Queue)
    ensures Run(EMPTY, events, q)
    ensures q == Queue(20000, 0,
        [Entry(0, 0, None, Some(0), Some(20000), Some(20000)), Entry(1000, 0, Some(0), Some(20000), None, None),
                                  Entry(2000, 0, Some(1), None, None, None)], Some(2))
  {
    var a := Entry(0, 0, None, Some(0), None, None);
    var b := Entry(1000, 0, Some(0), None, None, None);
    assert Run(EMPTY, [], EMPTY);
    hide Run;
    events, q := Extend([], EMPTY, Arrive);
    events, q := Extend(events, q, Tick(1000));
    events, q := Extend(events, q, Arrive);
    events, q := Extend(events, q, Tick(1000));
    assert q == Queue(2000, 0, [a, b], Some(1));
    events, q := Extend(events, q, Arrive);
    events, q := Extend(events, q, Tick(18000));
    events, q := Extend(events, q, Settle(0));
  }

  /** Then the third starts while the second is still under way, although each step takes 20 seconds:
      the second's 30 seconds ran while it waited its turn. */
  lemma {:induction false} ShortStepsCanOverlap() returns (events: seq<Event>, q: Queue)
    ensures Run(EMPTY, events, q) && |q.entries| == 3
    ensures q.entries[1].started == Some(20000) && q.entries[1].settled == Some(40000)
    ensures q.entries[2].started == Some(31000) && q.entries[2].era == q.entries[1].era
  {
    events, q := FirstOfThreeSettles();
    hide Run;
    var a := q.entries[0];
    events, q := Extend(events, q, Tick(11000));
    events, q := Extend(events, q, Expire(1));
    assert q == Queue(31000, 0,
        [a, Entry(1000, 0, Some(0), Some(20000), None, Some(31000)), Entry(2000, 0, Some(1), Some(31000), None, None)],
        Some(2));
    events, q := Extend(events, q, Tick(1000));
    events, q := Extend(events, q, Expire(2));
    events, q := Extend(events, q, Tick(8000));
    events, q := Extend(events, q, Settle(1));
  }

  // ----- what one event does, whatever the queue -----

  /** Nothing of this listener is still holding the window. */
  ghost predicate WindowFree(q: Queue) {
    forall j :: 0 <= j < |q.entries| && q.entries[j].era == q.era ==> q.entries[j].released.Some?
  }

  lemma {:induction false} ReleasedBefore(q: Queue, i: nat, j: nat)
    requires Inv(q) && i <= j < |q.entries| && q.entries[i].era == q.entries[j].era && q.entries[j].released.Some?
    ensures q.entries[i].released.Some?
  {
    assert EntryOk(q.now, q.era, q.entries[j]);
    if i < j { OrderHolds(q, i, j); }
  }

  /** The one field that is read says exactly whether the window is free. */
  lemma {:induction false} HandoffMeansBusy(q: Queue)
    requires Inv(q)
    ensures q.handoff.None? <==> WindowFree(q)
  {
    if q.handoff.None? && q.entries != [] {
      var last := |q.entries| - 1;
      forall j | 0 <= j < |q.entries| && q.entries[j].era == q.era ensures q.entries[j].released.Some? {
        ErasAscend(q, j, last);
        assert EntryOk(q.now, q.era, q.entries[last]);
        ReleasedBefore(q, j, last);
      }
    }
  }

  /** A delivery starts the moment it is queued exactly when the window is free; otherwise it waits on
      the one queued just before it. */
  ghost predicate QueuedUp(a: Queue, b: Queue) {
    && |b.entries| == |a.entries| + 1 && b.entries[..|a.entries|] == a.entries
    && var e := b.entries[|a.entries|];
       && e.arrived == a.now && e.era == a.era && e.settled.None? && e.released.None?
       && (e.started == if WindowFree(a) then Some(a.now) else None)
       && (e.waitsOn == if WindowFree(a) || a.entries == [] then None else Some(|a.entries| - 1))
  }

  lemma {:induction false} ArrivingMeans(q: Queue)
    requires Inv(q)
    ensures QueuedUp(q, Arriving(q))
  {
    HandoffMeansBusy(q);
    hide EntryOk, LinkOk, WindowFree;
    assert Arriving(q).entries[..|q.entries|] == q.entries;
  }

  /** Entry i lets the window go now, the one waiting on it starts now, and no other entry changes. */
  ghost predicate LetGo(a: Queue, b: Queue, i: nat) {
    && i < |a.entries| && |b.entries| == |a.entries|
    && b.entries[i].released == Some(a.now)
    && (i + 1 < |a.entries| && a.entries[i + 1].waitsOn == Some(i) ==>
        b.entries[i + 1] == a.entries[i + 1].(started := Some(a.now)))
    && (i + 1 < |a.entries| && a.entries[i + 1].waitsOn != Some(i) ==> b.entries[i + 1] == a.entries[i + 1])
    && (forall j :: 0 <= j < |a.entries| && j != i && j != i + 1 ==> b.entries[j] == a.entries[j])
    && (i + 1 == |a.entries| ==> WindowFree(b))
  }

  lemma {:induction false} SettlingMeans(q: Queue, i: nat)
    requires Inv(q) && Possible(q, Settle(i))
    ensures Inv(Settling(q, i))
    ensures if q.entries[i].released.None? then LetGo(q, Settling(q, i), i)
            else Settling(q, i) == q.(entries := q.entries[i := q.entries[i].(settled := Some(q.now))])
  {
    StepKeepsInv(q, Settle(i));
    HandoffMeansBusy(Settling(q, i));
    HandoffMeansBusy(q);
    assert EntryOk(q.now, q.era, q.entries[i]);
    hide Inv, EntryOk, LinkOk, WindowFree;
    LastHolds(q);
  }

  lemma {:induction false} ExpiringMeans(q: Queue, i: nat)
    requires Inv(q) && Possible(q, Expire(i))
    ensures LetGo(q, Release(q, i), i) && q.now == q.entries[i].arrived + HANDOFF_TIMEOUT
  {
    ExpiredHasStarted(q, i);
    StepKeepsInv(q, Expire(i));
    HandoffMeansBusy(Release(q, i));
    hide Inv, EntryOk, LinkOk, WindowFree;
    LastHolds(q);
  }

  lemma {:induction false} LastHolds(q: Queue)
    ensures Inv(q) && q.handoff.Some? ==> q.handoff.value + 1 == |q.entries|
  {
  }

  // ----- the module state itself -----

  class Deliveries {
    var now: nat
    var era: nat
    var entries: seq<Entry>
    var handoff: Option<nat>

    ghost function View(): Queue
      reads this
    {
      Queue(now, era, entries, handoff)
    }

    /** Each delivery waits on the one before it, and is let go by its settling or its 30 seconds. */
    ghost predicate Valid()
      reads this
    {
      Inv(View())
    }

    constructor ()
      ensures Valid() && View() == EMPTY
    {
      now, era, entries, handoff := 0, 0, [], None;
    }

    method StartStep(i: nat)
      requires i < |entries|
      modifies this`entries
      ensures entries == old(entries)[i := old(entries)[i].(started := Some(now))]
    {
      entries := entries[i := entries[i].(started := Some(now))];
    }

    /** Straight through exactly when the window is free, behind the last delivery otherwise. */
    method HandOff()
      requires Valid()
      modifies this
      ensures Valid() && View() == Step(old(View()), Arrive)
      ensures QueuedUp(old(View()), View())
    {
      hide Inv, QueuedUp;
      ArrivingMeans(View());
      StepKeepsInv(View(), Arrive);
      var i := |entries|;
      entries := entries + [Entry(now, era, handoff, None, None, None)];
      if handoff.None? {
        StartStep(i);
      }
      assert entries == old(entries)
          + [Entry(now, era, handoff, if handoff.None? then Some(now) else None, None, None)];
      handoff := Some(i);
    }

    /** The queued promise of delivery i resolves. */
    method Resolve(i: nat)
      requires i < |entries|
      modifies this
      ensures View() == Release(old(View()), i)
    {
      entries := entries[i := entries[i].(released := Some(now))];
      if handoff == Some(i) {
        handoff := None;
      }
      if i + 1 < |entries| && entries[i + 1].waitsOn == Some(i) {
        StartStep(i + 1);
      }
    }

    /** A step that settles in time lets the next one go; one that settles late changes nothing more. */
    method OnSettled(i: nat)
      requires Valid() && Possible(View(), Settle(i))
      modifies this
      ensures Valid() && View() == Step(old(View()), Settle(i))
      ensures entries[i].settled == Some(now)
      ensures old(entries)[i].released.None? ==> LetGo(old(View()), View(), i)
      ensures old(entries)[i].released.Some? ==> entries == old(entries)[i := entries[i]] && handoff == old(handoff)
    {
      hide Inv, LetGo;
      SettlingMeans(View(), i);
      entries := entries[i := entries[i].(settled := Some(now))];
      if entries[i].released.None? {
        Resolve(i);
      }
    }

    /** The timer of delivery i runs out, 30 seconds after it was queued: the next one need not wait. */
    method OnTimeout(i: nat)
      requires Valid() && Possible(View(), Expire(i))
      modifies this
      ensures Valid() && View() == Step(old(View()), Expire(i))
      ensures LetGo(old(View()), View(), i) && now == old(entries)[i].arrived + HANDOFF_TIMEOUT
    {
      hide LetGo;
      ExpiringMeans(View(), i);
      StepKeepsInv(View(), Expire(i));
      hide Inv;
      Resolve(i);
    }

    /** After a stop the window is free for the next listener, whatever the old deliveries still do. */
    method OnStop()
      requires Valid()
      modifies this
      ensures Valid() && View() == Step(old(View()), Stop)
      ensures WindowFree(View()) && entries == old(entries)
      ensures forall j :: 0 <= j < |entries| ==> entries[j].era < era
    {
      StepKeepsInv(View(), Stop);
      HandoffMeansBusy(Stopping(View()));
      assert forall j :: 0 <= j < |entries| ==> EntryOk(now, era, entries[j]);
      hide Inv, WindowFree, LinkOk;
      era := era + 1;
      handoff := None;
    }
  }
}
