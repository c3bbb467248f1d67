/** The run table of migrations 017, 018 and 023: what its indexes, checks and trigger let through. */
module RunLedger {
  import opened Options

  type Id = nat

  datatype Status = InProgress | Interrupted | Completed | Error | Cancelled

  datatype Run = Run(
    thread: nat, turn: int, attempt: int, retryOf: Option<Id>, requestKey: nat,
    status: Status, cancelRequested: Option<nat>, created: nat, runSeq: nat)

  /** The rows by primary key, and the value the sequence hands out next. */
  datatype Ledger = Ledger(runs: map<Id, Run>, nextSeq: nat)

  datatype Op =
    | Insert(id: Id, run: Run)
    | Update(id: Id, status: Status, cancelRequested: Option<nat>)
    | Delete(ids: set<Id>)

  // ----- the constraints, over the whole table -----

  predicate AttemptOk(r: Run) { r.attempt >= 1 && (r.attempt == 1 <==> r.retryOf.None?) }

  /** What no two rows may share: the live slot, the attempt's place, the request key, the retried run. */
  predicate Apart(r: Run, s: Run) {
    && !(r.thread == s.thread && r.status == InProgress && s.status == InProgress)
    && !(r.thread == s.thread && r.turn == s.turn && r.attempt == s.attempt)
    && r.requestKey != s.requestKey
    && !(r.retryOf.Some? && r.retryOf == s.retryOf)
  }

  ghost predicate Constrained(runs: map<Id, Run>) {
    && (forall u :: u in runs ==> AttemptOk(runs[u]) && (runs[u].retryOf.Some? ==> runs[u].retryOf.value in runs))
    && (forall u, v :: u in runs && v in runs && u != v ==> Apart(runs[u], runs[v]))
  }

  // ----- what each statement checks, and does -----

  predicate Terminal(r: Run) { r.status != InProgress }

  /** The guard trigger, the checks, and a probe of each unique index. */
  predicate Inserts(runs: map<Id, Run>, id: Id, r: Run) {
    && r.status == InProgress && id !in runs && AttemptOk(r)
    && (r.retryOf.Some? ==> r.retryOf.value == id || r.retryOf.value in runs)
    && forall u :: u in runs ==> Apart(runs[u], r)
  }

  /** The guard trigger; an update of no row passes. */
  predicate Updates(runs: map<Id, Run>, id: Id, status: Status, cancelRequested: Option<nat>) {
    id in runs && Terminal(runs[id]) ==> status == runs[id].status && cancelRequested == runs[id].cancelRequested
  }

  /** Rows that stay must not retry a row that goes. */
  predicate Deletes(runs: map<Id, Run>, ids: set<Id>) {
    forall u :: u in runs && u !in ids && runs[u].retryOf.Some? ==> runs[u].retryOf.value !in ids
  }

  /** A statement lands, or is refused and leaves the rows alone; the sequence moves on either way. */
  function Step(l: Ledger, op: Op): Ledger {
    match op
    case Insert(id, r) =>
      Ledger(if Inserts(l.runs, id, r) then l.runs[id := r.(runSeq := l.nextSeq)] else l.runs, l.nextSeq + 1)
    case Update(id, status, cancelRequested) =>
      if id in l.runs && Updates(l.runs, id, status, cancelRequested)
      then l.(runs := l.runs[id := l.runs[id].(status := status, cancelRequested := cancelRequested)]) else l
    case Delete(ids) => if Deletes(l.runs, ids) then l.(runs := l.runs - ids) else l
  }

  function After(l: Ledger, ops: seq<Op>): Ledger
    decreases |ops|
  {
    if ops == [] then l else After(Step(l, ops[0]), ops[1..])
  }

  // ----- safety over every run of statements -----

  /** The sequence numbers runs: none from the future, none shared. */
  ghost predicate Numbered(l: Ledger) {
    && (forall u :: u in l.runs ==> l.runs[u].runSeq < l.nextSeq)
    && (forall u, v :: u in l.runs && v in l.runs && u != v ==> l.runs[u].runSeq != l.runs[v].runSeq)
  }

  ghost predicate Inv(l: Ledger) { Constrained(l.runs) && Numbered(l) }

  lemma {:induction false} InsertKeepsConstraints(l: Ledger, id: Id, r: Run)
    requires Constrained(l.runs) && Inserts(l.runs, id, r)
    ensures Constrained(l.runs[id := r.(runSeq := l.nextSeq)])
  {
    var after := l.runs[id := r.(runSeq := l.nextSeq)];
    forall u, v | u in after && v in after && u != v ensures Apart(after[u], after[v]) {
      if v == id { assert Apart(l.runs[u], r); }
      else if u == id { assert Apart(l.runs[v], r); }
    }
  }

  lemma {:induction false} UpdateKeepsConstraints(l: Ledger, id: Id, status: Status, cancelRequested: Option<nat>)
    requires Constrained(l.runs) && id in l.runs && Updates(l.runs, id, status, cancelRequested)
    ensures Constrained(l.runs[id := l.runs[id].(status := status, cancelRequested := cancelRequested)])
  {
    var after := l.runs[id := l.runs[id].(status := status, cancelRequested := cancelRequested)];
    forall u, v | u in after && v in after && u != v ensures Apart(after[u], after[v]) {
      assert Apart(l.runs[u], l.runs[v]);
    }
  }

  lemma {:induction false} StepKeepsConstraints(l: Ledger, op: Op)
    requires Constrained(l.runs)
    ensures Constrained(Step(l, op).runs)
  {
    match op
    case Insert(id, r) =>
      if Inserts(l.runs, id, r) { InsertKeepsConstraints(l, id, r); }
    case Update(id, status, cancelRequested) =>
      if id in l.runs && Updates(l.runs, id, status, cancelRequested) {
        UpdateKeepsConstraints(l, id, status, cancelRequested);
      }
    case Delete(_) =>
  }

  /** The trigger and the index probes refuse exactly the rows the constraints have no room for. */
  lemma {:induction false} InsertsExactly(runs: map<Id, Run>, id: Id, r: Run)
    requires Constrained(runs) && id !in runs
    ensures Inserts(runs, id, r) <==> r.status == InProgress && Constrained(runs[id := r])
  {
    if Inserts(runs, id, r) {
      InsertKeepsConstraints(Ledger(runs, r.runSeq), id, r);
      assert r.(runSeq := r.runSeq) == r;
    }
    if r.status == InProgress && Constrained(runs[id := r]) {
      forall u | u in runs ensures Apart(runs[u], r) { assert Apart(runs[id := r][u], runs[id := r][id]); }
      assert AttemptOk(runs[id := r][id]);
    }
  }

  lemma {:induction false} DeletesExactly(runs: map<Id, Run>, ids: set<Id>)
    requires Constrained(runs)
    ensures Deletes(runs, ids) <==> Constrained(runs - ids)
  {
    if Constrained(runs - ids) {
      forall u | u in runs && u !in ids && runs[u].retryOf.Some? ensures runs[u].retryOf.value !in ids {
        assert u in runs - ids;
      }
    }
  }

  lemma {:induction false} StepKeepsNumbers(l: Ledger, op: Op)
    requires Numbered(l)
    ensures Numbered(Step(l, op)) && l.nextSeq <= Step(l, op).nextSeq
  {
    hide Apart, Inserts, Updates, Deletes;
  }

  lemma {:induction false} StepKeepsInv(l: Ledger, op: Op)
    requires Inv(l)
    ensures Inv(Step(l, op)) && l.nextSeq <= Step(l, op).nextSeq
  {
    StepKeepsConstraints(l, op);
    StepKeepsNumbers(l, op);
  }

  lemma {:induction false} EveryRunKeepsInv(l: Ledger, ops: seq<Op>)
    requires Inv(l)
    ensures Inv(After(l, ops)) && l.nextSeq <= After(l, ops).nextSeq
    decreases |ops|
  {
    if ops == [] {
    } else {
      StepKeepsInv(l, ops[0]);
      EveryRunKeepsInv(Step(l, ops[0]), ops[1..]);
    }
  }

  /** At most one live run per thread, and at most one successor per attempt. */
  lemma {:induction false} OneSlotOneSuccessor(l: Ledger, ops: seq<Op>, u: Id, v: Id)
    requires Inv(l) && u in After(l, ops).runs && v in After(l, ops).runs
    ensures var rs := After(l, ops).runs;
            && (rs[u].thread == rs[v].thread && rs[u].status == rs[v].status == InProgress ==> u == v)
            && (rs[u].retryOf.Some? && rs[u].retryOf == rs[v].retryOf ==> u == v)
  {
    EveryRunKeepsInv(l, ops);
    if u != v { assert Apart(After(l, ops).runs[u], After(l, ops).runs[v]); }
  }

  /** The same row, by its place in the sequence, in both tables. */
  ghost predicate SameRow(a: Ledger, b: Ledger, id: Id) {
    id in a.runs && id in b.runs && a.runs[id].runSeq == b.runs[id].runSeq
  }

  /** The same row in both tables, ended runs untouched, others changed in status and cancel intent. */
  ghost predicate RowKept(a: Ledger, b: Ledger, id: Id) {
    && SameRow(a, b, id)
    && b.runs[id].(status := a.runs[id].status, cancelRequested := a.runs[id].cancelRequested) == a.runs[id]
    && (Terminal(a.runs[id]) ==> b.runs[id] == a.runs[id])
  }

  lemma {:induction false} StepKeepsRow(l: Ledger, op: Op, id: Id)
    requires Numbered(l) && id in Step(l, op).runs
    ensures Step(l, op).runs[id].runSeq == l.nextSeq || RowKept(l, Step(l, op), id)
    ensures SameRow(l, Step(l, op), id) ==> RowKept(l, Step(l, op), id)
  {
    hide Inserts, Deletes;
  }

  lemma {:induction false} NewRowsTakeNewNumbers(l: Ledger, ops: seq<Op>, id: Id)
    requires Inv(l) && id in After(l, ops).runs
    ensures SameRow(l, After(l, ops), id) || l.nextSeq <= After(l, ops).runs[id].runSeq
    decreases |ops|
  {
    if ops == [] {
    } else {
      StepKeepsInv(l, ops[0]);
      NewRowsTakeNewNumbers(Step(l, ops[0]), ops[1..], id);
      if SameRow(Step(l, ops[0]), After(l, ops), id) { StepKeepsRow(l, ops[0], id); }
    }
  }

  /** A row is one that was there before, or comes after every one there was. */
  lemma {:induction false} LaterRunsAreYounger(l: Ledger, ops: seq<Op>, id: Id, u: Id)
    requires Inv(l) && id in After(l, ops).runs && !SameRow(l, After(l, ops), id) && u in l.runs
    ensures l.runs[u].runSeq < After(l, ops).runs[id].runSeq
  {
    NewRowsTakeNewNumbers(l, ops, id);
  }

  /** However statements interleave, a run that has ended keeps its status and its cancel intent, and
      no statement touches what identifies a run. */
  lemma {:induction false} TerminalRunsAreFrozen(l: Ledger, ops: seq<Op>, id: Id)
    requires Inv(l) && SameRow(l, After(l, ops), id)
    ensures After(l, ops).runs[id].(status := l.runs[id].status, cancelRequested := l.runs[id].cancelRequested) ==
        l.runs[id]
    ensures l.runs[id].status != InProgress ==> After(l, ops).runs[id] == l.runs[id]
    decreases |ops|
  {
    if ops == [] {
    } else {
      var mid := Step(l, ops[0]);
      StepKeepsInv(l, ops[0]);
      NewRowsTakeNewNumbers(mid, ops[1..], id);
      StepKeepsRow(l, ops[0], id);
      TerminalRunsAreFrozen(mid, ops[1..], id);
    }
  }

  /** The first ending written to an open run is accepted and is the one that stays, whatever statements
      come after it. */
  lemma {:induction false} FirstEndingStays(l: Ledger, id: Id, status: Status,
      cancelRequested: Option<nat>, ops: seq<Op>)
    requires Inv(l) && id in l.runs && l.runs[id].status == InProgress && status != InProgress
    ensures var to := After(l, [Update(id, status, cancelRequested)] + ops);
            SameRow(l, to, id) ==>
              to.runs[id] == l.runs[id].(status := status, cancelRequested := cancelRequested)
  {
    var op := Update(id, status, cancelRequested);
    var mid := Step(l, op);
    assert ([op] + ops)[0] == op && ([op] + ops)[1..] == ops;
    StepKeepsInv(l, op);
    hide Inv, Inserts, Deletes;
    if SameRow(l, After(mid, ops), id) { TerminalRunsAreFrozen(mid, ops, id); }
  }

  // ----- retry chains -----

  /** A rank that falls along every retry but one naming itself: chains cannot run in circles. */
  ghost predicate Ranked(runs: map<Id, Run>, rank: map<Id, nat>) {
    && runs.Keys <= rank.Keys
    && forall u :: u in runs && runs[u].retryOf.Some? && runs[u].retryOf.value != u ==>
         runs[u].retryOf.value in runs && rank[runs[u].retryOf.value] < rank[u]
  }

  ghost predicate Founded(runs: map<Id, Run>) { exists rank: map<Id, nat> :: Ranked(runs, rank) }

  lemma {:induction false} AboveAll(s: set<Id>, rank: map<Id, nat>) returns (top: nat)
    requires s <= rank.Keys
    ensures forall u :: u in s ==> rank[u] < top
    decreases s
  {
    if s == {} {
      top := 0;
    } else {
      var u :| u in s;
      var rest := AboveAll(s - {u}, rank);
      top := if rank[u] < rest then rest else rank[u] + 1;
    }
  }

  /** A table without retries, which 017 leaves, is founded; so is every table after it. */
  lemma {:induction false} NoRetriesAreFounded(runs: map<Id, Run>)
    requires forall u :: u in runs ==> runs[u].retryOf.None?
    ensures Founded(runs)
  {
    assert Ranked(runs, map u | u in runs :: 0);
  }

  lemma {:induction false} StepKeepsFounded(l: Ledger, op: Op)
    requires Constrained(l.runs) && Founded(l.runs)
    ensures Founded(Step(l, op).runs)
  {
    hide Apart, Updates;
    var rank :| Ranked(l.runs, rank);
    match op
    case Insert(id, r) =>
      var top := AboveAll(l.runs.Keys, rank);
      assert Ranked(Step(l, op).runs, rank[id := if id in l.runs then rank[id] else top]);
    case _ => assert Ranked(Step(l, op).runs, rank);
  }

  lemma {:induction false} EveryRunKeepsFounded(l: Ledger, ops: seq<Op>)
    requires Constrained(l.runs) && Founded(l.runs)
    ensures Founded(After(l, ops).runs)
    decreases |ops|
  {
    if ops == [] {
    } else {
      StepKeepsConstraints(l, ops[0]);
      StepKeepsFounded(l, ops[0]);
      EveryRunKeepsFounded(Step(l, ops[0]), ops[1..]);
    }
  }

  /** Where a retry chain ends: at a first attempt, or at a run that names itself. */
  ghost function ChainRoot(runs: map<Id, Run>, rank: map<Id, nat>, id: Id): (root: Id)
    requires Constrained(runs) && Ranked(runs, rank) && id in runs
    ensures root in runs && rank[root] <= rank[id]
    ensures runs[root].attempt == 1 || runs[root].retryOf == Some(root)
    decreases rank[id]
  {
    if runs[id].retryOf.None? || runs[id].retryOf.value == id then id else ChainRoot(runs, rank, runs[id].retryOf.value)
  }

  predicate NamesItself(runs: map<Id, Run>, id: Id) { id in runs && runs[id].retryOf == Some(id) }

  lemma {:induction false} ChainAtSelf(runs: map<Id, Run>, rank: map<Id, nat>, id: Id)
    requires Constrained(runs) && Ranked(runs, rank) && NamesItself(runs, id)
    ensures ChainRoot(runs, rank, id) == id && runs[id].attempt != 1
  {
    assert AttemptOk(runs[id]);
  }

  /** Every chain ends at a first attempt exactly when no run names itself. */
  lemma {:induction false} ChainsEndExactly(runs: map<Id, Run>, rank: map<Id, nat>)
    requires Constrained(runs) && Ranked(runs, rank)
    ensures (forall u :: u in runs ==> runs[ChainRoot(runs, rank, u)].attempt == 1)
        <==> forall u :: !NamesItself(runs, u)
  {
    if u :| NamesItself(runs, u) {
      ChainAtSelf(runs, rank, u);
    } else {
      forall u | u in runs ensures runs[ChainRoot(runs, rank, u)].attempt == 1 {
        assert !NamesItself(runs, ChainRoot(runs, rank, u));
      }
    }
  }

  /** A statement keeps it so exactly when it does not insert a run that names itself. */
  lemma {:induction false} StepKeepsChainsExactly(l: Ledger, op: Op)
    requires forall u :: !NamesItself(l.runs, u)
    ensures (forall u :: !NamesItself(Step(l, op).runs, u))
            <==> !(op.Insert? && Inserts(l.runs, op.id, op.run) && op.run.retryOf == Some(op.id))
  {
    hide Apart, Updates, Deletes;
    if op.Insert? && Inserts(l.runs, op.id, op.run) && op.run.retryOf == Some(op.id) {
      assert NamesItself(Step(l, op).runs, op.id);
    } else {
      forall u ensures !NamesItself(Step(l, op).runs, u) { assert !NamesItself(l.runs, u); }
    }
  }

  /** Nothing stops a run from being inserted as its own retry. */
  lemma {:induction false} ARunMayRetryItself() returns (l: Ledger, op: Op)
    ensures Inv(l) && op.Insert? && Inserts(l.runs, op.id, op.run) && NamesItself(Step(l, op).runs, op.id)
  {
    l, op := Ledger(map[], 1), Insert(7, Run(1, 0, 2, Some(7), 3, InProgress, None, 0, 0));
  }

  /** Each retry is numbered after the run it retries. */
  ghost predicate RetriesYounger(l: Ledger) {
    forall u :: u in l.runs && l.runs[u].retryOf.Some? && l.runs[u].retryOf.value != u ==>
      l.runs[u].retryOf.value in l.runs && l.runs[l.runs[u].retryOf.value].runSeq < l.runs[u].runSeq
  }

  lemma {:induction false} StepKeepsRetriesYounger(l: Ledger, op: Op)
    requires Inv(l) && RetriesYounger(l)
    ensures RetriesYounger(Step(l, op))
  {
    hide Apart, Updates;
  }

  /** Once every retry is numbered after the run it retries, it stays so. */
  lemma {:induction false} RetriesStayYounger(l: Ledger, ops: seq<Op>)
    requires Inv(l) && RetriesYounger(l)
    ensures RetriesYounger(After(l, ops))
    decreases |ops|
  {
    if ops == [] {
    } else {
      StepKeepsInv(l, ops[0]);
      StepKeepsRetriesYounger(l, ops[0]);
      RetriesStayYounger(Step(l, ops[0]), ops[1..]);
    }
  }

  // ----- migration 017: the constraints fit any table 001 allowed -----

  /** A row as it stood before 017. */
  datatype OldRun = OldRun(thread: nat, turn: int, status: Status, created: nat)

  ghost predicate OldConstrained(old_: map<Id, OldRun>) {
    forall u, v :: u in old_ && v in old_ && u != v ==>
        !(old_[u].thread == old_[v].thread && old_[u].turn == old_[v].turn)
  }

  /** Heals open rows, gives every row a first attempt and its own drawn request key. */
  function Expanded(old_: map<Id, OldRun>, keys: map<Id, nat>): map<Id, Run>
    requires old_.Keys <= keys.Keys
  {
    map u | u in old_ ::
        Run(old_[u].thread, old_[u].turn, 1, None, keys[u], if old_[u].status == InProgress then Error
        else old_[u].status, None, old_[u].created, 0)
  }

  /** No row is lost, an open one ends in error, an ended one keeps how it ended, and the new constraints
      hold. */
  lemma {:induction false} ExpansionMeetsConstraints(old_: map<Id, OldRun>, keys: map<Id, nat>)
    requires OldConstrained(old_) && old_.Keys <= keys.Keys
    requires forall u, v :: u in keys && v in keys && u != v ==> keys[u] != keys[v]
    ensures Constrained(Expanded(old_, keys)) && Founded(Expanded(old_, keys))
    ensures Expanded(old_, keys).Keys == old_.Keys
    ensures forall u :: u in old_ ==>
              var o, r := old_[u], Expanded(old_, keys)[u];
              && r.thread == o.thread && r.turn == o.turn && r.created == o.created && r.cancelRequested.None?
              && r.status == (if o.status == InProgress then Error else o.status)
  {
    NoRetriesAreFounded(Expanded(old_, keys));
    var rs := Expanded(old_, keys);
    forall u, v | u in rs && v in rs && u != v ensures Apart(rs[u], rs[v]) {
      assert u in keys && v in keys;
    }
  }
}
