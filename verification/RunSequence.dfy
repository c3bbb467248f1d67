/** Migration 023: every run gets its place in one sequence, and every thread a cursor past the runs
    that had ended. */
module RunSequence {
  import opened Options
  import opened RunLedger

  // ----- the greatest of a set -----

  lemma {:induction false} GreatestOf(s: set<nat>) returns (m: nat)
    requires s != {}
    ensures m in s && forall x :: x in s ==> x <= m
    decreases |s|
  {
    m :| m in s;
    var rest := s - {m};
    if rest == {} {
      assert s == {m};
    } else {
      var top := GreatestOf(rest);
      forall x | x in s ensures x <= (if top > m then top else m) { if x != m { assert x in rest; } }
      m := if top > m then top else m;
    }
  }

  lemma {:induction false} GreatestExists(s: set<nat>)
    requires s != {}
    ensures exists m :: m in s && forall x :: x in s ==> x <= m
  {
    var m := GreatestOf(s);
  }

  function Greatest(s: set<nat>): (m: nat)
    requires s != {}
    ensures m in s && forall x :: x in s ==> x <= m
  {
    GreatestExists(s);
    var m :| m in s && forall x :: x in s ==> x <= m;
    m
  }

  // ----- the backfill -----

  /** The order of the backfill, ties broken by the primary key. */
  predicate Before(runs: map<Id, Run>, u: Id, v: Id)
    requires u in runs && v in runs
  {
    var a, b := runs[u], runs[v];
    if a.thread != b.thread then a.thread < b.thread
    else if a.turn != b.turn then a.turn < b.turn
    else if a.attempt != b.attempt then a.attempt < b.attempt
    else if a.created != b.created then a.created < b.created
    else u < v
  }

  function Predecessors(runs: map<Id, Run>, u: Id): set<Id>
    requires u in runs
  {
    set v | v in runs && Before(runs, v, u)
  }

  function RowNumber(runs: map<Id, Run>, u: Id): nat
    requires u in runs
  {
    |Predecessors(runs, u)| + 1
  }

  function Backfilled(runs: map<Id, Run>): map<Id, Run> {
    map u | u in runs :: runs[u].(runSeq := RowNumber(runs, u))
  }

  lemma {:induction false} ProperSubsetSize(small: set<Id>, big: set<Id>, extra: Id)
    requires small <= big && extra in big && extra !in small
    ensures |small| < |big|
  {
    assert big == (big - small) + small;
  }

  /** The numbering is the order: earlier rows, and only those, get smaller numbers. */
  lemma {:induction false} NumberingIsTheOrder(runs: map<Id, Run>, u: Id, v: Id)
    requires u in runs && v in runs
    ensures RowNumber(runs, u) < RowNumber(runs, v) <==> Before(runs, u, v)
    ensures var a, b := runs[u], runs[v];
            RowNumber(runs, u) < RowNumber(runs, v) <==>
            || a.thread < b.thread
            || (a.thread == b.thread && a.turn < b.turn)
            || (a.thread == b.thread && a.turn == b.turn && a.attempt < b.attempt)
            || (a.thread == b.thread && a.turn == b.turn && a.attempt == b.attempt && a.created < b.created)
            || (a.thread == b.thread && a.turn == b.turn && a.attempt == b.attempt && a.created == b.created && u < v)
  {
    if Before(runs, u, v) {
      assert Predecessors(runs, u) <= Predecessors(runs, v);
      ProperSubsetSize(Predecessors(runs, u), Predecessors(runs, v), u);
    } else if u != v {
      assert Predecessors(runs, v) <= Predecessors(runs, u);
      ProperSubsetSize(Predecessors(runs, v), Predecessors(runs, u), v);
    }
  }

  lemma {:induction false} NumbersAreWithin(runs: map<Id, Run>, u: Id)
    requires u in runs
    ensures 1 <= RowNumber(runs, u) <= |runs|
  {
    assert Predecessors(runs, u) <= runs.Keys;
    ProperSubsetSize(Predecessors(runs, u), runs.Keys, u);
  }

  /** Within a thread, history order: a later turn, or a later attempt of one turn, comes later. */
  lemma {:induction false} HistoryOrderIsKept(runs: map<Id, Run>, u: Id, v: Id)
    requires u in runs && v in runs && runs[u].thread == runs[v].thread
    requires runs[u].turn < runs[v].turn || (runs[u].turn == runs[v].turn && runs[u].attempt < runs[v].attempt)
    ensures Backfilled(runs)[u].runSeq < Backfilled(runs)[v].runSeq
  {
    NumberingIsTheOrder(runs, u, v);
  }

  function Numbers(runs: map<Id, Run>): set<nat> { set u | u in runs :: runs[u].runSeq }

  /** setval: one past the greatest number in the table, or 1. */
  function NextSeq(runs: map<Id, Run>): nat {
    if Numbers(runs) == {} then 1 else Greatest(Numbers(runs)) + 1
  }

  lemma {:induction false} BeforeChains(runs: map<Id, Run>, u: Id, v: Id, w: Id)
    requires u in runs && v in runs && w in runs && (u == v || Before(runs, u, v)) && Before(runs, v, w)
    ensures Before(runs, u, w)
  {
  }

  lemma {:induction false} LastRow(runs: map<Id, Run>, among: set<Id>, some_: Id) returns (last: Id)
    requires among <= runs.Keys && some_ in among
    ensures last in among && forall u :: u in among && u != last ==> Before(runs, u, last)
    decreases |among|
  {
    if among == {some_} {
      last := some_;
    } else {
      var other :| other in among && other != some_;
      var rest := LastRow(runs, among - {some_}, other);
      last := if Before(runs, rest, some_) then some_ else rest;
      forall u | u in among && u != last ensures Before(runs, u, last) {
        if last == some_ { BeforeChains(runs, u, rest, some_); }
      }
    }
  }

  lemma {:induction false} LastIsCounted(runs: map<Id, Run>) returns (last: Id)
    requires runs != map[]
    ensures last in runs && RowNumber(runs, last) == |runs|
  {
    var some_ :| some_ in runs;
    last := LastRow(runs, runs.Keys, some_);
    assert Predecessors(runs, last) == runs.Keys - {last};
  }

  /** The numbers given out end at the number of rows, so the sequence goes on from there. */
  lemma {:induction false} SequenceGoesOn(runs: map<Id, Run>)
    ensures NextSeq(Backfilled(runs)) == |runs| + 1
    ensures forall u :: u in runs ==> 1 <= Backfilled(runs)[u].runSeq < NextSeq(Backfilled(runs))
  {
    var after := Backfilled(runs);
    forall u | u in runs ensures 1 <= after[u].runSeq <= |runs| && after[u].runSeq in Numbers(after) {
      NumbersAreWithin(runs, u);
    }
    hide RowNumber;
    if runs == map[] {
      assert Numbers(after) == {};
    } else {
      var last := LastIsCounted(runs);
      assert after[last].runSeq == |runs|;
      assert forall n :: n in Numbers(after) ==> n <= |runs|;
    }
  }

  /** Every retry comes after the run it retries, in the order of the backfill. */
  predicate RetriesFollow(runs: map<Id, Run>)
    requires forall u :: u in runs && runs[u].retryOf.Some? ==> runs[u].retryOf.value in runs
  {
    forall u :: u in runs && runs[u].retryOf.Some? ==>
        runs[u].retryOf.value == u || Before(runs, runs[u].retryOf.value, u)
  }

  lemma {:induction false} NumberingKeepsConstraints(runs: map<Id, Run>)
    requires Constrained(runs)
    ensures Constrained(Backfilled(runs))
  {
    var after := Backfilled(runs);
    forall u, v | u in after && v in after && u != v ensures Apart(after[u], after[v]) {
      assert Apart(runs[u], runs[v]);
    }
    forall u | u in after ensures AttemptOk(after[u]) { assert AttemptOk(runs[u]); }
  }

  lemma {:induction false} NumbersAreDistinct(runs: map<Id, Run>)
    ensures forall u, v :: u in runs && v in runs && u != v ==> RowNumber(runs, u) != RowNumber(runs, v)
  {
    forall u, v | u in runs && v in runs && u != v ensures RowNumber(runs, u) != RowNumber(runs, v) {
      NumberingIsTheOrder(runs, u, v);
      NumberingIsTheOrder(runs, v, u);
    }
  }

  lemma {:induction false} NumberingKeepsFounded(runs: map<Id, Run>)
    requires Founded(runs)
    ensures Founded(Backfilled(runs))
  {
    hide RowNumber;
    var rank :| Ranked(runs, rank);
    assert Ranked(Backfilled(runs), rank);
  }

  lemma {:induction false} BackfillIsNumbered(runs: map<Id, Run>)
    ensures Numbered(Ledger(Backfilled(runs), NextSeq(Backfilled(runs))))
  {
    NumbersAreDistinct(runs);
    SequenceGoesOn(runs);
    hide RowNumber, NextSeq;
  }

  /** The sequence takes over from any table within the constraints: what holds of every run of
      statements holds from here on, chains included. */
  lemma {:induction false} SequenceTakesOver(runs: map<Id, Run>)
    requires Constrained(runs)
    ensures Inv(Ledger(Backfilled(runs), NextSeq(Backfilled(runs))))
    ensures Founded(runs) ==> Founded(Backfilled(runs))
  {
    NumberingKeepsConstraints(runs);
    BackfillIsNumbered(runs);
    if Founded(runs) { NumberingKeepsFounded(runs); }
    hide Constrained, Numbered, Founded, Backfilled, NextSeq;
  }

  lemma {:induction false} BackfillOrders(runs: map<Id, Run>, u: Id, v: Id)
    requires u in runs && v in runs
    ensures Backfilled(runs)[u].runSeq < Backfilled(runs)[v].runSeq <==> Before(runs, u, v)
  {
    NumberingIsTheOrder(runs, u, v);
    hide RowNumber, Before;
  }

  /** It numbers every retry after the run it retries exactly when each retry sorts after that run. */
  lemma {:induction false} RetriesYoungerExactly(runs: map<Id, Run>)
    requires Constrained(runs)
    ensures RetriesYounger(Ledger(Backfilled(runs), NextSeq(Backfilled(runs)))) <==> RetriesFollow(runs)
  {
    hide Before, RowNumber, NextSeq, Apart, AttemptOk;
    var after := Backfilled(runs);
    forall u | u in runs && runs[u].retryOf.Some?
      ensures after[runs[u].retryOf.value].runSeq < after[u].runSeq <==> Before(runs, runs[u].retryOf.value, u) {
      BackfillOrders(runs, runs[u].retryOf.value, u);
    }
    assert forall u :: u in runs ==> u in after && after[u].retryOf == runs[u].retryOf;
    hide Backfilled, Constrained;
  }

  /** A retry in an earlier thread than the run it retries: within every constraint, numbered first. */
  lemma {:induction false} RetriesCanSortFirst() returns (runs: map<Id, Run>)
    ensures Constrained(runs) && !RetriesFollow(runs)
  {
    var first, retry := Run(2, 0, 1, None, 10, Completed, None, 0, 0), Run(1, 0, 2, Some(1), 20, Completed, None, 5, 0);
    runs := map[1 := first, 2 := retry];
    assert Apart(first, retry) && Apart(retry, first) && AttemptOk(first) && AttemptOk(retry);
    assert Constrained(runs) by { hide Apart, AttemptOk; }
    assert !Before(runs, 1, 2) && runs[2].retryOf == Some(1);
    hide Constrained, Before;
  }

  // ----- the cursor -----

  /** The numbers of a thread's ended runs. */
  function Ended(runs: map<Id, Run>, thread: nat): set<nat> {
    set u | u in runs && runs[u].thread == thread && Terminal(runs[u]) :: runs[u].runSeq
  }

  /** The seed; a thread without an ended run keeps the default. */
  function Seeded(runs: map<Id, Run>, cursors: map<nat, nat>): map<nat, nat> {
    map t | t in cursors :: if Ended(runs, t) == {} then cursors[t] else Greatest(Ended(runs, t))
  }

  predicate Unseen(r: Run, cursors: map<nat, nat>)
    requires r.thread in cursors
  {
    r.runSeq > cursors[r.thread]
  }

  /** History ships as seen, and no further: no ended run lies above its thread's cursor, and a cursor
      that moved stands on an ended run of its own thread. */
  lemma {:induction false} HistoryShipsSeen(runs: map<Id, Run>, cursors: map<nat, nat>, u: Id)
    requires u in runs && runs[u].thread in cursors
    ensures runs[u].status != InProgress ==> runs[u].runSeq <= Seeded(runs, cursors)[runs[u].thread]
    ensures var c := Seeded(runs, cursors)[runs[u].thread];
            c != cursors[runs[u].thread] ==>
                exists v :: v in runs && runs[v].thread == runs[u].thread && Terminal(runs[v]) && runs[v].runSeq == c
  {
    if Terminal(runs[u]) { assert runs[u].runSeq in Ended(runs, runs[u].thread); }
  }

  lemma {:induction false} SeedCoversEnded(runs: map<Id, Run>, cursors: map<nat, nat>)
    ensures Seeded(runs, cursors).Keys == cursors.Keys
    ensures forall u :: u in runs && runs[u].thread in cursors && Terminal(runs[u]) ==>
        !Unseen(runs[u], Seeded(runs, cursors))
  {
    forall u | u in runs && runs[u].thread in cursors && Terminal(runs[u])
      ensures !Unseen(runs[u], Seeded(runs, cursors)) {
      HistoryShipsSeen(runs, cursors, u);
    }
  }

  lemma {:induction false} SameCount(runs: map<Id, Run>)
    ensures |Backfilled(runs)| == |runs|
  {
    assert Backfilled(runs).Keys == runs.Keys;
  }

  /** Every run that starts after the migration is unseen until its thread's cursor moves, whatever
      statements run in between. */
  lemma {:induction false} LaterRunsAreUnseen(l: Ledger, cursors: map<nat, nat>, ops: seq<Op>, id: Id)
    requires Inv(l) && (forall t :: t in cursors ==> cursors[t] < l.nextSeq)
    requires id in After(l, ops).runs && !SameRow(l, After(l, ops), id) && After(l, ops).runs[id].thread in cursors
    ensures Unseen(After(l, ops).runs[id], Seeded(l.runs, cursors))
  {
    NewRowsTakeNewNumbers(l, ops, id);
    var t := After(l, ops).runs[id].thread;
    assert Seeded(l.runs, cursors)[t] < l.nextSeq;
  }

  // ----- the tables, changed in place -----

  class ThreadTables {
    var runs: map<Id, Run>
    var nextSeq: nat
    var cursors: map<nat, nat>

    constructor (runs: map<Id, Run>, cursors: map<nat, nat>)
      ensures this.runs == runs && this.cursors == cursors
    {
      this.runs, nextSeq, this.cursors := runs, 1, cursors;
    }

    method NumberRows()
      modifies this`runs
      ensures runs == Backfilled(old(runs))
    {
      runs := map u | u in runs :: runs[u].(runSeq := |set v | v in runs && Before(runs, v, u)| + 1);
    }

    method AdvanceSequence()
      modifies this`nextSeq
      ensures nextSeq == NextSeq(runs)
    {
      nextSeq := if Numbers(runs) == {} then 1 else Greatest(Numbers(runs)) + 1;
    }

    /** Moves the cursor of every thread that has an ended run. */
    method SeedCursors()
      modifies this`cursors
      ensures cursors == Seeded(runs, old(cursors))
    {
      cursors := cursors + map t | t in cursors && Ended(runs, t) != {} :: Greatest(Ended(runs, t));
    }

    method Upgrade()
      requires Constrained(runs)
      modifies this
      ensures runs == Backfilled(old(runs)) && nextSeq == |runs| + 1 && cursors == Seeded(runs, old(cursors))
      ensures Inv(Ledger(runs, nextSeq))
      ensures RetriesYounger(Ledger(runs, nextSeq)) <==> RetriesFollow(old(runs))
      ensures forall u :: u in runs && runs[u].thread in cursors && Terminal(runs[u]) ==> !Unseen(runs[u], cursors)
    {
      hide Constrained, Inv, Founded, Backfilled, NextSeq, Numbers, Seeded, Ended, RetriesYounger, RetriesFollow;
      hide Unseen, Terminal;
      SequenceTakesOver(runs);
      RetriesYoungerExactly(runs);
      SequenceGoesOn(runs);
      NumberRows();
      AdvanceSequence();
      SeedCursors();
      SeedCoversEnded(runs, old(cursors));
      SameCount(old(runs));
    }
  }
}
