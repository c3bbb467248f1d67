/** The downgrade of migration 018: attempt chains collapse to one row for each turn. */
module RunCollapse {
  import opened Options
  import opened RunLedger

  datatype HookStatus = Pending | Claimed | Finished | Dead

  datatype Hook = Hook(run: Id, status: HookStatus)

  predicate Undrained(h: Hook) { h.status == Pending || h.status == Claimed }

  predicate SameTurn(r: Run, s: Run) { r.thread == s.thread && r.turn == s.turn }

  predicate Superseded(runs: map<Id, Run>, id: Id)
    requires id in runs
  {
    exists n :: n in runs && SameTurn(runs[n], runs[id]) && runs[n].attempt > runs[id].attempt
  }

  /** The precheck: an undrained hook of a superseded attempt refuses the downgrade. */
  predicate Refused(runs: map<Id, Run>, hooks: map<nat, Hook>) {
    exists h :: h in hooks && Undrained(hooks[h]) && hooks[h].run in runs && Superseded(runs, hooks[h].run)
  }

  function Latest(runs: map<Id, Run>): map<Id, Run> {
    map u | u in runs && !Superseded(runs, u) :: runs[u]
  }

  function Flattened(r: Run): Run { r.(attempt := 1, retryOf := None) }

  function Collapsed(runs: map<Id, Run>): map<Id, Run> {
    map u | u in Latest(runs) :: Flattened(runs[u])
  }

  /** A hook goes with the row it belongs to. */
  function Cascaded(hooks: map<nat, Hook>, runs: map<Id, Run>): map<nat, Hook> {
    map h | h in hooks && hooks[h].run in runs :: hooks[h]
  }

  // ----- exactly the highest attempt of every turn stays -----

  /** Of any attempts of one turn, one is the highest. */
  lemma {:induction false} HighestAttempt(runs: map<Id, Run>, among: set<Id>, some_: Id) returns (top: Id)
    requires among <= runs.Keys && some_ in among
    ensures top in among && SameTurn(runs[top], runs[some_])
    ensures forall u :: u in among && SameTurn(runs[u], runs[some_]) ==> runs[u].attempt <= runs[top].attempt
    decreases |among|
  {
    if exists u :: u in among && u != some_ && SameTurn(runs[u], runs[some_]) && runs[u].attempt > runs[some_].attempt {
      var u :| u in among && u != some_ && SameTurn(runs[u], runs[some_]) && runs[u].attempt > runs[some_].attempt;
      top := HighestAttempt(runs, among - {some_}, u);
    } else {
      top := some_;
    }
  }

  /** Every turn that had a row keeps exactly one: its highest attempt, chainless, otherwise untouched. */
  lemma {:induction false} OneRowPerTurn(runs: map<Id, Run>, id: Id) returns (top: Id)
    requires Constrained(runs) && id in runs
    ensures top in runs && runs[top].thread == runs[id].thread && runs[top].turn == runs[id].turn
    ensures top in Collapsed(runs) && Collapsed(runs)[top] == runs[top].(attempt := 1, retryOf := None)
    ensures forall u :: u in runs && runs[u].thread == runs[id].thread && runs[u].turn == runs[id].turn ==>
        (u in Collapsed(runs) <==> u == top) && (u != top ==> runs[u].attempt < runs[top].attempt)
  {
    top := HighestAttempt(runs, runs.Keys, id);
    assert !Superseded(runs, top);
    forall u | u in runs && SameTurn(runs[u], runs[id]) && u != top
      ensures runs[u].attempt < runs[top].attempt && u !in Collapsed(runs) {
      assert Apart(runs[u], runs[top]);
      assert Superseded(runs, u);
    }
  }

  /** What the downgrade restores: 001's one row per turn, the attempt check and the foreign key, with
      the slot, the request keys and the retried runs still unique. */
  ghost predicate RestoredConstraints(runs: map<Id, Run>) {
    && Constrained(runs)
    && forall u, v :: u in runs && v in runs && u != v ==> !SameTurn(runs[u], runs[v])
  }

  lemma {:induction false} SurvivorsAreApart(runs: map<Id, Run>, u: Id, v: Id)
    requires u in runs && v in runs && Apart(runs[u], runs[v]) && !Superseded(runs, u) && !Superseded(runs, v)
    ensures !SameTurn(runs[u], runs[v]) && Apart(Flattened(runs[u]), Flattened(runs[v]))
  {
  }

  lemma {:induction false} SurvivorsKeepTheirRows(runs: map<Id, Run>)
    ensures forall u :: u in Collapsed(runs) ==>
        u in runs && !Superseded(runs, u) && Collapsed(runs)[u] == Flattened(runs[u])
  {
    hide Superseded;
  }

  lemma {:induction false} CollapseMeetsConstraints(runs: map<Id, Run>)
    requires Constrained(runs)
    ensures RestoredConstraints(Collapsed(runs))
    ensures forall u :: u in Collapsed(runs) ==> u in runs && Collapsed(runs)[u] == Flattened(runs[u])
  {
    SurvivorsKeepTheirRows(runs);
    hide Collapsed, Superseded, Apart;
    var after := Collapsed(runs);
    forall u, v | u in after && v in after && u != v
      ensures !SameTurn(after[u], after[v]) && Apart(after[u], after[v]) {
      SurvivorsAreApart(runs, u, v);
    }
    forall u | u in after ensures AttemptOk(after[u]) && after[u].retryOf.None? { }
  }

  /** The precheck passes exactly when the collapse takes no undrained hook with it. */
  lemma {:induction false} PrecheckIsExact(runs: map<Id, Run>, hooks: map<nat, Hook>)
    requires forall h :: h in hooks ==> hooks[h].run in runs
    ensures !Refused(runs, hooks) <==> forall h :: h in hooks && Undrained(hooks[h]) ==>
        h in Cascaded(hooks, Collapsed(runs))
  {
    if !Refused(runs, hooks) {
      forall h | h in hooks && Undrained(hooks[h]) ensures h in Cascaded(hooks, Collapsed(runs)) {
        assert !Superseded(runs, hooks[h].run);
      }
    }
  }

  /** The collapse gives the table back exactly when it holds no retry. */
  lemma {:induction false} NothingToCollapse(runs: map<Id, Run>)
    requires Constrained(runs)
    ensures Collapsed(runs) == runs <==> forall u :: u in runs ==> runs[u].retryOf.None?
  {
    if forall u :: u in runs ==> runs[u].retryOf.None? {
      forall u | u in runs ensures !Superseded(runs, u) && Flattened(runs[u]) == runs[u] {
        assert forall n :: n in runs ==> AttemptOk(runs[n]);
      }
    }
    if Collapsed(runs) == runs {
      forall u | u in runs ensures runs[u].retryOf.None? { assert Collapsed(runs)[u] == Flattened(runs[u]); }
    }
  }

  lemma {:induction false} SameCollapse(runs: map<Id, Run>, hooks: map<nat, Hook>)
    ensures (map u | u in Latest(runs) :: Flattened(Latest(runs)[u])) == Collapsed(runs)
    ensures Cascaded(hooks, Latest(runs)) == Cascaded(hooks, Collapsed(runs))
  {
    hide Superseded;
  }

  lemma {:induction false} CollapseKeepsOrder(l: Ledger)
    requires Inv(l)
    ensures Inv(Ledger(Collapsed(l.runs), l.nextSeq)) && Founded(Collapsed(l.runs))
  {
    CollapseMeetsConstraints(l.runs);
    hide Superseded, Constrained, Apart;
    assert forall u :: u in Collapsed(l.runs) ==> u in l.runs && Collapsed(l.runs)[u].runSeq == l.runs[u].runSeq;
    NoRetriesAreFounded(Collapsed(l.runs));
  }

  // ----- what one statement means for both tables -----

  /** Every constraint, the numbering, chains without circles, and each hook with its run. */
  ghost predicate Sound(l: Ledger, hooks: map<nat, Hook>) {
    Inv(l) && Founded(l.runs) && forall h :: h in hooks ==> hooks[h].run in l.runs
  }

  lemma {:induction false} SoundHasInv(l: Ledger, hooks: map<nat, Hook>)
    requires Sound(l, hooks)
    ensures Inv(l)
  {
  }

  lemma {:induction false} StepKeepsSound(l: Ledger, hooks: map<nat, Hook>, op: Op)
    requires Sound(l, hooks)
    ensures Inv(Step(l, op)) && Founded(Step(l, op).runs)
    ensures !op.Delete? ==> Sound(Step(l, op), hooks)
  {
    StepKeepsInv(l, op);
    StepKeepsFounded(l, op);
    hide Inv, Founded, Inserts, Updates, Deletes;
  }

  /** An insert lands exactly where the constraints have room for a run born in progress, and comes
      after every run there was; one that is refused leaves every row alone. */
  ghost predicate InsertTaken(a: Ledger, b: Ledger, id: Id, r: Run, landed: bool) {
    && (landed <==> r.status == InProgress && id !in a.runs && Constrained(a.runs[id := r]))
    && b.runs == (if landed then a.runs[id := r.(runSeq := a.nextSeq)] else a.runs) && b.nextSeq == a.nextSeq + 1
    && (landed ==> forall u :: u in a.runs ==> a.runs[u].runSeq < b.runs[id].runSeq)
  }

  lemma {:induction false} InsertMeans(l: Ledger, id: Id, r: Run)
    requires Inv(l)
    ensures InsertTaken(l, Step(l, Insert(id, r)), id, r, Inserts(l.runs, id, r))
  {
    if id !in l.runs { InsertsExactly(l.runs, id, r); }
    hide Constrained, Apart;
  }

  /** An update is refused exactly when it would change an ended run, and then changes nothing; one that
      goes through leaves in its row, if there is one, what it wrote, and touches no other. */
  ghost predicate UpdateTaken(a: Ledger, b: Ledger, id: Id, status: Status, cancelRequested: Option<nat>,
      landed: bool) {
    && (landed <==> !(id in a.runs && a.runs[id].status != InProgress
                      && (status != a.runs[id].status || cancelRequested != a.runs[id].cancelRequested)))
    && (!landed ==> b == a)
    && (landed ==> b == a.(runs := b.runs) && b.runs.Keys == a.runs.Keys)
    && (landed && id in a.runs ==>
        b.runs[id] == a.runs[id].(status := status, cancelRequested := cancelRequested))
    && (forall u :: u in a.runs && u != id ==> u in b.runs && b.runs[u] == a.runs[u])
    && (forall u :: u in a.runs ==> RowKept(a, b, u))
  }

  lemma {:induction false} UpdateMeans(l: Ledger, id: Id, status: Status, cancelRequested: Option<nat>)
    ensures UpdateTaken(l, Step(l, Update(id, status, cancelRequested)), id, status, cancelRequested,
                        Updates(l.runs, id, status, cancelRequested))
  {
  }

  lemma {:induction false} CascadeIsHooked(hooks: map<nat, Hook>, runs: map<Id, Run>)
    ensures forall h :: h in Cascaded(hooks, runs) ==> Cascaded(hooks, runs)[h].run in runs
    ensures (forall h :: h in hooks ==> hooks[h].run in runs) ==> Cascaded(hooks, runs) == hooks
  {
  }

  lemma {:induction false} DeleteMeans(l: Ledger, hooks: map<nat, Hook>, ids: set<Id>)
    requires Sound(l, hooks)
    ensures Deletes(l.runs, ids) <==> Constrained(l.runs - ids)
    ensures Sound(Step(l, Delete(ids)), Cascaded(hooks, Step(l, Delete(ids)).runs))
    ensures !Deletes(l.runs, ids) ==> Cascaded(hooks, l.runs) == hooks
  {
    DeletesExactly(l.runs, ids);
    StepKeepsSound(l, hooks, Delete(ids));
    CascadeIsHooked(hooks, Step(l, Delete(ids)).runs);
    CascadeIsHooked(hooks, l.runs);
    hide Inv, Founded, Constrained, Cascaded, Deletes;
  }

  /** A downgrade is refused exactly when a pending or claimed hook belongs to an attempt with a higher
      one in its turn; otherwise exactly the hooks of the runs that stay are left. */
  ghost predicate DowngradeTaken(a: map<Id, Run>, outbox: map<nat, Hook>, b: map<Id, Run>, hooks: map<nat, Hook>,
      landed: bool)
    requires forall h :: h in outbox ==> outbox[h].run in a
  {
    && (landed <==> forall h :: h in outbox && (outbox[h].status == Pending || outbox[h].status == Claimed) ==>
          !exists n :: n in a && a[n].thread == a[outbox[h].run].thread && a[n].turn == a[outbox[h].run].turn
                       && a[n].attempt > a[outbox[h].run].attempt)
    && (if landed
        then b == Collapsed(a)
             && (forall h :: h in hooks <==> h in outbox && outbox[h].run in b)
             && (forall h :: h in hooks ==> hooks[h] == outbox[h])
        else b == a && hooks == outbox)
  }

  lemma {:induction false} CollapseIsSound(l: Ledger, hooks: map<nat, Hook>)
    requires Inv(l)
    ensures Sound(Ledger(Collapsed(l.runs), l.nextSeq), Cascaded(hooks, Collapsed(l.runs)))
  {
    CollapseKeepsOrder(l);
    CascadeIsHooked(hooks, Collapsed(l.runs));
    hide Inv, Founded, Collapsed, Cascaded;
  }

  lemma {:induction false} DowngradeMeans(runs: map<Id, Run>, hooks: map<nat, Hook>)
    requires forall h :: h in hooks ==> hooks[h].run in runs
    ensures Refused(runs, hooks) ==> DowngradeTaken(runs, hooks, runs, hooks, false)
    ensures !Refused(runs, hooks) ==>
        DowngradeTaken(runs, hooks, Collapsed(runs), Cascaded(hooks, Collapsed(runs)), true)
  {
    PrecheckIsExact(runs, hooks);
    hide Refused, Collapsed, Cascaded, Undrained;
  }

  // ----- the tables, changed in place -----

  class RunTables {
    var runs: map<Id, Run>
    var nextSeq: nat
    var hooks: map<nat, Hook>

    ghost function View(): Ledger
      reads this
    {
      Ledger(runs, nextSeq)
    }

    ghost predicate Valid()
      reads this
    {
      Sound(View(), hooks)
    }

    constructor (runs: map<Id, Run>, nextSeq: nat, hooks: map<nat, Hook>)
      requires Sound(Ledger(runs, nextSeq), hooks)
      ensures Valid() && View() == Ledger(runs, nextSeq) && this.hooks == hooks
    {
      this.runs, this.nextSeq, this.hooks := runs, nextSeq, hooks;
    }

    method InsertRun(id: Id, r: Run) returns (landed: bool)
      requires Valid()
      modifies this
      ensures Valid() && View() == Step(old(View()), Insert(id, r)) && hooks == old(hooks)
      ensures InsertTaken(old(View()), View(), id, r, landed)
    {
      InsertMeans(View(), id, r);
      StepKeepsSound(View(), hooks, Insert(id, r));
      hide Sound, InsertTaken, Inserts;
      var row := r.(runSeq := nextSeq);
      nextSeq := nextSeq + 1;
      landed := Inserts(runs, id, r);
      if landed {
        runs := runs[id := row];
      }
    }

    method UpdateRun(id: Id, status: Status, cancelRequested: Option<nat>) returns (landed: bool)
      requires Valid()
      modifies this
      ensures Valid() && View() == Step(old(View()), Update(id, status, cancelRequested)) && hooks == old(hooks)
      ensures UpdateTaken(old(View()), View(), id, status, cancelRequested, landed)
    {
      hide Sound, UpdateTaken;
      UpdateMeans(View(), id, status, cancelRequested);
      StepKeepsSound(View(), hooks, Update(id, status, cancelRequested));
      if id !in runs {
        return true;
      }
      var row := runs[id];
      if row.status != InProgress {
        if status != row.status {
          return false;
        }
        if cancelRequested != row.cancelRequested {
          return false;
        }
      }
      runs := runs[id := row.(status := status, cancelRequested := cancelRequested)];
      landed := true;
    }

    /** Truncation goes through exactly when what stays meets the constraints, and takes exactly the
        outbox rows of the deleted runs along. */
    method DeleteRuns(ids: set<Id>) returns (landed: bool)
      requires Valid()
      modifies this
      ensures Valid() && View() == Step(old(View()), Delete(ids))
      ensures landed <==> Constrained(old(runs) - ids)
      ensures runs == (if landed then old(runs) - ids else old(runs)) && nextSeq == old(nextSeq)
      ensures forall h :: h in hooks <==> h in old(hooks) && old(hooks)[h].run in runs
      ensures forall h :: h in hooks ==> hooks[h] == old(hooks)[h]
    {
      DeleteMeans(View(), hooks, ids);
      hide Sound, Constrained, Deletes;
      landed := Deletes(runs, ids);
      if landed {
        runs := runs - ids;
        hooks := map h | h in hooks && hooks[h].run in runs :: hooks[h];
      }
    }

    method DeleteSuperseded()
      modifies this`runs, this`hooks
      ensures runs == Latest(old(runs)) && hooks == Cascaded(old(hooks), runs)
    {
      runs := map u | u in runs && !Superseded(runs, u) :: runs[u];
      hooks := map h | h in hooks && hooks[h].run in runs :: hooks[h];
    }

    method Flatten()
      modifies this`runs
      ensures runs == map u | u in old(runs) :: Flattened(old(runs)[u])
    {
      runs := map u | u in runs ::
        if runs[u].attempt != 1 || runs[u].retryOf.Some? then runs[u].(attempt := 1, retryOf := None) else runs[u];
    }

    method Collapse()
      modifies this`runs, this`hooks
      ensures runs == Collapsed(old(runs)) && hooks == Cascaded(old(hooks), runs)
    {
      hide Latest, Flattened, Collapsed, Cascaded;
      SameCollapse(runs, hooks);
      DeleteSuperseded();
      Flatten();
    }

    /** Refuses, or drops the superseded attempts with their hooks, then flattens what is left. */
    method Downgrade() returns (landed: bool)
      requires Valid()
      modifies this
      ensures Valid() && nextSeq == old(nextSeq)
      ensures DowngradeTaken(old(runs), old(hooks), runs, hooks, landed)
      ensures landed ==> RestoredConstraints(runs)
    {
      DowngradeMeans(runs, hooks);
      SoundHasInv(View(), hooks);
      hide Inv, Sound, DowngradeTaken, Collapsed, Cascaded, Refused;
      if Refused(runs, hooks) {
        return false;
      }
      CollapseIsSound(View(), hooks);
      CollapseMeetsConstraints(runs) by { InvHasConstraints(View()); }
      hide RestoredConstraints;
      Collapse();
      landed := true;
    }
  }

  lemma {:induction false} InvHasConstraints(l: Ledger)
    requires Inv(l)
    ensures Constrained(l.runs)
  {
  }
}
