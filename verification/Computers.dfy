/** The backfill of migration 046: workspaces that share a sandbox elect one computer, users get one
    primary, and a second pass finds nothing to do. */
module Computers {
  import opened Options

  type Id = nat

  datatype Status = Creating | Starting | Running | Stopping | Stopped | Error | Deleted | Flash

  datatype Workspace = Workspace(
    user: nat, sandbox: Option<nat>, provider: Option<string>, status: Status,
    activity: Option<nat>, updated: nat, created: nat, computer: Option<Id>, dirName: Option<string>,
        layoutOrigin: Option<nat>)

  datatype Computer = Computer(
    user: nat, kind: string, providerRef: Option<nat>, status: Status,
    activity: Option<nat>, updated: nat, created: nat, primary: bool, origin: Option<Id>)

  datatype Grant = Grant(workspace: Id, computer: Option<Id>)

  datatype Tables = Tables(workspaces: map<Id, Workspace>, computers: map<Id, Computer>, grants: map<Id, Grant>)

  /** What the pass is run with: the configured kind, the clock, the ids and folder names it draws. */
  datatype Setting = Setting(kind: string, now: nat, draw: map<Id, Id>, folder: map<Id, string>)

  const KNOWN_KINDS: set<string> := {"daytona", "docker"}

  predicate LiveWorkspace(w: Workspace) { w.status != Deleted && w.status != Flash }

  predicate LiveComputer(c: Computer) { c.status != Deleted }

  function KindOf(w: Workspace, s: Setting): string { w.provider.GetOr(s.kind) }

  predicate Claims(c: Computer, w: Workspace, s: Setting) {
    LiveComputer(c) && c.kind == KindOf(w, s) && c.providerRef.Some? && c.providerRef == w.sandbox
  }

  predicate Claimed(t: Tables, w: Workspace, s: Setting) {
    exists c :: c in t.computers && Claims(t.computers[c], w, s)
  }

  predicate Sandboxed(w: Workspace) { LiveWorkspace(w) && w.sandbox.Some? }

  /** A live sandbox whose provider nobody knows stops the migration. */
  predicate Refused(t: Tables) {
    exists w :: w in t.workspaces && Sandboxed(t.workspaces[w]) && t.workspaces[w].provider.Some?
        && t.workspaces[w].provider.value !in KNOWN_KINDS
  }

  // ----- the election -----

  predicate Eligible(t: Tables, w: Id, s: Setting) {
    w in t.workspaces && Sandboxed(t.workspaces[w]) && t.workspaces[w].computer.None? && !Claimed(t, t.workspaces[w], s)
  }

  predicate SameSandbox(a: Workspace, b: Workspace, s: Setting) {
    KindOf(a, s) == KindOf(b, s) && a.sandbox == b.sandbox
  }

  /** When a row was last used; the date of its last update is never null. */
  function LastUsed(activity: Option<nat>, updated: nat): nat { activity.GetOr(updated) }

  /** Most recently used first, then the greater key. */
  predicate Outranks(usedA: nat, a: Id, usedB: nat, b: Id) { usedA > usedB || (usedA == usedB && a > b) }

  function WorkspaceUsed(w: Workspace): nat { LastUsed(w.activity, w.updated) }

  function ComputerUsed(c: Computer): nat { LastUsed(c.activity, c.updated) }

  predicate Wins(t: Tables, w: Id, s: Setting) {
    && Eligible(t, w, s)
    && forall v :: v in t.workspaces && v != w && SameSandbox(t.workspaces[v], t.workspaces[w], s) && Eligible(t, v, s)
         ==> Outranks(WorkspaceUsed(t.workspaces[w]), w, WorkspaceUsed(t.workspaces[v]), v)
  }

  /** An errored workspace's machine starts out stopped. */
  function Minted(w: Workspace, id: Id, s: Setting): Computer {
    Computer(w.user, KindOf(w, s), w.sandbox, if w.status == Error then Stopped
        else w.status, w.activity, s.now, w.created, false, Some(id))
  }

  /** Drawn ids are new, and different for different workspaces. */
  ghost predicate Fresh(t: Tables, s: Setting) {
    && t.workspaces.Keys <= s.draw.Keys && t.workspaces.Keys <= s.folder.Keys
    && (forall w :: w in s.draw ==> s.draw[w] !in t.computers)
    && (forall v, w :: v in s.draw && w in s.draw && v != w ==> s.draw[v] != s.draw[w])
  }

  function Inserted(t: Tables, s: Setting): map<Id, Computer>
    requires Fresh(t, s)
  {
    map w | w in t.workspaces && Wins(t, w, s) :: s.draw[w] := Minted(t.workspaces[w], w, s)
  }

  function Bound(t: Tables, s: Setting): map<Id, Workspace>
    requires Fresh(t, s)
  {
    map w | w in t.workspaces :: if Wins(t, w, s) then t.workspaces[w].(computer := Some(s.draw[w]))
        else t.workspaces[w]
  }

  function Elected(t: Tables, s: Setting): Tables
    requires Fresh(t, s)
  {
    t.(computers := t.computers + Inserted(t, s), workspaces := Bound(t, s))
  }

  // ----- the primary -----

  predicate LivePrimary(c: Computer) { c.primary && LiveComputer(c) }

  predicate Foremost(computers: map<Id, Computer>, c: Id)
    requires c in computers
  {
    && LiveComputer(computers[c])
    && forall d :: d in computers && d != c && LiveComputer(computers[d]) && computers[d].user == computers[c].user
         ==> Outranks(ComputerUsed(computers[c]), c, ComputerUsed(computers[d]), d)
  }

  predicate HasPrimary(computers: map<Id, Computer>, user: nat) {
    exists p :: p in computers && computers[p].user == user && LivePrimary(computers[p])
  }

  function Raised(computers: map<Id, Computer>): map<Id, Computer> {
    map c | c in computers ::
      if Foremost(computers, c) && !HasPrimary(computers, computers[c].user) then computers[c].(primary := true)
          else computers[c]
  }

  // ----- folders and grants -----

  function Foldered(workspaces: map<Id, Workspace>, s: Setting): map<Id, Workspace>
    requires workspaces.Keys <= s.folder.Keys
  {
    map w | w in workspaces ::
      if workspaces[w].computer.Some? && workspaces[w].dirName.None?
      then workspaces[w].(dirName := Some(s.folder[w]), layoutOrigin := Some(3)) else workspaces[w]
  }

  function Labelled(grants: map<Id, Grant>, workspaces: map<Id, Workspace>): map<Id, Grant> {
    map g | g in grants ::
      if grants[g].computer.None? && grants[g].workspace in workspaces && workspaces[grants[g].workspace].computer.Some?
      then grants[g].(computer := workspaces[grants[g].workspace].computer) else grants[g]
  }

  function Backfilled(t: Tables, s: Setting): Tables
    requires Fresh(t, s)
  {
    var e := Elected(t, s);
    var workspaces := Foldered(e.workspaces, s);
    Tables(workspaces, Raised(e.computers), Labelled(t.grants, workspaces))
  }

  // ----- the partial unique indexes -----

  ghost predicate OneClaimant(computers: map<Id, Computer>) {
    forall c, d :: c in computers && d in computers && c != d && LiveComputer(computers[c])
        && LiveComputer(computers[d])
                   && computers[c].providerRef.Some? && computers[c].providerRef == computers[d].providerRef
      ==> computers[c].kind != computers[d].kind
  }

  ghost predicate OnePrimary(computers: map<Id, Computer>) {
    forall c, d :: c in computers && d in computers && c != d && LivePrimary(computers[c]) && LivePrimary(computers[d])
      ==> computers[c].user != computers[d].user
  }

  // ----- what the election gives -----

  /** Every sandbox somebody is eligible for has a winner. */
  lemma {:induction false} AWinnerExists(t: Tables, s: Setting, among: set<Id>, w: Id) returns (best: Id)
    requires w in among && among <= t.workspaces.Keys
    requires forall v :: v in among ==> Eligible(t, v, s) && SameSandbox(t.workspaces[v], t.workspaces[w], s)
    ensures best in among
    ensures forall v :: v in among && v != best ==>
        Outranks(WorkspaceUsed(t.workspaces[best]), best, WorkspaceUsed(t.workspaces[v]), v)
    decreases |among|
  {
    if among == {w} {
      best := w;
    } else {
      var other :| other in among && other != w;
      var rest := AWinnerExists(t, s, among - {w}, other);
      best := if Outranks(WorkspaceUsed(t.workspaces[w]), w, WorkspaceUsed(t.workspaces[rest]), rest) then w else rest;
    }
  }

  lemma {:induction false} EligibleHasWinner(t: Tables, s: Setting, w: Id) returns (best: Id)
    requires Eligible(t, w, s)
    ensures Wins(t, best, s) && SameSandbox(t.workspaces[best], t.workspaces[w], s)
  {
    var among := set v | v in t.workspaces && Eligible(t, v, s) && SameSandbox(t.workspaces[v], t.workspaces[w], s);
    best := AWinnerExists(t, s, among, w);
    hide Claimed;
  }

  lemma {:induction false} WinnersDiffer(t: Tables, s: Setting, v: Id, w: Id)
    requires Wins(t, v, s) && Wins(t, w, s) && v != w
    ensures !SameSandbox(t.workspaces[v], t.workspaces[w], s)
  {
    hide Claimed;
  }

  lemma {:induction false} ElectionKeepsClaims(t: Tables, s: Setting)
    requires Fresh(t, s) && OneClaimant(t.computers)
    ensures OneClaimant(Elected(t, s).computers)
  {
    var after := Elected(t, s).computers;
    forall c, d | c in after && d in after && c != d && LiveComputer(after[c]) && LiveComputer(after[d])
                  && after[c].providerRef.Some? && after[c].providerRef == after[d].providerRef
      ensures after[c].kind != after[d].kind {
      if c !in t.computers && d !in t.computers {
        var v :| v in t.workspaces && Wins(t, v, s) && s.draw[v] == c;
        var w :| w in t.workspaces && Wins(t, w, s) && s.draw[w] == d;
        WinnersDiffer(t, s, v, w);
      } else if c !in t.computers {
        var v :| v in t.workspaces && Wins(t, v, s) && s.draw[v] == c;
        NotClaimedBy(t, s, v, d);
      } else if d !in t.computers {
        var w :| w in t.workspaces && Wins(t, w, s) && s.draw[w] == d;
        NotClaimedBy(t, s, w, c);
      }
    }
  }

  lemma {:induction false} NotClaimedBy(t: Tables, s: Setting, w: Id, c: Id)
    requires Eligible(t, w, s) && c in t.computers
    ensures !Claims(t.computers[c], t.workspaces[w], s)
  {
  }

  /** A winner gets the machine minted for it, every other workspace keeps what it had. */
  lemma {:induction false} ElectionBindsWinners(t: Tables, s: Setting, w: Id)
    requires Fresh(t, s) && w in t.workspaces
    ensures var e := Elected(t, s);
            if Wins(t, w, s) then
              && e.workspaces[w].computer == Some(s.draw[w]) && s.draw[w] in e.computers
              && e.computers[s.draw[w]] == Minted(t.workspaces[w], w, s)
                  && Claims(e.computers[s.draw[w]], t.workspaces[w], s)
            else e.workspaces[w] == t.workspaces[w]
  {
    hide Wins;
    if Wins(t, w, s) {
      WinnersAreSandboxed(t, s, w);
      assert s.draw[w] in Elected(t, s).computers;
    }
  }

  lemma {:induction false} WinnersAreSandboxed(t: Tables, s: Setting, w: Id)
    requires Wins(t, w, s)
    ensures w in t.workspaces && Sandboxed(t.workspaces[w]) && t.workspaces[w].computer.None?
  {
  }

  /** No machine loses its claim. */
  lemma {:induction false} ClaimsStay(t: Tables, s: Setting, w: Workspace)
    requires Fresh(t, s) && Claimed(t, w, s)
    ensures Claimed(Elected(t, s), w, s)
  {
    hide Wins;
    var c :| c in t.computers && Claims(t.computers[c], w, s);
    assert c in Elected(t, s).computers && Elected(t, s).computers[c] == t.computers[c];
  }

  /** After the election, a live sandboxed workspace has its computer, or another has its sandbox. */
  lemma {:induction false} EveryoneIsPlaced(t: Tables, s: Setting, w: Id)
    requires Fresh(t, s) && w in t.workspaces && Sandboxed(t.workspaces[w])
    ensures Elected(t, s).workspaces[w].computer.Some? || Claimed(Elected(t, s), t.workspaces[w], s)
  {
    if Claimed(t, t.workspaces[w], s) {
      ClaimsStay(t, s, t.workspaces[w]);
    } else if t.workspaces[w].computer.None? {
      var best := EligibleHasWinner(t, s, w);
      ElectionBindsWinners(t, s, best);
      hide Wins, Elected;
      assert Claims(Elected(t, s).computers[s.draw[best]], t.workspaces[w], s);
    } else {
      ElectionBindsWinners(t, s, w);
    }
  }

  // ----- what the ranking gives -----

  lemma {:induction false} AForemostExists(computers: map<Id, Computer>, among: set<Id>, c: Id) returns (best: Id)
    requires c in among && among <= computers.Keys
    ensures best in among
    ensures forall d :: d in among && d != best ==>
        Outranks(ComputerUsed(computers[best]), best, ComputerUsed(computers[d]), d)
    decreases |among|
  {
    if among == {c} {
      best := c;
    } else {
      var other :| other in among && other != c;
      var rest := AForemostExists(computers, among - {c}, other);
      best := if Outranks(ComputerUsed(computers[c]), c, ComputerUsed(computers[rest]), rest) then c else rest;
    }
  }

  /** Every user with a live computer ends with exactly one live primary; who had one keeps it. */
  lemma {:induction false} OnePrimaryEach(computers: map<Id, Computer>, c: Id) returns (p: Id)
    requires OnePrimary(computers) && c in computers && LiveComputer(computers[c])
    ensures p in Raised(computers) && Raised(computers)[p].user == computers[c].user
        && LivePrimary(Raised(computers)[p])
    ensures HasPrimary(computers, computers[c].user) ==> LivePrimary(computers[p])
  {
    if HasPrimary(computers, computers[c].user) {
      p :| p in computers && computers[p].user == computers[c].user && LivePrimary(computers[p]);
    } else {
      var among := set d | d in computers && LiveComputer(computers[d]) && computers[d].user == computers[c].user;
      p := AForemostExists(computers, among, c);
      assert Foremost(computers, p);
    }
  }

  lemma {:induction false} OnePrimaryKept(computers: map<Id, Computer>)
    requires OnePrimary(computers)
    ensures OnePrimary(Raised(computers))
  {
    var after := Raised(computers);
    forall c, d | c in after && d in after && c != d && LivePrimary(after[c]) && LivePrimary(after[d])
      ensures after[c].user != after[d].user {
      if LivePrimary(computers[c]) { assert HasPrimary(computers, computers[c].user); }
      if LivePrimary(computers[d]) { assert HasPrimary(computers, computers[d].user); }
    }
  }

  lemma {:induction false} RaisingKeepsIndexes(computers: map<Id, Computer>)
    requires OneClaimant(computers) && OnePrimary(computers)
    ensures OneClaimant(Raised(computers)) && OnePrimary(Raised(computers))
  {
    OnePrimaryKept(computers);
    hide Foremost, HasPrimary, OnePrimary;
  }

  // ----- the whole pass -----

  ghost predicate Indexed(t: Tables) { OneClaimant(t.computers) && OnePrimary(t.computers) }

  lemma {:induction false} MintedIsNotPrimary(t: Tables, s: Setting, c: Id)
    requires Fresh(t, s) && c in Elected(t, s).computers
    ensures (c in t.computers && Elected(t, s).computers[c] == t.computers[c]) || !Elected(t, s).computers[c].primary
  {
    hide Wins;
  }

  lemma {:induction false} ElectionKeepsIndexes(t: Tables, s: Setting)
    requires Fresh(t, s) && Indexed(t)
    ensures Indexed(Elected(t, s))
  {
    ElectionKeepsClaims(t, s);
    hide Wins, Elected, OneClaimant;
    var after := Elected(t, s).computers;
    forall c, d | c in after && d in after && c != d && LivePrimary(after[c]) && LivePrimary(after[d])
      ensures after[c].user != after[d].user {
      MintedIsNotPrimary(t, s, c);
      MintedIsNotPrimary(t, s, d);
    }
  }

  lemma {:induction false} BackfillKeepsIndexes(t: Tables, s: Setting)
    requires Fresh(t, s) && Indexed(t)
    ensures Indexed(Backfilled(t, s))
  {
    ElectionKeepsIndexes(t, s);
    RaisingKeepsIndexes(Elected(t, s).computers);
    hide OneClaimant, OnePrimary, Elected, Raised;
  }

  /** Raising a primary moves no claim. */
  lemma {:induction false} RaisingKeepsClaimants(e: Tables, b: Tables, x: Workspace, s: Setting)
    requires b.computers == Raised(e.computers)
    ensures Claimed(b, x, s) <==> Claimed(e, x, s)
  {
    hide Foremost, HasPrimary;
    forall c | c in e.computers
      ensures c in b.computers && (Claims(b.computers[c], x, s) <==> Claims(e.computers[c], x, s)) {
    }
  }

  /** Naming folders binds nobody. */
  ghost predicate SameButFolder(a: Workspace, b: Workspace) {
    b.(dirName := a.dirName, layoutOrigin := a.layoutOrigin) == a
  }

  lemma {:induction false} TheRestKeepsBindings(t: Tables, s: Setting, w: Id)
    requires Fresh(t, s) && w in t.workspaces
    ensures w in Elected(t, s).workspaces && w in Backfilled(t, s).workspaces
    ensures SameButFolder(Elected(t, s).workspaces[w], Backfilled(t, s).workspaces[w])
  {
    hide Wins, Raised, Labelled;
  }

  /** After one pass, every live sandboxed workspace is bound, or its sandbox is claimed. */
  lemma {:induction false} EverySandboxIsSettled(t: Tables, s: Setting, w: Id)
    requires Fresh(t, s) && w in t.workspaces && Sandboxed(t.workspaces[w])
    ensures w in Backfilled(t, s).workspaces
    ensures Backfilled(t, s).workspaces[w].computer.Some? || Claimed(Backfilled(t, s), t.workspaces[w], s)
  {
    EveryoneIsPlaced(t, s, w);
    TheRestKeepsBindings(t, s, w);
    RaisingKeepsClaimants(Elected(t, s), Backfilled(t, s), t.workspaces[w], s);
    hide Wins, Elected, Backfilled, Claimed;
  }

  /** The pass changes nothing of a workspace but its binding and its folder. */
  lemma {:induction false} OnlyBindingMoves(t: Tables, s: Setting, w: Id)
    requires Fresh(t, s) && w in t.workspaces
    ensures w in Backfilled(t, s).workspaces
    ensures var a, b := t.workspaces[w], Backfilled(t, s).workspaces[w];
            && b.(computer := a.computer, dirName := a.dirName, layoutOrigin := a.layoutOrigin) == a
            && b.computer == if Wins(t, w, s) then Some(s.draw[w]) else a.computer
  {
    TheRestKeepsBindings(t, s, w);
    hide Wins, Backfilled;
  }

  /** So nobody is eligible in a second pass. */
  lemma {:induction false} NobodyIsLeft(t: Tables, s: Setting, w: Id)
    requires Fresh(t, s)
    ensures !Eligible(Backfilled(t, s), w, s)
  {
    if w in t.workspaces {
      OnlyBindingMoves(t, s, w);
      var a, b := t.workspaces[w], Backfilled(t, s).workspaces[w];
      if Sandboxed(a) && b.computer.None? {
        EverySandboxIsSettled(t, s, w);
        SameSandboxSameClaims(Backfilled(t, s), a, b, s);
      }
    }
    hide Wins, Elected, Backfilled, Claimed;
    assert Backfilled(t, s).workspaces.Keys == t.workspaces.Keys by { WorkspacesStay(t, s); }
  }

  lemma {:induction false} WorkspacesStay(t: Tables, s: Setting)
    requires Fresh(t, s)
    ensures Backfilled(t, s).workspaces.Keys == t.workspaces.Keys
  {
    hide Wins, Raised, Labelled;
  }

  lemma {:induction false} SameSandboxSameClaims(t: Tables, a: Workspace, b: Workspace, s: Setting)
    requires a.provider == b.provider && a.sandbox == b.sandbox
    ensures Claimed(t, a, s) <==> Claimed(t, b, s)
  {
    assert forall c :: c in t.computers ==> (Claims(t.computers[c], a, s) <==> Claims(t.computers[c], b, s));
  }

  // ----- a second pass -----

  lemma {:induction false} EligibilityIsByKind(t: Tables, s: Setting, s': Setting, w: Id)
    requires s.kind == s'.kind
    ensures Eligible(t, w, s) <==> Eligible(t, w, s')
  {
    if w in t.workspaces {
      assert forall c :: c in t.computers ==>
          (Claims(t.computers[c], t.workspaces[w], s) <==> Claims(t.computers[c], t.workspaces[w], s'));
    }
  }

  lemma {:induction false} OnlyEligibleWin(t: Tables, s: Setting, w: Id)
    requires !Eligible(t, w, s)
    ensures !Wins(t, w, s)
  {
    hide Eligible;
  }

  lemma {:induction false} NoWinnersNothingInserted(t: Tables, s: Setting)
    requires Fresh(t, s) && forall w :: !Wins(t, w, s)
    ensures Inserted(t, s) == map[]
  {
    hide Wins;
  }

  lemma {:induction false} NoWinnersNobodyBound(t: Tables, s: Setting)
    requires Fresh(t, s) && forall w :: !Wins(t, w, s)
    ensures Bound(t, s) == t.workspaces
  {
    hide Wins;
  }

  lemma {:induction false} NoWinnersNoChange(t: Tables, s: Setting)
    requires Fresh(t, s) && forall w :: !Wins(t, w, s)
    ensures Elected(t, s) == t
  {
    NoWinnersNothingInserted(t, s);
    NoWinnersNobodyBound(t, s);
    hide Fresh, Wins, Inserted, Bound;
    assert t.computers + map[] == t.computers;
  }

  lemma {:induction false} NobodyElected(t: Tables, s: Setting)
    requires Fresh(t, s) && forall w :: !Eligible(t, w, s)
    ensures Elected(t, s) == t
  {
    hide Eligible, Wins, Elected;
    forall w ensures !Wins(t, w, s) { OnlyEligibleWin(t, s, w); }
    NoWinnersNoChange(t, s);
  }

  lemma {:induction false} RaisingTwice(computers: map<Id, Computer>)
    requires OnePrimary(computers)
    ensures Raised(Raised(computers)) == Raised(computers)
  {
    var after := Raised(computers);
    forall c | c in after && LiveComputer(after[c]) ensures HasPrimary(after, after[c].user) {
      var p := OnePrimaryEach(computers, c);
    }
    hide HasPrimary;
  }

  lemma {:induction false} FoldingTwice(workspaces: map<Id, Workspace>, s: Setting, s': Setting)
    requires workspaces.Keys <= s.folder.Keys && workspaces.Keys <= s'.folder.Keys
    ensures Foldered(Foldered(workspaces, s), s') == Foldered(workspaces, s)
  {
  }

  lemma {:induction false} LabellingTwice(grants: map<Id, Grant>, workspaces: map<Id, Workspace>)
    ensures Labelled(Labelled(grants, workspaces), workspaces) == Labelled(grants, workspaces)
  {
  }

  /** A second pass, whatever ids and names it would draw, changes nothing. */
  lemma {:induction false} SecondPassChangesNothing(t: Tables, s: Setting, s': Setting)
    requires Fresh(t, s) && Indexed(t) && s'.kind == s.kind && Fresh(Backfilled(t, s), s')
    ensures Backfilled(Backfilled(t, s), s') == Backfilled(t, s)
  {
    var b := Backfilled(t, s);
    forall w ensures !Eligible(b, w, s') {
      NobodyIsLeft(t, s, w);
      EligibilityIsByKind(b, s, s', w);
    }
    NobodyElected(b, s');
    ElectionKeepsIndexes(t, s);
    RaisingTwice(Elected(t, s).computers);
    FoldingTwice(Elected(t, s).workspaces, s, s');
    LabellingTwice(t.grants, b.workspaces);
    hide Eligible, Elected, Raised, Foldered, Labelled;
  }

  /** After one pass, every user with a live computer has one live primary, and no second. */
  lemma {:induction false} EveryUserHasOnePrimary(t: Tables, s: Setting, c: Id) returns (p: Id)
    requires Fresh(t, s) && Indexed(t) && c in Backfilled(t, s).computers
    requires Backfilled(t, s).computers[c].status != Deleted
    ensures var after := Backfilled(t, s).computers;
            && p in after && after[p].user == after[c].user && after[p].primary && after[p].status != Deleted
            && forall q ::
                 q in after && after[q].user == after[c].user && after[q].primary && after[q].status != Deleted ==>
                   q == p
  {
    ElectionKeepsIndexes(t, s);
    BackfillKeepsIndexes(t, s);
    var e := Elected(t, s);
    assert c in e.computers && LiveComputer(e.computers[c])
        && e.computers[c].user == Backfilled(t, s).computers[c].user;
    p := OnePrimaryEach(e.computers, c);
    hide Elected, Raised, OneClaimant;
  }

  /** A primary from before the pass is still the one. */
  lemma {:induction false} PrimariesStay(t: Tables, s: Setting, p: Id)
    requires Fresh(t, s) && Indexed(t) && p in t.computers && LivePrimary(t.computers[p])
    ensures Backfilled(t, s).computers[p] == t.computers[p]
  {
    var e := Elected(t, s);
    assert p in e.computers && e.computers[p] == t.computers[p] by { hide Wins; }
    assert HasPrimary(e.computers, e.computers[p].user);
    hide Elected;
  }

  /** In the running for a computer: neither deleted nor a flash workspace, with a sandbox that no live
      computer of its kind is for, and not bound yet. */
  predicate Contends(t: Tables, w: Id, kind: string) {
    && w in t.workspaces
    && var x := t.workspaces[w];
       && x.status != Deleted && x.status != Flash && x.sandbox.Some? && x.computer.None?
       && forall c ::
            c in t.computers && t.computers[c].status != Deleted && t.computers[c].providerRef == x.sandbox ==>
              t.computers[c].kind != x.provider.GetOr(kind)
  }

  /** Every other contender for the sandbox was used before, or at once with a smaller id. */
  ghost predicate LastUsedOf(t: Tables, w: Id, kind: string)
    requires w in t.workspaces
  {
    var a := t.workspaces[w];
    forall v: Id ::
      v != w && Contends(t, v, kind) && t.workspaces[v].sandbox == a.sandbox
      && t.workspaces[v].provider.GetOr(kind) == a.provider.GetOr(kind) ==>
        var b := t.workspaces[v];
        || b.activity.GetOr(b.updated) < a.activity.GetOr(a.updated)
        || (b.activity.GetOr(b.updated) == a.activity.GetOr(a.updated) && v < w)
  }

  lemma {:induction false} ContendersAreEligible(t: Tables, s: Setting, w: Id)
    ensures Contends(t, w, s.kind) <==> Eligible(t, w, s)
  {
  }

  lemma {:induction false} WinnersAreLastUsed(t: Tables, s: Setting, w: Id)
    requires w in t.workspaces
    ensures Wins(t, w, s) <==> Contends(t, w, s.kind) && LastUsedOf(t, w, s.kind)
  {
    forall v ensures Contends(t, v, s.kind) <==> Eligible(t, v, s) { ContendersAreEligible(t, s, v); }
    hide Eligible, Contends;
  }

  /** A workspace gains a computer exactly when it contends and was the last used of its sandbox's
      contenders. */
  lemma {:induction false} GainsExactly(t: Tables, s: Setting, w: Id)
    requires Fresh(t, s) && w in t.workspaces && t.workspaces[w].computer.None?
    ensures w in Backfilled(t, s).workspaces
    ensures Backfilled(t, s).workspaces[w].computer.Some? <==> Contends(t, w, s.kind) && LastUsedOf(t, w, s.kind)
  {
    OnlyBindingMoves(t, s, w);
    WinnersAreLastUsed(t, s, w);
    hide Wins, Contends, LastUsedOf, Backfilled, Fresh;
  }

  /** The computer a workspace gains is new, its own user's, for its own sandbox, rooted at it, and
      stopped where the workspace had failed. */
  lemma {:induction false} MachinesAreTheWinners(t: Tables, s: Setting, w: Id)
    requires Fresh(t, s) && w in t.workspaces && t.workspaces[w].computer.None?
    requires w in Backfilled(t, s).workspaces && Backfilled(t, s).workspaces[w].computer.Some?
    ensures var a, c := t.workspaces[w], Backfilled(t, s).workspaces[w].computer.value;
            && c in Backfilled(t, s).computers && c !in t.computers
            && var m := Backfilled(t, s).computers[c];
            && m.user == a.user && m.providerRef == a.sandbox && m.kind == a.provider.GetOr(s.kind)
            && m.origin == Some(w)
            && m.status == (if a.status == Error then Stopped else a.status)
            && m.activity == a.activity && m.created == a.created
  {
    OnlyBindingMoves(t, s, w);
    ElectionBindsWinners(t, s, w);
    hide Eligible, Elected, Foremost, HasPrimary;
  }

  /** More recently used, or the greater id where both were used at once. */
  predicate UsedAfter(a: Computer, c: Id, b: Computer, d: Id) {
    || b.activity.GetOr(b.updated) < a.activity.GetOr(a.updated)
    || (b.activity.GetOr(b.updated) == a.activity.GetOr(a.updated) && d < c)
  }

  lemma {:induction false} RaisedExactly(computers: map<Id, Computer>, c: Id)
    requires c in computers && !LivePrimary(computers[c])
    ensures var after := Raised(computers);
            LivePrimary(after[c]) <==>
            && LiveComputer(computers[c])
            && (forall p :: p in computers && computers[p].user == computers[c].user ==> !LivePrimary(computers[p]))
            && forall d :: d in after && d != c && LiveComputer(after[d]) && after[d].user == after[c].user ==>
                 UsedAfter(after[c], c, after[d], d)
  {
    forall d | d in computers
      ensures d in Raised(computers) && Raised(computers)[d] == computers[d].(primary := Raised(computers)[d].primary)
      ensures UsedAfter(Raised(computers)[c], c, Raised(computers)[d], d) <==>
              Outranks(ComputerUsed(computers[c]), c, ComputerUsed(computers[d]), d) { }
    hide UsedAfter, Outranks, ComputerUsed;
  }

  /** A computer the pass makes primary is the last used of its user's live computers, the minted ones
      among them, and the user had no live primary. */
  lemma {:induction false} PrimariesGoToTheLastUsed(t: Tables, s: Setting, c: Id)
    requires Fresh(t, s) && c in Backfilled(t, s).computers && LivePrimary(Backfilled(t, s).computers[c])
    requires c in t.computers ==> !LivePrimary(t.computers[c])
    ensures var after := Backfilled(t, s).computers;
            && (forall p :: p in t.computers && t.computers[p].user == after[c].user ==> !LivePrimary(t.computers[p]))
            && forall d :: d in after && d != c && LiveComputer(after[d]) && after[d].user == after[c].user ==>
                 UsedAfter(after[c], c, after[d], d)
  {
    var before := Elected(t, s).computers;
    MintedIsNotPrimary(t, s, c);
    RaisedExactly(before, c);
    assert forall p :: p in t.computers ==> p in before && before[p] == t.computers[p] by { hide Wins; }
    assert before[c].user == Raised(before)[c].user;
    hide Elected, Foldered, Labelled, Raised, UsedAfter;
  }

  /** The pass gives exactly the bound workspaces without a folder the drawn one, in the third layout. */
  lemma {:induction false} FoldersFollow(t: Tables, s: Setting)
    requires Fresh(t, s)
    ensures var b := Backfilled(t, s).workspaces;
            && b.Keys == t.workspaces.Keys
            && forall w :: w in t.workspaces ==>
                 if b[w].computer.Some? && t.workspaces[w].dirName.None?
                 then b[w].dirName == Some(s.folder[w]) && b[w].layoutOrigin == Some(3)
                 else b[w].dirName == t.workspaces[w].dirName && b[w].layoutOrigin == t.workspaces[w].layoutOrigin
  {
    hide Wins, Raised, Labelled;
  }

  /** Every unplaced grant of a bound workspace is afterwards on that workspace's computer; a placed one
      stays where it is. */
  lemma {:induction false} GrantsFollow(t: Tables, s: Setting)
    requires Fresh(t, s)
    ensures var b := Backfilled(t, s);
            && b.grants.Keys == t.grants.Keys
            && forall g :: g in t.grants ==>
                 if t.grants[g].computer.Some? then b.grants[g] == t.grants[g]
                 else b.grants[g].workspace in b.workspaces ==>
                     b.grants[g].computer == b.workspaces[b.grants[g].workspace].computer
  {
    hide Elected, Foldered, Raised;
  }
}
