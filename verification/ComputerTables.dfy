/** The tables of migration 046 under their indexes and keys, and the pass run on them in place. */
module ComputerTables {
  import opened Options
  import opened Computers

  // ----- the folders' unique index -----

  /** idx_workspaces_computer_dir: no two workspaces of one computer share a folder. */
  predicate OneFolder(workspaces: map<Id, Workspace>) {
    forall v, w :: v in workspaces && w in workspaces && v != w && workspaces[v].computer.Some?
                   && workspaces[v].computer == workspaces[w].computer && workspaces[v].dirName.Some?
      ==> workspaces[v].dirName != workspaces[w].dirName
  }

  /** The foreign key: a bound workspace's computer is there. */
  ghost predicate Linked(t: Tables) {
    forall w :: w in t.workspaces && t.workspaces[w].computer.Some? ==> t.workspaces[w].computer.value in t.computers
  }

  /** The folder a bound workspace has or would be given. */
  function FolderOf(t: Tables, s: Setting, w: Id): string
    requires w in t.workspaces && t.workspaces.Keys <= s.folder.Keys
  {
    t.workspaces[w].dirName.GetOr(s.folder[w])
  }

  /** The folders of workspaces that shared a computer before the pass, drawn ones included, differ. */
  ghost predicate DrawnApart(t: Tables, s: Setting)
    requires t.workspaces.Keys <= s.folder.Keys
  {
    forall v, w :: v in t.workspaces && w in t.workspaces && v != w && t.workspaces[v].computer.Some?
                   && t.workspaces[v].computer == t.workspaces[w].computer
      ==> FolderOf(t, s, v) != FolderOf(t, s, w)
  }

  /** Bound workspaces all have a folder afterwards: the one they had, or the one drawn. */
  lemma {:induction false} FolderAfter(t: Tables, s: Setting, w: Id)
    requires Fresh(t, s) && w in t.workspaces
    ensures w in Backfilled(t, s).workspaces
    ensures Backfilled(t, s).workspaces[w].computer.Some? ==>
        Backfilled(t, s).workspaces[w].dirName == Some(FolderOf(t, s, w))
  {
    hide Wins, Raised, Labelled;
  }

  /** Who shares a computer after the pass shared it before: a minted one has one workspace. */
  lemma {:induction false} SharersWereBound(t: Tables, s: Setting, v: Id, w: Id)
    requires Fresh(t, s) && Linked(t) && v in t.workspaces && w in t.workspaces && v != w
    ensures v in Backfilled(t, s).workspaces && w in Backfilled(t, s).workspaces
    ensures var b := Backfilled(t, s).workspaces;
            b[v].computer.Some? && b[v].computer == b[w].computer
            <==> t.workspaces[v].computer.Some? && t.workspaces[v].computer == t.workspaces[w].computer
  {
    OnlyBindingMoves(t, s, v);
    OnlyBindingMoves(t, s, w);
    BoundDoNotWin(t, s, v);
    BoundDoNotWin(t, s, w);
    hide Wins, Backfilled;
  }

  lemma {:induction false} BoundDoNotWin(t: Tables, s: Setting, w: Id)
    requires w in t.workspaces
    ensures Wins(t, w, s) ==> t.workspaces[w].computer.None?
  {
  }

  /** The pass keeps the index exactly when the folders drawn for workspaces that already share a
      computer differ; on a first pass none does. */
  lemma {:induction false} FoldersExactly(t: Tables, s: Setting)
    requires Fresh(t, s) && Linked(t)
    ensures OneFolder(Backfilled(t, s).workspaces) <==> DrawnApart(t, s)
  {
    var b := Backfilled(t, s).workspaces;
    WorkspacesStay(t, s);
    forall v | v in t.workspaces ensures b[v].computer.Some? ==> b[v].dirName == Some(FolderOf(t, s, v)) {
      FolderAfter(t, s, v);
    }
    forall v, w | v in t.workspaces && w in t.workspaces && v != w
      ensures b[v].computer.Some? && b[v].computer == b[w].computer
              <==> t.workspaces[v].computer.Some? && t.workspaces[v].computer == t.workspaces[w].computer {
      SharersWereBound(t, s, v, w);
    }
    hide Backfilled, FolderOf, Linked, Fresh;
  }

  lemma {:induction false} SharedWithoutFolders() returns (t: Tables, s: Setting)
    ensures Fresh(t, s) && Indexed(t) && OneFolder(t.workspaces) && Linked(t) && !Refused(t)
    ensures !DrawnApart(t, s)
  {
    var w := Workspace(1, None, None, Running, None, 0, 0, Some(9), None, None);
    t := Tables(map[1 := w, 2 := w], map[9 := Computer(1, "docker", None, Running, None, 0, 0, true, None)], map[]);
    s := Setting("docker", 5, map[1 := 10, 2 := 11], map[1 := "site-ab12", 2 := "site-ab12"]);
    assert t.workspaces[1] == t.workspaces[2] && FolderOf(t, s, 1) == FolderOf(t, s, 2);
  }

  /** Two workspaces left on one computer without folders, for which the same folder is drawn. */
  lemma {:induction false} DrawnFoldersCanClash() returns (t: Tables, s: Setting)
    ensures Fresh(t, s) && Indexed(t) && OneFolder(t.workspaces) && Linked(t) && !Refused(t)
    ensures !OneFolder(Backfilled(t, s).workspaces)
  {
    hide *;
    t, s := SharedWithoutFolders();
    FoldersExactly(t, s);
  }

  lemma {:induction false} BackfillKeepsLinks(t: Tables, s: Setting)
    requires Fresh(t, s) && Linked(t)
    ensures Linked(Backfilled(t, s))
  {
    var b := Backfilled(t, s);
    forall w | w in b.workspaces && b.workspaces[w].computer.Some?
      ensures b.workspaces[w].computer.value in b.computers {
      WorkspacesStay(t, s);
      OnlyBindingMoves(t, s, w);
      ElectionBindsWinners(t, s, w);
    }
  }

  // ----- the primaries -----

  /** Every user with a live computer has a live primary, nobody a second, who had one keeps it, and
      nothing but that flag moved. */
  ghost predicate PrimariesSettled(a: map<Id, Computer>, b: map<Id, Computer>) {
    && b.Keys == a.Keys && OnePrimary(b)
    && (forall c :: c in a ==> b[c].(primary := a[c].primary) == a[c])
    && (forall c :: c in a && LiveComputer(a[c]) ==> HasPrimary(b, a[c].user))
    && (forall c :: c in a && LivePrimary(a[c]) ==> b[c] == a[c])
  }

  lemma {:induction false} RaisingSettles(computers: map<Id, Computer>)
    requires OnePrimary(computers)
    ensures PrimariesSettled(computers, Raised(computers))
  {
    var after := Raised(computers);
    OnePrimaryKept(computers);
    forall c | c in computers && LiveComputer(computers[c]) ensures HasPrimary(after, computers[c].user) {
      var p := OnePrimaryEach(computers, c);
    }
    forall c | c in computers && LivePrimary(computers[c]) ensures after[c] == computers[c] {
      assert HasPrimary(computers, computers[c].user);
    }
    hide OnePrimary, Foremost, HasPrimary;
  }

  /** Every live workspace with a sandbox names one of the two providers, or none. */
  predicate ProvidersKnown(workspaces: map<Id, Workspace>) {
    forall w :: w in workspaces ==>
      var x := workspaces[w];
      x.status != Deleted && x.status != Flash && x.sandbox.Some? && x.provider.Some? ==>
        x.provider.value == "daytona" || x.provider.value == "docker"
  }

  lemma {:induction false} RefusedExactly(t: Tables)
    ensures Refused(t) <==> !ProvidersKnown(t.workspaces)
  {
  }

  // ----- the tables, changed in place -----

  class Database {
    var workspaces: map<Id, Workspace>
    var computers: map<Id, Computer>
    var grants: map<Id, Grant>

    ghost function View(): Tables
      reads this
    {
      Tables(workspaces, computers, grants)
    }

    /** The three partial unique indexes, and the foreign key from workspaces to computers. */
    ghost predicate Valid()
      reads this
    {
      Indexed(View()) && OneFolder(workspaces) && Linked(View())
    }

    constructor (t: Tables)
      requires Indexed(t) && OneFolder(t.workspaces) && Linked(t)
      ensures Valid() && View() == t
    {
      workspaces, computers, grants := t.workspaces, t.computers, t.grants;
    }

    /** One statement: the election reads the tables as they were before it. */
    method ElectAndBind(s: Setting)
      requires Fresh(View(), s)
      modifies this
      ensures View() == Elected(old(View()), s)
    {
      var t := Tables(workspaces, computers, grants);
      hide Fresh, Wins, Inserted, Bound;
      computers := computers + Inserted(t, s);
      workspaces := Bound(t, s);
    }

    method RaisePrimaries()
      modifies this`computers
      ensures computers == Raised(old(computers))
    {
      computers := computers
        + map c | c in computers && Foremost(computers, c) && !HasPrimary(computers, computers[c].user) ::
            computers[c].(primary := true);
    }

    /** Names the folders; a name taken on its computer violates the unique index. */
    method NameFolders(s: Setting) returns (ok: bool)
      requires workspaces.Keys <= s.folder.Keys
      modifies this`workspaces
      ensures workspaces == Foldered(old(workspaces), s)
      ensures ok <==> OneFolder(workspaces)
    {
      workspaces := workspaces + map w | w in workspaces && workspaces[w].computer.Some?
          && workspaces[w].dirName.None? ::
        workspaces[w].(dirName := Some(s.folder[w]), layoutOrigin := Some(3));
      ok := OneFolder(workspaces);
    }

    method LabelGrants()
      modifies this`grants
      ensures grants == Labelled(old(grants), workspaces)
    {
      grants := grants + map g | g in grants && grants[g].computer.None? && grants[g].workspace in workspaces
                                 && workspaces[grants[g].workspace].computer.Some? ::
        grants[g].(computer := workspaces[grants[g].workspace].computer);
    }

    /** The statements in their order, up to the one that may violate the folders' index. */
    method RunStatements(s: Setting) returns (ok: bool)
      requires Fresh(View(), s)
      modifies this
      ensures ok <==> OneFolder(Backfilled(old(View()), s).workspaces)
      ensures ok ==> View() == Backfilled(old(View()), s)
    {
      assert Elected(View(), s).workspaces.Keys <= s.folder.Keys;
      hide Fresh, OneFolder, Elected, Foldered, Raised, Labelled;
      ElectAndBind(s);
      RaisePrimaries();
      ok := NameFolders(s);
      if ok {
        LabelGrants();
      }
    }

    /** Goes through exactly when every provider is known and the drawn folders differ where computers
        are shared; otherwise the transaction leaves everything as it was. */
    method Backfill(s: Setting) returns (done: bool)
      requires Valid() && Fresh(View(), s)
      modifies this
      ensures Valid()
      ensures done <==> ProvidersKnown(old(workspaces)) && DrawnApart(old(View()), s)
      ensures View() == if done then Backfilled(old(View()), s) else old(View())
    {
      hide Fresh, Indexed, OneFolder, Linked, DrawnApart, ProvidersKnown, Backfilled, Refused;
      var saved := Tables(workspaces, computers, grants);
      RefusedExactly(saved);
      if Refused(saved) {
        return false;
      }
      BackfillKeepsIndexes(saved, s);
      BackfillKeepsLinks(saved, s);
      FoldersExactly(saved, s);
      done := RunStatements(s);
      if !done {
        workspaces, computers, grants := saved.workspaces, saved.computers, saved.grants;
      }
    }
  }
}
