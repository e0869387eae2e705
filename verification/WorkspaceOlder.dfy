/** Changes taken back from under later ones: an older checkpoint, or changes that are named.

    Nothing checks such a rollback against later changes of the same files.  It can finish all the same, and
    this module decides when the changes that stay still explain the files. */
module WorkspaceOlder {
  import opened Wrappers
  import opened Workspace
  import opened WorkspaceUndo
  import opened WorkspaceState
  import opened WorkspaceRuns

  /** The files that a history leads to. */
  function FilesAt(start: Files, log: seq<Logged>): Files {
    var files := ApplyAll(start, Changes(log));
    if files.Ok? then files.value else map[]
  }

  /** A history that happened, each change of which can be taken back. */
  predicate Happened(start: Files, log: seq<Logged>) {
    ApplyAll(start, Changes(log)).Ok? && AllFormed(Changes(log)) && AllUndoable(start, Changes(log))
  }

  lemma HappenedStep(start: Files, log: seq<Logged>)
    requires Happened(start, log) && log != []
    ensures var before, c := log[..|log| - 1], log[|log| - 1].change;
            && Happened(start, before) && Formed(c) && Undoable(FilesAt(start, before), c)
            && Apply(FilesAt(start, before), c) == Ok(FilesAt(start, log))
  {
    hide Apply, Formed, Undoable, ApplyAll, AllUndoable;
    var n := |log| - 1;
    assert Changes(log) == Changes(log[..n]) + [log[n].change];
    ApplyAllThen(start, Changes(log[..n]), log[n].change);
    AllUndoableThen(start, Changes(log[..n]), log[n].change);
    assert forall c <- Changes(log[..n]) :: c in Changes(log);
    assert log[n].change in Changes(log);
  }

  // ----- the changes of one path -----

  predicate Touches(l: Logged, p: Path, selected: bool) {
    l.selected == selected && p in Touched(l.change)
  }

  /** A change to take back touches the path. */
  predicate ChosenOn(log: seq<Logged>, p: Path) {
    log != [] && (ChosenOn(log[..|log| - 1], p) || Touches(log[|log| - 1], p, true))
  }

  /** The last change that touches the path is one that stays. */
  predicate KeptLast(log: seq<Logged>, p: Path) {
    log != [] && (Touches(log[|log| - 1], p, false) || (!Touches(log[|log| - 1], p, true) && KeptLast(log[..|log| - 1], p)))
  }

  /** What the oldest change to take back found of the path. */
  function Found(start: Files, log: seq<Logged>, p: Path): Option<Content> {
    if !ChosenOn(log, p) then None
    else if ChosenOn(log[..|log| - 1], p) then Found(start, log[..|log| - 1], p)
    else Version(FilesAt(start, log[..|log| - 1]), p)
  }

  /** What the newest one left of it. */
  function Left(start: Files, log: seq<Logged>, p: Path): Option<Content> {
    if log == [] then None
    else if Touches(log[|log| - 1], p, true) then Version(FilesAt(start, log), p)
    else Left(start, log[..|log| - 1], p)
  }

  /** Wherever a change that stays touches the path, the changes to take back before it have cancelled out on
      it: the newest left what the oldest found. */
  predicate Cancelled(start: Files, log: seq<Logged>, p: Path) {
    log == []
    || (var before := log[..|log| - 1];
        && Cancelled(start, before, p)
        && (Touches(log[|log| - 1], p, false) && ChosenOn(before, p) ==> Left(start, before, p) == Found(start, before, p)))
  }

  ghost predicate CancelledOut(start: Files, log: seq<Logged>) {
    forall p :: Cancelled(start, log, p)
  }

  lemma {:induction false} ChosenAt(log: seq<Logged>, p: Path) returns (i: nat)
    requires ChosenOn(log, p)
    ensures i < |log| && Touches(log[i], p, true)
  {
    hide Touches;
    i := |log| - 1;
    if !Touches(log[i], p, true) {
      i := ChosenAt(log[..i], p);
    }
  }

  /** They have when no change that stays is later than one to take back and touches a path of it. */
  lemma {:induction false} NoLaterTouchCancels(start: Files, log: seq<Logged>, p: Path)
    requires NoLaterTouch(log)
    ensures Cancelled(start, log, p)
  {
    hide ChosenOn, Touched, Left, Found;
    if log != [] {
      var n := |log| - 1;
      NoLaterTouchCancels(start, log[..n], p);
      if Touches(log[n], p, false) && ChosenOn(log[..n], p) {
        var i := ChosenAt(log[..n], p);
        assert false;
      }
    }
  }

  /** Each change to take back found of the path what the one before it left. */
  predicate Loops(start: Files, log: seq<Logged>, p: Path) {
    log == []
    || (var before := log[..|log| - 1];
        && Loops(start, before, p)
        && (Touches(log[|log| - 1], p, true) && ChosenOn(before, p) ==> Version(FilesAt(start, before), p) == Left(start, before, p)))
  }

  lemma SameVersion(f: Files, g: Files, p: Path)
    ensures Same(f, g, p) <==> Version(f, p) == Version(g, p)
  {
  }

  lemma AllTheSame(f: Files, g: Files)
    requires forall p :: Same(f, g, p)
    ensures f == g
  {
    forall p ensures (p in f <==> p in g) && (p in f ==> f[p] == g[p]) {
      assert Same(f, g, p);
    }
  }

  // ----- what a rollback that finishes shows -----

  lemma TakenBackOn(f: Files, c: Change, x: Files, p: Path)
    requires Formed(c) && Apply(f, c).Ok? && Undoable(f, c) && Rollback(x, c).Ok?
    ensures if p in Touched(c) then Version(x, p) == Version(Apply(f, c).value, p) && Version(Rollback(x, c).value, p) == Version(f, p)
            else Version(Rollback(x, c).value, p) == Version(x, p)
  {
    hide Apply, Rollback, Formed, Undoable, Touched, Version;
    var y := Rollback(x, c).value;
    SameVersion(x, Apply(f, c).value, p);
    SameVersion(y, f, p);
    SameVersion(y, x, p);
    FoundAndGivenBack(f, c, x);
    RollbackIsLocal(x, x, c);
  }

  /** On every path the newest change taken back left what is there, each found what the one before it left,
      and what the oldest found comes back. */
  lemma {:induction false} GivesBack(start: Files, log: seq<Logged>, x: Files, p: Path)
    requires Happened(start, log) && RollbackAll(x, Chosen(log, true)).Ok?
    ensures Loops(start, log, p)
    ensures var y := RollbackAll(x, Chosen(log, true)).value;
            if ChosenOn(log, p) then Version(x, p) == Left(start, log, p) && Version(y, p) == Found(start, log, p)
            else Version(y, p) == Version(x, p)
    decreases |log|
  {
    hide Happened, FilesAt, Version, Apply, Rollback, RollbackAll, Formed, Undoable, Touched;
    if log == [] {
      RollbackNone(x);
    } else {
      var n := |log| - 1;
      HappenedStep(start, log);
      if log[n].selected {
        var c := log[n].change;
        assert Chosen(log, true) == Chosen(log[..n], true) + [c];
        RollbackAllFrom(x, Chosen(log[..n], true), c);
        TakenBackOn(FilesAt(start, log[..n]), c, x, p);
        GivesBack(start, log[..n], Rollback(x, c).value, p);
      } else {
        assert Chosen(log, true) == Chosen(log[..n], true);
        GivesBack(start, log[..n], x, p);
      }
    }
  }

  lemma RollbackNone(x: Files)
    ensures RollbackAll(x, []) == Ok(x)
  {
  }

  // ----- the changes that stay, by themselves -----

  function KeptFiles(start: Files, log: seq<Logged>): Result<Files, Error> {
    ApplyAll(start, Chosen(log, false))
  }

  lemma KeptStepFiles(start: Files, log: seq<Logged>)
    requires log != []
    ensures var before, last := KeptFiles(start, log[..|log| - 1]), log[|log| - 1];
            KeptFiles(start, log) == if last.selected || before.Err? then before else Apply(before.value, last.change)
  {
    hide Apply;
    var n := |log| - 1;
    if log[n].selected {
      assert Chosen(log, false) == Chosen(log[..n], false);
    } else {
      ApplyAllThen(start, Chosen(log[..n], false), log[n].change);
    }
  }

  /** A change that could be made in two states of the files found the same in both, but for a destination
      that was free in one; and left the same. */
  lemma AppliedOn(f: Files, k: Files, d: Change, p: Path)
    requires Apply(f, d).Ok? && Undoable(f, d) && Apply(k, d).Ok?
    ensures p in Touched(d) ==> Version(k, p) == Version(f, p) || Version(f, p) == None
    ensures p in Touched(d) ==> Version(Apply(k, d).value, p) == Version(Apply(f, d).value, p)
    ensures p !in Touched(d) ==> Version(Apply(k, d).value, p) == Version(k, p)
  {
    hide ToCrlf, HasCrlf, Readable, SameStyle;
    AgreementSpreads(f, k, d);
    ApplyIsLocal(k, k, d);
    SameVersion(Apply(k, d).value, Apply(f, d).value, p);
  }

  /** How the files of the changes that stay compare, on one path, with those of the whole history. */
  ghost predicate KeptOn(start: Files, log: seq<Logged>, k: Files, p: Path) {
    var f := FilesAt(start, log);
    && (!ChosenOn(log, p) || KeptLast(log, p) ==> Version(k, p) == Version(f, p))
    && (ChosenOn(log, p) && !KeptLast(log, p) ==> Version(f, p) == Left(start, log, p))
    && (Cancelled(start, log, p) && ChosenOn(log, p) ==>
          if KeptLast(log, p) then Left(start, log, p) == Found(start, log, p) else Version(k, p) == Found(start, log, p))
    && (!Cancelled(start, log, p) ==>
          && ChosenOn(log, p) && Found(start, log, p) != None
          && if KeptLast(log, p) then Left(start, log, p) == None else Version(k, p) == None)
  }

  lemma ChosenKeepsOn(start: Files, log: seq<Logged>, k: Files, p: Path)
    requires Happened(start, log) && log != [] && log[|log| - 1].selected && Loops(start, log, p)
    requires KeptOn(start, log[..|log| - 1], k, p)
    ensures KeptOn(start, log, k, p)
  {
    var n := |log| - 1;
    HappenedStep(start, log);
    hide Happened, FilesAt, Version, Apply, Formed, Undoable, Touched;
    AppliedOn(FilesAt(start, log[..n]), FilesAt(start, log[..n]), log[n].change, p);
  }

  lemma KeptKeepsOn(start: Files, log: seq<Logged>, k: Files, p: Path)
    requires Happened(start, log) && log != [] && !log[|log| - 1].selected && Apply(k, log[|log| - 1].change).Ok?
    requires KeptOn(start, log[..|log| - 1], k, p)
    ensures KeptOn(start, log, Apply(k, log[|log| - 1].change).value, p)
  {
    var n := |log| - 1;
    HappenedStep(start, log);
    hide Happened, FilesAt, Version, Apply, Formed, Undoable, Touched;
    AppliedOn(FilesAt(start, log[..n]), k, log[n].change, p);
    AppliedOn(FilesAt(start, log[..n]), FilesAt(start, log[..n]), log[n].change, p);
  }

  lemma {:induction false} KeptOnPath(start: Files, log: seq<Logged>, p: Path)
    requires Happened(start, log) && Loops(start, log, p) && KeptFiles(start, log).Ok?
    ensures KeptOn(start, log, KeptFiles(start, log).value, p)
    decreases |log|
  {
    if log == [] {
      assert Changes(log) == [];
    } else {
      var n := |log| - 1;
      HappenedStep(start, log);
      KeptStepFiles(start, log);
      hide Happened, KeptOn, Apply, KeptFiles, FilesAt, Formed, Undoable;
      KeptOnPath(start, log[..n], p);
      var k := KeptFiles(start, log[..n]).value;
      if log[n].selected {
        ChosenKeepsOn(start, log, k, p);
      } else {
        KeptKeepsOn(start, log, k, p);
      }
    }
  }

  /** Where the changes to take back have cancelled out the others can be made without them. */
  lemma {:induction false} KeptApplies(start: Files, log: seq<Logged>)
    requires Happened(start, log) && forall p :: Loops(start, log, p) && Cancelled(start, log, p)
    ensures KeptFiles(start, log).Ok?
    decreases |log|
  {
    if log != [] {
      var n := |log| - 1;
      var before, d := log[..n], log[n].change;
      HappenedStep(start, log);
      KeptStepFiles(start, log);
      forall p ensures Loops(start, before, p) && Cancelled(start, before, p) {
        assert Loops(start, log, p) && Cancelled(start, log, p);
      }
      hide Happened, Apply, KeptFiles, FilesAt, Formed, Undoable, Touched, Version;
      KeptApplies(start, before);
      if !log[n].selected {
        var f, k := FilesAt(start, before), KeptFiles(start, before).value;
        forall p <- Touched(d) ensures Same(f, k, p) {
          assert Cancelled(start, log, p);
          KeptOnPath(start, before, p);
          SameVersion(f, k, p);
        }
        ApplyIsLocal(f, k, d);
      }
    }
  }

  lemma TakenBackIfCancelled(start: Files, log: seq<Logged>, y: Files)
    requires Happened(start, log) && RollbackAll(FilesAt(start, log), Chosen(log, true)) == Ok(y)
    requires CancelledOut(start, log)
    ensures KeptFiles(start, log) == Ok(y)
  {
    hide Happened, FilesAt, Version, KeptFiles, Cancelled, Loops, RollbackAll, ChosenOn, KeptLast, Found, Left;
    forall p ensures Loops(start, log, p) {
      GivesBack(start, log, FilesAt(start, log), p);
    }
    KeptApplies(start, log);
    forall p ensures Same(y, KeptFiles(start, log).value, p) {
      GivesBack(start, log, FilesAt(start, log), p);
      KeptOnPath(start, log, p);
      SameVersion(y, KeptFiles(start, log).value, p);
    }
    AllTheSame(y, KeptFiles(start, log).value);
  }

  lemma CancelledIfTakenBack(start: Files, log: seq<Logged>, y: Files)
    requires Happened(start, log) && RollbackAll(FilesAt(start, log), Chosen(log, true)) == Ok(y)
    requires KeptFiles(start, log) == Ok(y)
    ensures CancelledOut(start, log)
  {
    hide Happened, FilesAt, Version, KeptFiles, Cancelled, Loops, RollbackAll, ChosenOn, KeptLast, Found, Left;
    forall p ensures Cancelled(start, log, p) {
      GivesBack(start, log, FilesAt(start, log), p);
      KeptOnPath(start, log, p);
    }
  }

  /** A rollback that finishes gives the files that the other changes alone would have made exactly when, on
      every path, the changes taken back had cancelled out wherever another one followed them. */
  lemma TakenBackIff(start: Files, log: seq<Logged>)
    requires Happened(start, log) && RollbackAll(FilesAt(start, log), Chosen(log, true)).Ok?
    ensures RollbackAll(FilesAt(start, log), Chosen(log, true)) == KeptFiles(start, log) <==> CancelledOut(start, log)
  {
    hide *;
    var taken := RollbackAll(FilesAt(start, log), Chosen(log, true));
    if CancelledOut(start, log) {
      TakenBackIfCancelled(start, log, taken.value);
    } else if taken == KeptFiles(start, log) {
      CancelledIfTakenBack(start, log, taken.value);
    }
  }

  /** After the rollback of an older checkpoint, or of changes named in their order, the record explains the
      files exactly then. */
  lemma RolledBackExplainedIff(start: Files, log: seq<(Id, Change)>, s: State, ids: seq<Id>, io: Id -> bool)
    requires RecordOk(start, log, s) && ListsInOrder(AsCheckpoint(ids), s.applied)
    requires Finishes(s.files, PatchesOf(ids, s.applied), io)
    ensures var t := RolledBackList(s, PatchesOf(ids, s.applied), io).0;
            Explains(start, Filter(log, Elements(ids), false), t) <==> CancelledOut(start, LogOf(log, Elements(ids)))
  {
    var l := LogOf(log, Elements(ids));
    var patches := PatchesOf(ids, s.applied);
    assert Changes(l) == ChangesOf(log);
    CheckpointFollowsHistory(log, AsCheckpoint(ids), s.applied);
    FilterIsChosen(log, Elements(ids), true);
    FilterIsChosen(log, Elements(ids), false);
    RolledBackFiles(s, patches, io);
    RollbackListRemoves(s, patches, io);
    assert patches[|patches| - |patches|..] == patches;
    hide RolledBackList, RollbackAll, ApplyAll, InOrder, AllUndoable, Filter, Formed, LogOf, ListsInOrder, Cancelled, PatchesOf;
    RestrictIsRemoval(log, s.applied, Elements(ids));
    FilterInOrder(log, s.applied, Elements(ids), false);
    FilterFormed(log, Elements(ids));
    TakenBackIff(start, l);
  }
}
