/** Taking back many changes: whole histories, and one reply out of a history. */
module WorkspaceUndo {
  import opened Wrappers
  import opened Workspace

  function ApplyAll(files: Files, cs: seq<Change>): Result<Files, Error> {
    if cs == [] then Ok(files)
    else
      var before := ApplyAll(files, cs[..|cs| - 1]);
      if before.Err? then before else Apply(before.value, cs[|cs| - 1])
  }

  /** The newest change is taken back first. */
  function RollbackAll(files: Files, cs: seq<Change>): Result<Files, Error>
    decreases |cs|
  {
    if cs == [] then Ok(files)
    else
      var before := Rollback(files, cs[|cs| - 1]);
      if before.Err? then before else RollbackAll(before.value, cs[..|cs| - 1])
  }

  predicate AllFormed(cs: seq<Change>) {
    forall c <- cs :: Formed(c)
  }

  /** Each change can be taken back in the files it was applied to. */
  predicate AllUndoable(files: Files, cs: seq<Change>)
    requires ApplyAll(files, cs).Ok?
  {
    cs == [] || (AllUndoable(files, cs[..|cs| - 1]) && Undoable(ApplyAll(files, cs[..|cs| - 1]).value, cs[|cs| - 1]))
  }

  // ----- whole histories -----

  lemma {:induction false} UndoableRestores(files: Files, cs: seq<Change>)
    requires AllFormed(cs) && ApplyAll(files, cs).Ok? && AllUndoable(files, cs)
    ensures RollbackAll(ApplyAll(files, cs).value, cs) == Ok(files)
  {
    hide Apply, Rollback, Undoable, Formed;
    if cs != [] {
      var n := |cs| - 1;
      UndoneIff(ApplyAll(files, cs[..n]).value, cs[n]);
      UndoableRestores(files, cs[..n]);
    }
  }

  /** `g` has no file that `f` lacks, and differs from it only where LF line endings became CR LF. */
  predicate Follows(g: Files, f: Files) {
    forall p :: p in g ==> p in f && (g[p] == f[p] || (!HasCrlf(f[p]) && g[p] == ToCrlf(f[p])))
  }

  /** A rollback that succeeds in files that follow those after the change gives files that follow those
      before it, and gives exactly those only from exactly the others. */
  lemma RollbackFollows(f: Files, c: Change, g: Files)
    requires Formed(c) && Apply(f, c).Ok? && Follows(g, Apply(f, c).value) && Rollback(g, c).Ok?
    ensures Follows(Rollback(g, c).value, f)
    ensures Rollback(g, c).value == f ==> g == Apply(f, c).value
  {
    hide ToCrlf, HasCrlf, Readable;
    ToCrlfGrows(Text(c.after));
    var g' := Rollback(g, c).value;
    match c.action {
      case Create =>
        assert g' == f ==> g'[c.path := Text(c.after)] == g;
      case Delete =>
        BackupChangesNothing(f, c);
        assert g' == f ==> g' - {c.path} == g;
      case Rename(destination) =>
        BackupChangesNothing(f, c);
        assert g' == f ==> (g' - {c.path})[destination := f[c.path]] == g;
      case Write =>
        assert g' == f ==> g'[c.path := Text(c.after)] == g;
      case Patch =>
        assert g' == f ==> g'[c.path := Text(c.after)] == g;
    }
  }

  lemma {:induction false} OnlyUndoableRestores(files: Files, cs: seq<Change>, g: Files)
    requires AllFormed(cs) && ApplyAll(files, cs).Ok? && Follows(g, ApplyAll(files, cs).value)
    requires RollbackAll(g, cs) == Ok(files)
    ensures g == ApplyAll(files, cs).value && AllUndoable(files, cs)
  {
    hide Apply, Rollback, Undoable, Formed, Follows;
    if cs != [] {
      var n := |cs| - 1;
      var f := ApplyAll(files, cs[..n]).value;
      RollbackFollows(f, cs[n], g);
      OnlyUndoableRestores(files, cs[..n], Rollback(g, cs[n]).value);
      UndoneIff(f, cs[n]);
    }
  }

  /** Taking back a whole history, newest change first, meets no conflict and restores the files it began
      with, exactly when every change of it could be taken back where it was applied. */
  lemma HistoryRestoredIff(files: Files, cs: seq<Change>)
    requires AllFormed(cs) && ApplyAll(files, cs).Ok?
    ensures RollbackAll(ApplyAll(files, cs).value, cs) == Ok(files) <==> AllUndoable(files, cs)
  {
    var f := ApplyAll(files, cs).value;
    if RollbackAll(f, cs) == Ok(files) {
      assert Follows(f, f);
      OnlyUndoableRestores(files, cs, f);
    }
    if AllUndoable(files, cs) {
      UndoableRestores(files, cs);
    }
  }

  /** Stopping after the newest k changes leaves exactly the files from before those k. */
  lemma {:induction false} NewestUndone(files: Files, cs: seq<Change>, k: nat)
    requires AllFormed(cs) && ApplyAll(files, cs).Ok? && AllUndoable(files, cs) && k <= |cs|
    ensures ApplyAll(files, cs[..|cs| - k]).Ok?
    ensures RollbackAll(ApplyAll(files, cs).value, cs[|cs| - k..]) == ApplyAll(files, cs[..|cs| - k])
    decreases |cs|
  {
    hide Apply, Rollback, Undoable, Formed;
    var n := |cs| - 1;
    if k == 0 {
      assert cs[..|cs|] == cs;
    } else {
      UndoneIff(ApplyAll(files, cs[..n]).value, cs[n]);
      NewestUndone(files, cs[..n], k - 1);
      assert cs[|cs| - k..][..k - 1] == cs[..n][|cs[..n]| - (k - 1)..];
      assert cs[..n][..|cs[..n]| - (k - 1)] == cs[..|cs| - k];
    }
  }

  // ----- one reply out of a history -----

  function Touched(c: Change): set<Path> {
    {c.path} + if c.action.Rename? then {c.action.destination} else {}
  }

  function TouchedByAll(cs: seq<Change>): set<Path> {
    set c <- cs, p <- Touched(c) :: p
  }

  predicate Same(f: Files, g: Files, p: Path) {
    (p in f <==> p in g) && (p in f ==> f[p] == g[p])
  }

  predicate AgreeOn(f: Files, g: Files, s: set<Path>) {
    forall p <- s :: Same(f, g, p)
  }

  /** A change depends on the paths it touches and alters no other. */
  lemma ApplyIsLocal(f: Files, g: Files, c: Change)
    requires AgreeOn(f, g, Touched(c)) && Apply(f, c).Ok?
    ensures Apply(g, c).Ok? && AgreeOn(Apply(f, c).value, Apply(g, c).value, Touched(c))
    ensures forall p :: p !in Touched(c) ==> Same(Apply(f, c).value, f, p)
  {
    hide Readable, ToCrlf, HasCrlf;
    assert Same(f, g, c.path);
    if c.action.Rename? {
      assert Same(f, g, c.action.destination);
    }
    if c.before.Some? {
      StoredSame(c.before.value);
    }
  }

  lemma StoredSame(c: Content)
    ensures Stored(Some(c), c) == c
  {
  }

  lemma RollbackIsLocal(f: Files, g: Files, c: Change)
    requires AgreeOn(f, g, Touched(c)) && Rollback(f, c).Ok?
    ensures Rollback(g, c).Ok? && AgreeOn(Rollback(f, c).value, Rollback(g, c).value, Touched(c))
    ensures forall p :: p !in Touched(c) ==> Same(Rollback(f, c).value, f, p)
  {
    hide Readable, ToCrlf, HasCrlf;
    assert Same(f, g, c.path);
    if c.action.Rename? {
      assert Same(f, g, c.action.destination);
    }
  }

  /** Taking back one change and making another commute when they touch different paths. */
  lemma Commute(h: Files, c: Change, d: Change)
    requires Touched(c) !! Touched(d) && Apply(h, c).Ok? && Rollback(h, d).Ok?
    ensures Apply(Rollback(h, d).value, c).Ok?
    ensures Rollback(Apply(h, c).value, d) == Apply(Rollback(h, d).value, c)
  {
    hide Apply, Rollback, Touched;
    ApplyIsLocal(h, h, c);
    RollbackIsLocal(h, h, d);
    var hc, hd := Apply(h, c).value, Rollback(h, d).value;
    ApplyIsLocal(h, hd, c);
    ApplyIsLocal(hd, h, c);
    RollbackIsLocal(h, hc, d);
    RollbackIsLocal(hc, h, d);
    var x, y := Rollback(hc, d).value, Apply(hd, c).value;
    forall p ensures Same(x, y, p) {
      if p in Touched(c) {
        assert Same(x, hc, p) && Same(hc, y, p);
      } else if p in Touched(d) {
        assert Same(x, hd, p) && Same(y, hd, p);
      } else {
        assert Same(x, hc, p) && Same(hc, h, p) && Same(y, hd, p) && Same(hd, h, p);
      }
    }
    SameEverywhere(x, y);
  }

  lemma SameEverywhere(f: Files, g: Files)
    requires forall p :: Same(f, g, p)
    ensures f == g
  {
    assert forall p <- f :: Same(f, g, p);
    assert forall p <- g :: Same(f, g, p);
  }

  lemma {:induction false} CommuteAll(h: Files, c: Change, ds: seq<Change>)
    requires (forall d <- ds :: Touched(c) !! Touched(d)) && Apply(h, c).Ok? && RollbackAll(h, ds).Ok?
    ensures Apply(RollbackAll(h, ds).value, c).Ok?
    ensures RollbackAll(Apply(h, c).value, ds) == Apply(RollbackAll(h, ds).value, c)
    decreases |ds|
  {
    hide Apply, Rollback, Touched;
    if ds != [] {
      var n := |ds| - 1;
      Commute(h, c, ds[n]);
      CommuteAll(Rollback(h, ds[n]).value, c, ds[..n]);
    }
  }

  /** One applied change and whether it is among those to take back. */
  datatype Logged = Logged(change: Change, selected: bool)

  function Changes(log: seq<Logged>): (cs: seq<Change>)
    ensures |cs| == |log| && forall i :: 0 <= i < |log| ==> cs[i] == log[i].change
  {
    seq(|log|, i requires 0 <= i < |log| => log[i].change)
  }

  function Chosen(log: seq<Logged>, selected: bool): seq<Change> {
    if log == [] then []
    else Chosen(log[..|log| - 1], selected) + if log[|log| - 1].selected == selected then [log[|log| - 1].change] else []
  }

  /** No change that stays touches a path of an earlier change to take back. */
  predicate NoLaterTouch(log: seq<Logged>) {
    forall i, j :: 0 <= i < j < |log| && log[i].selected && !log[j].selected ==> Touched(log[i].change) !! Touched(log[j].change)
  }

  lemma {:induction false} ChosenFrom(log: seq<Logged>, selected: bool, c: Change)
    requires c in Chosen(log, selected)
    ensures exists i :: 0 <= i < |log| && log[i] == Logged(c, selected)
  {
    if log != [] {
      var n := |log| - 1;
      if c in Chosen(log[..n], selected) {
        ChosenFrom(log[..n], selected, c);
      }
    }
  }

  lemma EarlierNoLaterTouch(log: seq<Logged>)
    requires NoLaterTouch(log) && log != []
    ensures NoLaterTouch(log[..|log| - 1])
  {
    hide Touched;
  }

  lemma LastIsDisjoint(log: seq<Logged>)
    requires NoLaterTouch(log) && log != [] && !log[|log| - 1].selected
    ensures forall d <- Chosen(log[..|log| - 1], true) :: Touched(log[|log| - 1].change) !! Touched(d)
  {
    hide Touched;
    forall d <- Chosen(log[..|log| - 1], true) ensures Touched(log[|log| - 1].change) !! Touched(d) {
      ChosenFrom(log[..|log| - 1], true, d);
    }
  }

  lemma ApplyAllThen(files: Files, cs: seq<Change>, c: Change)
    ensures ApplyAll(files, cs + [c]) == if ApplyAll(files, cs).Err? then ApplyAll(files, cs) else Apply(ApplyAll(files, cs).value, c)
  {
    assert (cs + [c])[..|cs|] == cs;
  }

  lemma RollbackAllFrom(files: Files, cs: seq<Change>, c: Change)
    ensures RollbackAll(files, cs + [c]) == if Rollback(files, c).Err? then Rollback(files, c) else RollbackAll(Rollback(files, c).value, cs)
  {
    assert (cs + [c])[..|cs|] == cs;
  }

  lemma AllUndoableThen(files: Files, cs: seq<Change>, c: Change)
    requires ApplyAll(files, cs + [c]).Ok?
    ensures ApplyAll(files, cs).Ok?
    ensures AllUndoable(files, cs + [c]) == (AllUndoable(files, cs) && Undoable(ApplyAll(files, cs).value, c))
  {
    assert (cs + [c])[..|cs|] == cs;
  }

  lemma ChosenThen(log: seq<Logged>, l: Logged, selected: bool)
    ensures Chosen(log + [l], selected) == if l.selected == selected then Chosen(log, selected) + [l.change] else Chosen(log, selected)
  {
    assert (log + [l])[..|log|] == log;
  }

  lemma KeptStep(files: Files, before: Files, c: Change, undone: seq<Change>, kept: seq<Change>)
    requires Apply(before, c).Ok? && ApplyAll(files, kept).Ok? && RollbackAll(before, undone) == ApplyAll(files, kept)
    requires forall d <- undone :: Touched(c) !! Touched(d)
    requires AllUndoable(files, kept) && Undoable(before, c)
    ensures ApplyAll(files, kept + [c]).Ok? && RollbackAll(Apply(before, c).value, undone) == ApplyAll(files, kept + [c])
    ensures AllUndoable(files, kept + [c])
  {
    hide Apply, Rollback, Touched, ApplyAll, RollbackAll, AllUndoable, Undoable;
    CommuteAll(before, c, undone);
    ApplyAllThen(files, kept, c);
    AllUndoableThen(files, kept, c);
    UndoableElsewhere(before, c, undone);
  }

  lemma {:induction false} ElsewhereStays(f: Files, cs: seq<Change>, p: Path)
    requires RollbackAll(f, cs).Ok? && forall c <- cs :: p !in Touched(c)
    ensures Same(RollbackAll(f, cs).value, f, p)
    decreases |cs|
  {
    hide Rollback, Touched;
    if cs != [] {
      var n := |cs| - 1;
      RollbackIsLocal(f, f, cs[n]);
      ElsewhereStays(Rollback(f, cs[n]).value, cs[..n], p);
    }
  }

  /** Whether a change can be taken back does not depend on changes of other paths. */
  lemma UndoableElsewhere(before: Files, c: Change, undone: seq<Change>)
    requires Undoable(before, c) && RollbackAll(before, undone).Ok? && forall d <- undone :: Touched(c) !! Touched(d)
    ensures Undoable(RollbackAll(before, undone).value, c)
  {
    if c.action.Rename? {
      assert c.action.destination in Touched(c);
      ElsewhereStays(before, undone, c.action.destination);
    }
  }

  lemma UndoneStep(files: Files, before: Files, c: Change, undone: seq<Change>, kept: seq<Change>)
    requires Formed(c) && Apply(before, c).Ok? && Undoable(before, c) && RollbackAll(before, undone) == ApplyAll(files, kept)
    ensures RollbackAll(Apply(before, c).value, undone + [c]) == ApplyAll(files, kept)
  {
    hide Apply, Rollback, ApplyAll, RollbackAll, Undoable, Formed;
    UndoneIff(before, c);
    RollbackAllFrom(Apply(before, c).value, undone, c);
  }

  /** Taking back the changes of one reply, when no later change touches their paths, gives the files
      that making only the other changes would have given. */
  lemma {:induction false} UndoIsAsIfNeverMade(files: Files, log: seq<Logged>)
    requires AllFormed(Changes(log)) && ApplyAll(files, Changes(log)).Ok? && AllUndoable(files, Changes(log))
    requires NoLaterTouch(log)
    ensures ApplyAll(files, Chosen(log, false)).Ok?
    ensures RollbackAll(ApplyAll(files, Changes(log)).value, Chosen(log, true)) == ApplyAll(files, Chosen(log, false))
    ensures AllUndoable(files, Chosen(log, false))
  {
    hide Apply, Rollback, Touched, Undoable, Formed;
    if log != [] {
      hide ApplyAll, RollbackAll, AllUndoable, Chosen, NoLaterTouch;
      var n := |log| - 1;
      var c := log[n].change;
      var earlier := log[..n];
      assert log == earlier + [log[n]] && Changes(log) == Changes(earlier) + [c];
      ApplyAllThen(files, Changes(earlier), c);
      AllUndoableThen(files, Changes(earlier), c);
      assert NoLaterTouch(earlier) by {
        EarlierNoLaterTouch(log);
      }
      UndoIsAsIfNeverMade(files, earlier);
      ChosenThen(earlier, log[n], true);
      ChosenThen(earlier, log[n], false);
      var before := ApplyAll(files, Changes(earlier)).value;
      if log[n].selected {
        UndoneStep(files, before, c, Chosen(earlier, true), Chosen(earlier, false));
      } else {
        LastIsDisjoint(log);
        KeptStep(files, before, c, Chosen(earlier, true), Chosen(earlier, false));
      }
    }
  }

  // ----- the check before an undo -----

  /** The file versions that the check works on, a missing file as `None`. */
  type Versions = map<Path, Option<Content>>

  /** One change taken back in `versions` only. */
  function Reverse(versions: Versions, c: Change): Result<Versions, Error> {
    if c.path !in versions then Err(Io)
    else if c.action.Rename? then
      var destination := c.action.destination;
      if versions[c.path].Some? || destination !in versions || versions[destination] != c.before then Err(Conflict)
      else Ok(versions[destination := None][c.path := c.before])
    else if versions[c.path] != c.after then Err(Conflict)
    else Ok(versions[c.path := c.before])
  }

  function ReverseAll(versions: Versions, cs: seq<Change>): Result<Versions, Error>
    decreases |cs|
  {
    if cs == [] then Ok(versions)
    else
      var before := Reverse(versions, cs[|cs| - 1]);
      if before.Err? then before else ReverseAll(before.value, cs[..|cs| - 1])
  }

  function Version(files: Files, path: Path): Option<Content> {
    if path in files then Some(files[path]) else None
  }

  /** What was read of the files, all of it readable. */
  predicate Describes(versions: Versions, files: Files) {
    forall p <- versions :: versions[p] == Version(files, p) && Readable(Text(versions[p]))
  }

  /** Restoring the text that this change replaced writes it with other line ends. */
  predicate Rewrites(c: Change) {
    (c.action.Patch? || c.action.Write?) && c.before.Some? && !SameStyle(c.after, c.before.value)
  }

  /** The text from before each change could be read, as it was when the change was applied. */
  predicate BeforesReadable(cs: seq<Change>) {
    forall c <- cs :: Readable(Text(c.before))
  }

  /** No change follows another of the same file and rewrites its line ends when it is taken back. */
  predicate NoRewriteOnTop(cs: seq<Change>) {
    forall i, j :: 0 <= i < j < |cs| && Rewrites(cs[j]) ==> cs[j].path !in Touched(cs[i])
  }

  lemma AppliedBeforeReadable(files: Files, c: Change)
    requires Formed(c) && Apply(files, c).Ok?
    ensures Readable(Text(c.before))
  {
    assert Readable([]);
  }

  lemma {:induction false} AppliedBeforesReadable(files: Files, cs: seq<Change>)
    requires AllFormed(cs) && ApplyAll(files, cs).Ok?
    ensures BeforesReadable(cs)
  {
    hide Apply, Formed, Readable;
    if cs != [] {
      AppliedBeforeReadable(ApplyAll(files, cs[..|cs| - 1]).value, cs[|cs| - 1]);
      AppliedBeforesReadable(files, cs[..|cs| - 1]);
      assert cs == cs[..|cs| - 1] + [cs[|cs| - 1]];
    }
  }

  /** What the check foretells of one change comes true, but for the text of a file whose line ends are
      rewritten. */
  lemma ReverseDescribes(versions: Versions, files: Files, c: Change)
    requires Formed(c) && Readable(Text(c.before)) && Touched(c) <= versions.Keys && Describes(versions, files)
    ensures Reverse(versions, c).Ok? <==> Rollback(files, c).Ok?
    ensures Reverse(versions, c).Ok? && !Rewrites(c) ==> Describes(Reverse(versions, c).value, Rollback(files, c).value)
    ensures Rewrites(c) ==> c.before.Some?
    ensures Reverse(versions, c).Ok? && Rewrites(c) ==>
              var after, b := Rollback(files, c).value, c.before.value;
              && c.path in files && after == files[c.path := ToCrlf(b)] && ToCrlf(b) != b
              && c.path in Reverse(versions, c).value && Reverse(versions, c).value[c.path] == Some(b)
              && Describes(Reverse(versions, c).value, files[c.path := b])
  {
    hide ToCrlf, HasCrlf, SameStyle;
    if c.before.Some? {
      StoredIff(c.after, c.before.value);
    }
    assert c.path in versions;
    if c.action.Rename? {
      assert c.action.destination in versions;
    }
    assert Readable([]);
  }

  /** While the versions say that a file holds `b` and it does not, taking back a change of that file fails
      although the check of it passes, and no other change alters either. */
  lemma StuckStep(versions: Versions, files: Files, c: Change, p: Path, b: Content)
    requires Formed(c) && p in versions && versions[p] == Some(b) && p in files && files[p] != b && Reverse(versions, c).Ok?
    ensures p in Touched(c) ==> Rollback(files, c).Err?
    ensures p !in Touched(c) ==> p in Reverse(versions, c).value && Reverse(versions, c).value[p] == Some(b)
    ensures p !in Touched(c) && Rollback(files, c).Ok? ==> Same(Rollback(files, c).value, files, p)
  {
    hide Readable, Stored;
  }

  lemma {:induction false} StuckStays(versions: Versions, files: Files, cs: seq<Change>, p: Path, b: Content)
    requires AllFormed(cs) && ReverseAll(versions, cs).Ok?
    requires p in versions && versions[p] == Some(b) && p in files && files[p] != b
    ensures (exists c <- cs :: p in Touched(c)) ==> RollbackAll(files, cs).Err?
    ensures (forall c <- cs :: p !in Touched(c)) && RollbackAll(files, cs).Ok? ==>
              !Describes(ReverseAll(versions, cs).value, RollbackAll(files, cs).value)
    decreases |cs|
  {
    if cs != [] {
      hide Rollback, Reverse, Formed, Touched, Describes;
      var n := |cs| - 1;
      StuckStep(versions, files, cs[n], p, b);
      assert cs == cs[..n] + [cs[n]];
      if p !in Touched(cs[n]) && Rollback(files, cs[n]).Ok? {
        StuckStays(Reverse(versions, cs[n]).value, Rollback(files, cs[n]).value, cs[..n], p, b);
      }
    }
  }

  lemma {:induction false} RollbackAllIsLocal(f: Files, g: Files, cs: seq<Change>)
    requires AgreeOn(f, g, TouchedByAll(cs)) && RollbackAll(f, cs).Ok?
    ensures RollbackAll(g, cs).Ok?
    decreases |cs|
  {
    hide Rollback, Touched, TouchedByAll;
    if cs != [] {
      var n := |cs| - 1;
      TouchedByLast(cs);
      RollbackIsLocal(f, g, cs[n]);
      RollbackIsLocal(g, f, cs[n]);
      var f', g' := Rollback(f, cs[n]).value, Rollback(g, cs[n]).value;
      forall p <- TouchedByAll(cs[..n]) ensures Same(f', g', p) {
        if p !in Touched(cs[n]) {
          assert Same(f', f, p) && Same(f, g, p) && Same(g', g, p);
        }
      }
      RollbackAllIsLocal(f', g', cs[..n]);
    }
  }

  lemma TouchedByLast(cs: seq<Change>)
    requires cs != []
    ensures TouchedByAll(cs) == TouchedByAll(cs[..|cs| - 1]) + Touched(cs[|cs| - 1])
  {
    hide Touched;
    assert cs == cs[..|cs| - 1] + [cs[|cs| - 1]];
  }

  lemma TouchedByNone(cs: seq<Change>, p: Path)
    ensures p !in TouchedByAll(cs) <==> forall c <- cs :: p !in Touched(c)
  {
    hide Touched;
  }

  lemma NoRewriteOnTopLast(cs: seq<Change>)
    requires cs != []
    ensures var n := |cs| - 1;
            NoRewriteOnTop(cs) <==> NoRewriteOnTop(cs[..n]) && (Rewrites(cs[n]) ==> forall c <- cs[..n] :: cs[n].path !in Touched(c))
  {
    hide Touched, Rewrites;
    var n := |cs| - 1;
    if NoRewriteOnTop(cs[..n]) && (Rewrites(cs[n]) ==> forall c <- cs[..n] :: cs[n].path !in Touched(c)) {
      forall i, j | 0 <= i < j < |cs| && Rewrites(cs[j]) ensures cs[j].path !in Touched(cs[i]) {
        if j == n {
          assert cs[i] == cs[..n][i];
        } else {
          assert cs[j] == cs[..n][j] && cs[i] == cs[..n][i];
        }
      }
    }
    if NoRewriteOnTop(cs) && Rewrites(cs[n]) {
      forall c <- cs[..n] ensures cs[n].path !in Touched(c) {
        var i :| 0 <= i < n && cs[..n][i] == c;
        assert cs[i] == c;
      }
    }
  }

  lemma ReverseAllFrom(versions: Versions, cs: seq<Change>, c: Change)
    ensures ReverseAll(versions, cs + [c]) ==
            if Reverse(versions, c).Err? then Reverse(versions, c) else ReverseAll(Reverse(versions, c).value, cs)
  {
    assert (cs + [c])[..|cs|] == cs;
  }

  lemma ReverseKeys(versions: Versions, c: Change)
    requires Reverse(versions, c).Ok?
    ensures Reverse(versions, c).value.Keys == versions.Keys
  {
  }

  predicate Checkable(versions: Versions, files: Files, cs: seq<Change>) {
    AllFormed(cs) && BeforesReadable(cs) && TouchedByAll(cs) <= versions.Keys && Describes(versions, files)
  }

  /** One change of a check that passes, taken back in the files too: `told` is what the check believes. */
  lemma CheckStep(versions: Versions, files: Files, earlier: seq<Change>, c: Change) returns (told: Files)
    requires Checkable(versions, files, earlier + [c]) && ReverseAll(versions, earlier + [c]).Ok?
    ensures Reverse(versions, c).Ok? && Rollback(files, c).Ok?
    ensures var versions', found := Reverse(versions, c).value, Rollback(files, c).value;
            && Checkable(versions', told, earlier) && ReverseAll(versions', earlier).Ok?
            && RollbackAll(files, earlier + [c]) == RollbackAll(found, earlier)
            && (!Rewrites(c) ==> told == found)
            && (Rewrites(c) ==>
                  && c.before.Some? && c.path in versions' && versions'[c.path] == c.before
                  && c.path in found && found[c.path] != c.before.value && told == found[c.path := c.before.value])
  {
    hide Rollback, Reverse, Touched, Formed, Rewrites, Describes, TouchedByAll, Readable, ToCrlf, ReverseAll, RollbackAll;
    var cs := earlier + [c];
    assert cs[..|cs| - 1] == earlier;
    assert forall d <- earlier :: d in cs;
    TouchedByLast(cs);
    ReverseAllFrom(versions, earlier, c);
    ReverseDescribes(versions, files, c);
    RollbackAllFrom(files, earlier, c);
    ReverseKeys(versions, c);
    told := if Rewrites(c) then files[c.path := c.before.value] else Rollback(files, c).value;
  }

  /** Once the check has passed, the undo completes exactly when no change that rewrites line ends as it is
      taken back follows another of the same file. */
  lemma {:induction false} CheckDecidesUndo(versions: Versions, files: Files, cs: seq<Change>)
    requires Checkable(versions, files, cs) && ReverseAll(versions, cs).Ok?
    ensures RollbackAll(files, cs).Ok? <==> NoRewriteOnTop(cs)
    decreases |cs|
  {
    if cs != [] {
      hide Rollback, Reverse, Touched, Rewrites, Checkable, NoRewriteOnTop, RollbackAll, ReverseAll;
      var c, earlier := cs[|cs| - 1], cs[..|cs| - 1];
      assert cs == earlier + [c];
      var told := CheckStep(versions, files, earlier, c);
      CheckDecidesUndo(Reverse(versions, c).value, told, earlier);
      NoRewriteOnTopLast(cs);
      if Rewrites(c) {
        assert AllFormed(earlier) by { CheckableFormed(Reverse(versions, c).value, told, earlier); }
        RewrittenDecides(Reverse(versions, c).value, told, Rollback(files, c).value, c.path, c.before.value, earlier);
      }
    }
  }

  lemma CheckableFormed(versions: Versions, files: Files, cs: seq<Change>)
    requires Checkable(versions, files, cs)
    ensures AllFormed(cs)
  {
  }

  /** The two ways of going on after the line ends of `p` were rewritten: as the check believes, and as the
      file is. */
  lemma RewrittenDecides(versions: Versions, told: Files, found: Files, p: Path, b: Content, earlier: seq<Change>)
    requires AllFormed(earlier) && ReverseAll(versions, earlier).Ok? && p in versions && versions[p] == Some(b)
    requires p in found && found[p] != b && told == found[p := b]
    ensures RollbackAll(found, earlier).Ok? <==> RollbackAll(told, earlier).Ok? && forall d <- earlier :: p !in Touched(d)
  {
    hide Touched, Formed, RollbackAll, ReverseAll, Describes, TouchedByAll;
    TouchedByNone(earlier, p);
    if p !in TouchedByAll(earlier) {
      assert AgreeOn(told, found, TouchedByAll(earlier)) && AgreeOn(found, told, TouchedByAll(earlier));
      if RollbackAll(told, earlier).Ok? {
        RollbackAllIsLocal(told, found, earlier);
      }
      if RollbackAll(found, earlier).Ok? {
        RollbackAllIsLocal(found, told, earlier);
      }
    } else {
      StuckStays(versions, found, earlier, p, b);
    }
  }

  /** Without any such change the check passes exactly when the undo completes; and it foretells what the
      files will hold exactly when the undo completes and there is none. */
  lemma {:induction false} CheckForetells(versions: Versions, files: Files, cs: seq<Change>)
    requires Checkable(versions, files, cs)
    ensures (forall c <- cs :: !Rewrites(c)) ==> (ReverseAll(versions, cs).Ok? <==> RollbackAll(files, cs).Ok?)
    ensures ReverseAll(versions, cs).Ok? && RollbackAll(files, cs).Ok? ==>
              (Describes(ReverseAll(versions, cs).value, RollbackAll(files, cs).value) <==> forall c <- cs :: !Rewrites(c))
    decreases |cs|
  {
    if cs != [] {
      hide Rollback, Reverse, Touched, Formed, Rewrites, Describes, TouchedByAll, Readable, ToCrlf;
      var n := |cs| - 1;
      var c, earlier := cs[n], cs[..n];
      assert cs == earlier + [c];
      ReverseDescribes(versions, files, c);
      TouchedByLast(cs);
      if Reverse(versions, c).Ok? {
        var versions', files' := Reverse(versions, c).value, Rollback(files, c).value;
        ReverseKeys(versions, c);
        if !Rewrites(c) {
          CheckForetells(versions', files', earlier);
        } else if ReverseAll(versions', earlier).Ok? {
          StuckStays(versions', files', earlier, c.path, c.before.value);
        }
      }
    }
  }

  /** So the check can pass and the undo fail halfway, in files that the changes themselves have led to. */
  lemma CheckMissesLineEndings()
    ensures exists versions: Versions, start: Files, cs: seq<Change> ::
              && AllFormed(cs) && TouchedByAll(cs) <= versions.Keys && ApplyAll(start, cs).Ok?
              && Describes(versions, ApplyAll(start, cs).value)
              && ReverseAll(versions, cs).Ok? && RollbackAll(ApplyAll(start, cs).value, cs).Err?
  {
    var a: Content, b: Content, c: Content := [97], [LF], [CR, LF];
    var first, second := Change("f", Write, Some(a), Some(b)), Change("f", Write, Some(b), Some(c));
    var cs := [first, second];
    var versions: Versions := map["f" := Some(c)];
    assert c[0] == CR && c[1] == LF;
    assert HasCrlf(c) && !HasCrlf(b) && !HasCrlf(a) && Readable(a) && Readable(b) && Readable(c);
    assert ToCrlf(b) == [CR, LF] + ToCrlf(b[1..]) == c;
    var fa: Files, fb: Files, fc: Files := map["f" := a], map["f" := b], map["f" := c];
    assert fa["f" := b] == fb && fb["f" := c] == fc && fc["f" := c] == fc;
    assert cs[..1] == [first] && cs[..1][..0] == [];
    assert ApplyAll(fa, cs[..1]) == Ok(fb);
    assert ApplyAll(fa, cs) == Ok(fc);
    assert Rollback(fc, second) == Ok(fc) && Rollback(fc, first) == Err(Conflict);
    assert RollbackAll(fc, cs) == Err(Conflict);
    assert Reverse(versions, second) == Ok(versions["f" := Some(b)]);
    assert ReverseAll(versions["f" := Some(b)], cs[..1]).Ok?;
    assert ReverseAll(versions, cs).Ok?;
  }
}
