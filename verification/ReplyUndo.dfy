/** Undoing the file changes of one reply: the plan, the check of the files, and the rollbacks, with the
    record saved after each. */
module ReplyUndo {
  import opened Wrappers
  import opened Workspace
  import opened WorkspaceUndo
  import opened WorkspaceState

  /** Why an undo is refused before anything has changed. */
  datatype Refusal = NoRecord | AlreadyUndone | TouchedLater | Unreadable | Changed

  // ----- the plan -----

  /** A change that is not among `patches` by its sequence number and comes after one of them touches
      none of its paths. */
  predicate PlanPasses(patches: seq<(Id, Change)>, applied: map<Id, Entry>)
    requires forall p <- patches :: p.0 in applied
  {
    forall p <- patches, q <- applied ::
      (applied[p.0].sequence < applied[q].sequence && forall s <- patches :: applied[s.0].sequence != applied[q].sequence) ==>
      Touched(applied[p.0].change) !! Touched(applied[q].change)
  }

  lemma {:induction false} PatchesAreApplied(ids: seq<Id>, applied: map<Id, Entry>)
    ensures forall p <- PatchesOf(ids, applied) :: p.0 in ids && p.0 in applied && applied[p.0].change == p.1
    ensures forall id <- ids :: id in applied ==> (id, applied[id].change) in PatchesOf(ids, applied)
  {
    if ids != [] {
      var n := |ids| - 1;
      PatchesAreApplied(ids[..n], applied);
      assert ids == ids[..n] + [ids[n]];
    }
  }

  lemma SequencesDiffer(log: seq<(Id, Change)>, applied: map<Id, Entry>, a: Id, b: Id)
    requires InOrder(log, applied) && a in applied && b in applied && a != b
    ensures applied[a].sequence != applied[b].sequence
    decreases |log|
  {
    var n := |log| - 1;
    if a != log[n].0 && b != log[n].0 {
      SequencesDiffer(log[..n], applied - {log[n].0}, a, b);
    }
  }

  /** Comparing sequence numbers is comparing changes. */
  lemma PlanPassesIff(log: seq<(Id, Change)>, applied: map<Id, Entry>, ids: seq<Id>)
    requires InOrder(log, applied)
    ensures (forall p <- PatchesOf(ids, applied) :: p.0 in applied)
    ensures PlanPasses(PatchesOf(ids, applied), applied) <==> PlanOk(applied, Elements(ids))
  {
    hide InOrder, Touched, PatchesOf;
    PatchesAreApplied(ids, applied);
    var patches := PatchesOf(ids, applied);
    forall q <- applied ensures (forall s <- patches :: applied[s.0].sequence != applied[q].sequence) <==> q !in Elements(ids) {
      if q in ids {
        assert (q, applied[q].change) in patches;
      } else {
        forall s <- patches ensures applied[s.0].sequence != applied[q].sequence {
          SequencesDiffer(log, applied, s.0, q);
        }
      }
    }
    if PlanPasses(patches, applied) {
      forall p, q | p in applied && p in Elements(ids) && q in applied && q !in Elements(ids) && applied[p].sequence < applied[q].sequence
        ensures Touched(applied[p].change) !! Touched(applied[q].change)
      {
        assert (p, applied[p].change) in patches;
      }
    }
  }

  // ----- the rollbacks -----

  /** One change undone: every checkpoint is counted again. */
  function UndoneOne(s: State, files: Files, id: Id): State {
    s.(files := files, applied := s.applied - {id}, checkpoints := AllRecounted(s.checkpoints, s.applied - {id}))
  }

  /** Stops where the file system fails, a file has changed, or the record cannot be saved. */
  function UndoneList(s: State, patches: seq<(Id, Change)>, io: Id -> bool, saves: Id -> bool): (State, nat)
    decreases |patches|
  {
    if patches == [] then (s, 0)
    else
      var (id, c) := patches[|patches| - 1];
      var files := Rollback(s.files, c);
      if !io(id) || files.Err? then (s, 0)
      else if !saves(id) then (UndoneOne(s, files.value, id), 1)
      else
        var (t, count) := UndoneList(UndoneOne(s, files.value, id), patches[..|patches| - 1], io, saves);
        (t, count + 1)
  }

  lemma UndoneListStep(s: State, patches: seq<(Id, Change)>, io: Id -> bool, saves: Id -> bool)
    requires patches != []
    ensures var (id, c) := patches[|patches| - 1];
            var files := Rollback(s.files, c);
            && (!io(id) || files.Err? ==> UndoneList(s, patches, io, saves) == (s, 0))
            && (io(id) && files.Ok? && !saves(id) ==> UndoneList(s, patches, io, saves) == (UndoneOne(s, files.value, id), 1))
            && (io(id) && files.Ok? && saves(id) ==>
                  var (t, count) := UndoneList(UndoneOne(s, files.value, id), patches[..|patches| - 1], io, saves);
                  UndoneList(s, patches, io, saves) == (t, count + 1))
  {
  }

  lemma UndoneNone(s: State, io: Id -> bool, saves: Id -> bool)
    ensures UndoneList(s, [], io, saves) == (s, 0)
  {
  }

  /** While records are saved, undoing is rolling back: counting every checkpoint again makes no
      difference. */
  lemma {:induction false} UndoIsRollback(s: State, patches: seq<(Id, Change)>, io: Id -> bool, saves: Id -> bool)
    requires AllStatusOk(s) && forall id :: saves(id)
    ensures UndoneList(s, patches, io, saves) == RolledBackList(s, patches, io)
    decreases |patches|
  {
    hide Rollback, AllStatusOk, UndoneList, RolledBackList;
    if patches == [] {
      UndoneNone(s, io, saves);
      RolledBackNone(s, io);
    } else {
      var (id, c) := patches[|patches| - 1];
      var files := Rollback(s.files, c);
      UndoneListStep(s, patches, io, saves);
      RolledBackListStep(s, patches, io);
      if io(id) && files.Ok? {
        BothCountsAgree(s, id);
        UnregisterKeepsStatus(s, files.value, id);
        assert UndoneOne(s, files.value, id) == Unregistered(s, files.value, id);
        UndoIsRollback(Unregistered(s, files.value, id), patches[..|patches| - 1], io, saves);
      }
    }
  }

  /** The undo of a reply.  If its plan passes and nothing fails, all of its changes are undone, and the
      files and the record are what the other changes alone would have made. */
  lemma ReplyUndone(start: Files, log: seq<(Id, Change)>, s: State, c: Checkpoint, io: Id -> bool, saves: Id -> bool)
    requires Explains(start, log, s) && AllUndoable(start, ChangesOf(log)) && AllStatusOk(s)
    requires ListsInOrder(c, s.applied)
    requires (forall p <- PatchesOf(c.changeIds, s.applied) :: p.0 in s.applied) && PlanPasses(PatchesOf(c.changeIds, s.applied), s.applied)
    requires (forall id :: io(id)) && forall id :: saves(id)
    ensures var patches := PatchesOf(c.changeIds, s.applied);
            var (t, count) := UndoneList(s, patches, io, saves);
            && count == |patches| && Explains(start, Filter(log, Elements(c.changeIds), false), t) && AllStatusOk(t)
  {
    hide UndoneList, RolledBackList, AllStatusOk, AllUndoable, ApplyAll, PlanPasses, PlanOk, Filter, PatchesOf, ChangesOf, AllFormed, InOrder, ListsInOrder;
    var ids := c.changeIds;
    UndoIsRollback(s, PatchesOf(ids, s.applied), io, saves);
    RollbackListKeepsStatus(s, PatchesOf(ids, s.applied), io);
    PlanPassesIff(log, s.applied, ids);
    CheckpointFollowsHistory(log, c, s.applied);
    UndoneReplyLeavesTheOthers(start, log, s, Elements(ids), io);
  }

  // ----- the check before them -----

  lemma {:induction false} UndoneFiles(s: State, patches: seq<(Id, Change)>, io: Id -> bool, saves: Id -> bool)
    requires (forall id :: io(id)) && forall id :: saves(id)
    ensures var (t, count) := UndoneList(s, patches, io, saves);
            && (count == |patches| <==> RollbackAll(s.files, ChangesOf(patches)).Ok?)
            && (count == |patches| ==> Ok(t.files) == RollbackAll(s.files, ChangesOf(patches)))
            && count <= |patches|
    decreases |patches|
  {
    if patches == [] {
      UndoneNone(s, io, saves);
    } else {
      var n := |patches| - 1;
      var (id, c) := patches[n];
      UndoneListStep(s, patches, io, saves);
      assert ChangesOf(patches) == ChangesOf(patches[..n]) + [c];
      RollbackAllFrom(s.files, ChangesOf(patches[..n]), c);
      hide UndoneList, RollbackAll, ChangesOf, Rollback, AllRecounted;
      if Rollback(s.files, c).Ok? {
        UndoneFiles(UndoneOne(s, Rollback(s.files, c).value, id), patches[..n], io, saves);
      }
    }
  }

  /** Every file touched can be read, and what was read leads back through all the changes. */
  ghost predicate Checked(files: Files, changes: seq<Change>) {
    exists versions: Versions :: TouchedByAll(changes) <= versions.Keys && Describes(versions, files) && ReverseAll(versions, changes).Ok?
  }

  /** The check depends on the paths that the changes touch. */
  lemma {:induction false} ReverseAllIsLocal(v: Versions, w: Versions, cs: seq<Change>)
    requires TouchedByAll(cs) <= v.Keys && TouchedByAll(cs) <= w.Keys && forall p <- TouchedByAll(cs) :: v[p] == w[p]
    requires ReverseAll(v, cs).Ok?
    ensures ReverseAll(w, cs).Ok?
    decreases |cs|
  {
    if cs != [] {
      hide Touched, TouchedByAll, Reverse;
      var n := |cs| - 1;
      TouchedByLast(cs);
      ReverseIsLocal(v, w, cs[n], TouchedByAll(cs));
      ReverseAllIsLocal(Reverse(v, cs[n]).value, Reverse(w, cs[n]).value, cs[..n]);
    }
  }

  lemma ReverseIsLocal(v: Versions, w: Versions, c: Change, paths: set<Path>)
    requires paths <= v.Keys && paths <= w.Keys && (forall p <- paths :: v[p] == w[p]) && Touched(c) <= paths && Reverse(v, c).Ok?
    ensures Reverse(w, c).Ok? && Reverse(v, c).value.Keys == v.Keys && Reverse(w, c).value.Keys == w.Keys
    ensures forall p <- paths :: Reverse(v, c).value[p] == Reverse(w, c).value[p]
  {
    assert c.path in paths;
    assert c.action.Rename? ==> c.action.destination in paths;
  }

  /** So one reading of the files decides it. */
  lemma CheckedIff(files: Files, changes: seq<Change>, versions: Versions)
    requires TouchedByAll(changes) <= versions.Keys && Describes(versions, files)
    ensures Checked(files, changes) <==> ReverseAll(versions, changes).Ok?
  {
    hide ReverseAll, TouchedByAll, Readable;
    if Checked(files, changes) {
      var other: Versions :|
        TouchedByAll(changes) <= other.Keys && Describes(other, files) && ReverseAll(other, changes).Ok?;
      forall p <- TouchedByAll(changes) ensures other[p] == versions[p] {
        assert p in other && p in versions;
      }
      ReverseAllIsLocal(other, versions, changes);
    }
  }

  /** And it fails if one of the files cannot be read. */
  lemma UnreadableFailsCheck(files: Files, changes: seq<Change>, p: Path)
    requires p in TouchedByAll(changes) && ReadVersion(files, p).Err?
    ensures !Checked(files, changes)
  {
    hide TouchedByAll, ReverseAll;
    forall versions: Versions | TouchedByAll(changes) <= versions.Keys ensures !Describes(versions, files) {
      assert p in versions;
    }
  }

  /** An undo that has passed the check, and meets no failure of the file system or of the saving of the
      record, completes exactly when no change that rewrites line ends as it is taken back follows another
      of the same file. */
  lemma CheckedUndoCompletesIff(s: State, patches: seq<(Id, Change)>, io: Id -> bool, saves: Id -> bool)
    requires Checked(s.files, ChangesOf(patches)) && AllFormed(ChangesOf(patches)) && BeforesReadable(ChangesOf(patches))
    requires (forall id :: io(id)) && forall id :: saves(id)
    ensures UndoneList(s, patches, io, saves).1 == |patches| <==> NoRewriteOnTop(ChangesOf(patches))
  {
    hide UndoneList, RollbackAll, ReverseAll, Describes, AllFormed, TouchedByAll, BeforesReadable, NoRewriteOnTop, ChangesOf;
    var changes := ChangesOf(patches);
    var versions: Versions :| TouchedByAll(changes) <= versions.Keys && Describes(versions, s.files) && ReverseAll(versions, changes).Ok?;
    CheckDecidesUndo(versions, s.files, changes);
    UndoneFiles(s, patches, io, saves);
  }

  /** The record of a reply among the checkpoints. */
  function FirstRecord(cs: seq<Checkpoint>, id: Id, message: Id): (i: nat)
    ensures i <= |cs| && (i < |cs| ==> cs[i].id == id && cs[i].message == message != "")
    ensures forall j :: 0 <= j < i ==> !(cs[j].id == id && cs[j].message == message != "")
  {
    if cs == [] || (cs[0].id == id && cs[0].message == message != "") then 0 else 1 + FirstRecord(cs[1..], id, message)
  }
}
