/** The workspace tools of the agent: the methods that change files and the record of changes in place. */
module AgentWorkspace {
  import opened Wrappers
  import opened Workspace
  import opened WorkspaceState
  import opened WorkspaceUndo
  import opened ReplyUndo
  import WorkspaceRuns

  /** How an operation on files ends: as `planned` says, or, when the file system fails, with an error and
      nothing changed. */
  predicate EndsAs(planned: Result<Files, Error>, io: bool, before: Files, after: Files, error: Option<Error>) {
    if io then
      match planned
      case Ok(files) => error.None? && after == files
      case Err(e) => error == Some(e) && after == before
    else error.Some? && after == before
  }

  function Plus(r: (State, nat), count: nat): (State, nat) {
    (r.0, r.1 + count)
  }

  class AgentWorkspace {
    var files: Files
    var applied: map<Id, Entry>
    var next: nat
    var checkpoints: seq<Checkpoint>

    ghost function Value(): State
      reads this
    {
      State(files, applied, next, checkpoints)
    }

    constructor (files: Files)
      ensures Value() == State(files, map[], 0, [])
    {
      this.files, applied, next, checkpoints := files, map[], 0, [];
    }

    // ----- files -----

    /** Writes to a temporary file and, if the file is still as expected, puts it in its place. */
    method WriteVersion(path: Path, before: Option<Content>, after: Content, io: bool) returns (error: Option<Error>)
      modifies `files
      ensures EndsAs(Workspace.WriteVersion(old(files), path, before, after), io, old(files), files, error)
      ensures error.None? ==> path in files && files == old(files)[path := files[path]] && StoredAs(before, after, files[path])
    {
      StoredKeepsLineEnds(before, after);
      hide StoredAs, ToCrlf, HasCrlf;
      if |after| > MAX_FILE_BYTES {
        return Some(TooLarge);
      }
      var current := ReadVersion(files, path);
      if current.Err? {
        return Some(current.error);
      }
      if current.value != before {
        return Some(Conflict);
      }
      var content := after;
      if before.Some? && HasCrlf(before.value) && !HasCrlf(after) {
        content := ToCrlf(after);
      }
      if !io {
        return Some(Io);
      }
      files := files[path := content];
      return None;
    }

    method Remove(path: Path, io: bool) returns (error: Option<Error>)
      modifies `files
      ensures EndsAs(Removed(old(files), path), io, old(files), files, error)
    {
      if !io || path !in files {
        return Some(Io);
      }
      files := files - {path};
      return None;
    }

    method Move(from: Path, to: Path, io: bool) returns (error: Option<Error>)
      modifies `files
      ensures EndsAs(Moved(old(files), from, to), io, old(files), files, error)
    {
      if !io || from !in files {
        return Some(Io);
      }
      files := (files - {from})[to := files[from]];
      return None;
    }

    method ApplyChange(c: Change, io: bool) returns (error: Option<Error>)
      modifies `files
      ensures EndsAs(Apply(old(files), c), io, old(files), files, error)
    {
      if c.action.Patch? {
        error := WriteVersion(c.path, c.before, Text(c.after), io);
        return;
      }
      var current := ReadVersion(files, c.path);
      if current.Err? {
        return Some(current.error);
      }
      if current.value != c.before {
        return Some(Conflict);
      }
      if c.before.Some? && (c.action.Delete? || c.action.Rename?) {
        error := WriteVersion(c.path, c.before, c.before.value, io);
        if error.Some? {
          return;
        }
        BackupChangesNothing(old(files), c);
      }
      match c.action {
        case Create => error := WriteVersion(c.path, None, Text(c.after), io);
        case Write => error := WriteVersion(c.path, c.before, Text(c.after), io);
        case Delete => error := Remove(c.path, io);
        case Rename(destination) => error := Move(c.path, destination, io);
      }
    }

    method RollbackLocal(c: Change, io: bool) returns (error: Option<Error>)
      modifies `files
      ensures EndsAs(Rollback(old(files), c), io, old(files), files, error)
    {
      var current := ReadVersion(files, c.path);
      if current.Err? {
        return Some(current.error);
      }
      match c.action {
        case Patch | Write =>
          if current.value != c.after {
            return Some(Conflict);
          }
          if c.before.Some? {
            error := WriteVersion(c.path, current.value, c.before.value, io);
          } else {
            error := Remove(c.path, io);
          }
        case Create =>
          if current.value != c.after {
            return Some(Conflict);
          }
          error := Remove(c.path, io);
        case Delete =>
          if current.value.Some? || c.before.None? {
            return Some(Conflict);
          }
          error := WriteVersion(c.path, None, c.before.value, io);
        case Rename(destination) =>
          if current.value.Some? {
            return Some(Conflict);
          }
          var moved := ReadVersion(files, destination);
          if moved.Err? {
            return Some(moved.error);
          }
          if moved.value != c.before {
            return Some(Conflict);
          }
          error := Move(destination, c.path, io);
      }
    }

    // ----- the record -----

    method NextSequence() returns (sequence: nat)
      ensures IsNext(Value(), sequence)
    {
      var highest := next;
      var rest := applied.Keys;
      while rest != {}
        invariant rest <= applied.Keys && next <= highest
        invariant forall id <- applied :: id !in rest ==> applied[id].sequence <= highest
        invariant highest == next || exists id <- applied :: applied[id].sequence == highest
        decreases |rest|
      {
        var id :| id in rest;
        if applied[id].sequence > highest {
          highest := applied[id].sequence;
        }
        rest := rest - {id};
      }
      return highest + 1;
    }

    method RegisterApplied(id: Id, c: Change, message: Id, checkpointId: Id)
      modifies `applied, `next, `checkpoints
      ensures exists sequence: nat :: IsNext(old(Value()), sequence)
                                      && Value() == Registered(old(Value()), id, c, message, sequence, checkpointId)
    {
      var sequence := NextSequence();
      var i := 0;
      while i < |checkpoints| && checkpoints[i].message != message
        invariant i <= |checkpoints| && forall j :: 0 <= j < i ==> checkpoints[j].message != message
      {
        i := i + 1;
      }
      if i < |checkpoints| {
        checkpoints := checkpoints[i := checkpoints[i].(changeIds := checkpoints[i].changeIds + [id])];
      } else {
        checkpoints := checkpoints + [Checkpoint(checkpointId, message, [id], Active)];
      }
      applied := applied[id := Entry(c, sequence)];
      next := sequence;
      assert Value() == Registered(old(Value()), id, c, message, sequence, checkpointId);
    }

    method CountRemaining(ids: seq<Id>) returns (n: nat)
      ensures n == Remaining(ids, applied)
    {
      n := 0;
      for i := 0 to |ids|
        invariant n == Remaining(ids[..i], applied)
      {
        assert ids[..i + 1][..i] == ids[..i];
        if ids[i] in applied {
          n := n + 1;
        }
      }
      assert ids[..|ids|] == ids;
    }

    method MarkCheckpointChangeRemoved(id: Id)
      modifies `checkpoints
      ensures checkpoints == Marked(old(checkpoints), applied, id)
    {
      hide Remaining;
      var was := checkpoints;
      ghost var marked := Marked(was, applied, id);
      for i := 0 to |was|
        invariant |checkpoints| == |was|
        invariant forall j :: 0 <= j < i ==> checkpoints[j] == marked[j]
        invariant forall j :: i <= j < |was| ==> checkpoints[j] == was[j]
      {
        var c := was[i];
        if id in c.changeIds {
          var remaining := CountRemaining(c.changeIds);
          if remaining == 0 {
            checkpoints := checkpoints[i := c.(status := RolledBack)];
          } else if remaining < |c.changeIds| {
            checkpoints := checkpoints[i := c.(status := Partial)];
          }
        }
      }
    }

    /** The rollback of one change, by the identifier it was registered under. */
    method RollbackPatch(id: Id, io: bool) returns (error: Option<Error>)
      modifies this
      ensures id !in old(applied) ==> error == Some(NothingToUndo) && Value() == old(Value())
      ensures id in old(applied) ==>
                var planned := RollbackOne(old(files), old(applied)[id].change);
                && (io ==> error == if planned.Ok? then None else Some(planned.error))
                && (error.None? ==> planned.Ok? && Value() == Unregistered(old(Value()), planned.value, id))
                && (error.Some? ==> Value() == old(Value()))
    {
      if id !in applied {
        return Some(NothingToUndo);
      }
      var c := applied[id].change;
      if c.action.Create? || c.action.Delete? || c.action.Rename? || (c.action.Write? && c.before.None?) {
        error := RollbackWhole(c, io);
      } else if c.before.None? {
        return Some(NothingToUndo);
      } else {
        var reverse := ReversePatch(Text(c.after), c.before.value);
        if reverse.Err? {
          return Some(reverse.error);
        }
        error := WriteVersion(c.path, Some(Text(c.after)), c.before.value, io);
      }
      if error.None? {
        applied := applied - {id};
        MarkCheckpointChangeRemoved(id);
      }
    }

    /** The part of it for changes that make, remove or move a file. */
    method RollbackWhole(c: Change, io: bool) returns (error: Option<Error>)
      requires c.action.Create? || c.action.Delete? || c.action.Rename? || (c.action.Write? && c.before.None?)
      modifies `files
      ensures error.None? ==> RollbackOne(old(files), c) == Ok(files)
      ensures error.Some? ==> files == old(files) && (io ==> RollbackOne(files, c) == Err(error.value))
    {
      var current := ReadVersion(files, c.path);
      if current.Err? {
        return Some(current.error);
      }
      match c.action {
        case Delete =>
          if current.value.Some? {
            return Some(Conflict);
          }
          error := WriteVersion(c.path, None, Text(c.before), io);
        case Rename(destination) =>
          var moved := ReadVersion(files, destination);
          if moved.Err? {
            return Some(moved.error);
          }
          if moved.value != c.before || current.value.Some? {
            return Some(Conflict);
          }
          error := Move(destination, c.path, io);
        case Create | Write =>
          if current.value != c.after {
            return Some(Conflict);
          }
          if c.before.None? {
            error := Remove(c.path, io);
          } else {
            error := None;
          }
      }
    }

    method CreateCheckpoint(checkpointId: Id, sorted: seq<Id>) returns (ok: bool)
      modifies `checkpoints
      ensures ok <==> applied != map[]
      ensures checkpoints == old(checkpoints) + if ok then [Checkpoint(checkpointId, "", sorted, Active)] else []
      ensures Value() == WorkspaceRuns.Performed(old(Value()), WorkspaceRuns.MakeCheckpoint(checkpointId, sorted))
    {
      if applied == map[] {
        return false;
      }
      checkpoints := checkpoints + [Checkpoint(checkpointId, "", sorted, Active)];
      return true;
    }

    /** One change of such a rollback, and its removal from the record. */
    method RollbackNext(id: Id, c: Change, io: bool) returns (error: Option<Error>)
      modifies this
      ensures error.None? <==> io && Rollback(old(files), c).Ok?
      ensures error.None? ==> Value() == Unregistered(old(Value()), Rollback(old(files), c).value, id)
      ensures error.Some? ==> Value() == old(Value())
    {
      hide Rollback, Marked;
      error := RollbackLocal(c, io);
      if error.None? {
        applied := applied - {id};
        MarkCheckpointChangeRemoved(id);
      }
    }

    /** The rollback of a checkpoint, of the named changes, or of everything: `target` is the checkpoint
        asked for, or the last active one. */
    method RollbackWorkspace(target: nat, ids: seq<Id>, io: Id -> bool) returns (count: nat)
      modifies this
      ensures Value() == WorkspaceRolledBack(old(Value()), target, ids, io)
      ensures count == RolledBackList(old(Value()), PatchesOf(ids, old(applied)), io).1
    {
      hide RolledBackList, Rollback, Unregistered;
      var patches := CollectPatches(ids);
      count := 0;
      RolledBackNone(Value(), io);
      assert patches[..|patches| - 0] == patches;
      while count < |patches|
        invariant count <= |patches|
        invariant RolledBackList(old(Value()), patches, io) ==
                  Plus(RolledBackList(Value(), patches[..|patches| - count], io), count)
      {
        var left := patches[..|patches| - count];
        var (id, c) := left[|left| - 1];
        assert left[..|left| - 1] == patches[..|patches| - (count + 1)];
        RolledBackListStep(Value(), left, io);
        var error := RollbackNext(id, c, io(id));
        if error.Some? {
          return;
        }
        count := count + 1;
      }
      RolledBackNone(Value(), io);
      assert patches[..|patches| - count] == [];
      if patches != [] && target < |checkpoints| {
        checkpoints := checkpoints[target := checkpoints[target].(status := RolledBack)];
      }
    }

    /** One change of the undo of a reply, and its removal from the record. */
    method UndoNext(id: Id, c: Change, io: bool) returns (error: Option<Error>)
      modifies this
      ensures error.None? <==> io && Rollback(old(files), c).Ok?
      ensures error.None? ==> Value() == UndoneOne(old(Value()), Rollback(old(files), c).value, id)
      ensures error.Some? ==> Value() == old(Value())
    {
      hide Rollback, Recounted;
      error := RollbackLocal(c, io);
      if error.None? {
        applied := applied - {id};
        var was := checkpoints;
        ghost var counted := AllRecounted(was, applied);
        for i := 0 to |was|
          invariant |checkpoints| == |was| && files == Rollback(old(files), c).value && applied == old(applied) - {id} && next == old(next)
          invariant forall j :: 0 <= j < i ==> checkpoints[j] == counted[j]
          invariant forall j :: i <= j < |was| ==> checkpoints[j] == was[j]
        {
          var c := RecountedCheckpoint(was[i]);
          checkpoints := checkpoints[i := c];
        }
      }
    }

    method RecountedCheckpoint(c: Checkpoint) returns (r: Checkpoint)
      ensures r == Recounted(c, applied)
    {
      var remaining := CountRemaining(c.changeIds);
      if remaining == 0 {
        return c.(status := RolledBack);
      } else if remaining < |c.changeIds| {
        return c.(status := Partial);
      }
      return c;
    }

    /** The undo of one reply: refused before anything has changed, or carried out from the newest change
        until the file system, a changed file or the saving of the record stops it. */
    method UndoReply(checkpointId: Id, message: Id, io: Id -> bool, saves: Id -> bool) returns (r: Result<nat, Refusal>)
      modifies this
      ensures r.Err? ==> Value() == old(Value())
      ensures r == Err(NoRecord) <==> FirstRecord(old(checkpoints), checkpointId, message) == |old(checkpoints)|
      ensures r != Err(NoRecord) ==>
                var patches := PatchesOf(old(checkpoints)[FirstRecord(old(checkpoints), checkpointId, message)].changeIds, old(applied));
                && (r == Err(AlreadyUndone) <==> patches == [])
                && (forall p <- patches :: p.0 in old(applied))
                && (r == Err(TouchedLater) <==> patches != [] && !PlanPasses(patches, old(applied)))
                && (r == Err(Unreadable) <==>
                      && patches != [] && PlanPasses(patches, old(applied))
                      && exists p <- TouchedByAll(ChangesOf(patches)) :: ReadVersion(old(files), p).Err?)
                && (r.Ok? <==> patches != [] && PlanPasses(patches, old(applied)) && Checked(old(files), ChangesOf(patches)))
                && (r.Ok? ==> (Value(), r.value) == UndoneList(old(Value()), patches, io, saves))
    {
      var i := 0;
      while i < |checkpoints| && !(checkpoints[i].id == checkpointId && checkpoints[i].message == message && message != "")
        invariant i <= |checkpoints|
        invariant forall j :: 0 <= j < i ==> !(checkpoints[j].id == checkpointId && checkpoints[j].message == message != "")
      {
        i := i + 1;
      }
      assert i == FirstRecord(checkpoints, checkpointId, message);
      if i == |checkpoints| {
        return Err(NoRecord);
      }
      var ids := checkpoints[i].changeIds;
      PatchesAreApplied(ids, applied);
      hide PatchesOf, PlanPasses, UndoneList, FirstRecord, Checked, TouchedByAll, ReverseAll, Describes, ChangesOf;
      var patches := CollectPatches(ids);
      if patches == [] {
        return Err(AlreadyUndone);
      }
      if !PlanPasses(patches, applied) {
        return Err(TouchedLater);
      }
      var versions := ReadVersions(ChangesOf(patches));
      if versions.Err? {
        ghost var p :| p in TouchedByAll(ChangesOf(patches)) && ReadVersion(files, p).Err?;
        UnreadableFailsCheck(files, ChangesOf(patches), p);
        return Err(Unreadable);
      }
      CheckedIff(files, ChangesOf(patches), versions.value);
      AllCanBeRead(files, ChangesOf(patches), versions.value);
      var passed := ReverseVersions(versions.value, ChangesOf(patches));
      if !passed {
        return Err(Changed);
      }
      var count := UndoPatches(patches, io, saves);
      return Ok(count);
    }

    /** The rollbacks of an undo, each saved before the next. */
    method UndoPatches(patches: seq<(Id, Change)>, io: Id -> bool, saves: Id -> bool) returns (count: nat)
      modifies this
      ensures (Value(), count) == UndoneList(old(Value()), patches, io, saves)
    {
      hide UndoneList, Rollback, UndoneOne;
      count := 0;
      UndoneNone(Value(), io, saves);
      assert patches[..|patches| - 0] == patches;
      while count < |patches|
        invariant count <= |patches|
        invariant UndoneList(old(Value()), patches, io, saves) ==
                  Plus(UndoneList(Value(), patches[..|patches| - count], io, saves), count)
      {
        var left := patches[..|patches| - count];
        var (id, c) := left[|left| - 1];
        assert left[..|left| - 1] == patches[..|patches| - (count + 1)];
        UndoneListStep(Value(), left, io, saves);
        var error := UndoNext(id, c, io(id));
        if error.Some? {
          return;
        }
        count := count + 1;
        if !saves(id) {
          return;
        }
      }
      UndoneNone(Value(), io, saves);
      assert patches[..|patches| - count] == [];
    }

    /** Reads every file that the changes touch. */
    method ReadVersions(changes: seq<Change>) returns (r: Result<Versions, Error>)
      ensures r.Ok? ==> TouchedByAll(changes) <= r.value.Keys && Describes(r.value, files)
      ensures r.Err? ==> exists p <- TouchedByAll(changes) :: ReadVersion(files, p).Err?
    {
      hide Describes, ReadVersion, TouchedByAll;
      var versions: Versions := map[];
      NothingRead(files);
      for i := 0 to |changes|
        invariant Describes(versions, files) && TouchedByAll(changes[..i]) <= versions.Keys
      {
        var c := changes[i];
        TouchedMore(changes, i);
        var current := ReadVersion(files, c.path);
        if current.Err? {
          return Err(current.error);
        }
        DescribesMore(versions, files, c.path);
        versions := versions[c.path := current.value];
        if c.action.Rename? {
          var moved := ReadVersion(files, c.action.destination);
          if moved.Err? {
            return Err(moved.error);
          }
          DescribesMore(versions, files, c.action.destination);
          versions := versions[c.action.destination := moved.value];
        }
      }
      assert changes[..|changes|] == changes;
      return Ok(versions);
    }

    method CollectPatches(ids: seq<Id>) returns (patches: seq<(Id, Change)>)
      ensures patches == PatchesOf(ids, applied)
    {
      patches := [];
      for i := 0 to |ids|
        invariant patches == PatchesOf(ids[..i], applied)
      {
        assert ids[..i + 1][..i] == ids[..i];
        if ids[i] in applied {
          patches := patches + [(ids[i], applied[ids[i]].change)];
        }
      }
      assert ids[..|ids|] == ids;
    }
  }

  lemma NothingRead(files: Files)
    ensures Describes(map[], files) && TouchedByAll([]) == {}
  {
  }

  lemma DescribesMore(versions: Versions, files: Files, p: Path)
    requires Describes(versions, files) && ReadVersion(files, p).Ok?
    ensures Describes(versions[p := ReadVersion(files, p).value], files)
  {
  }

  lemma TouchedMore(changes: seq<Change>, i: nat)
    requires i < |changes|
    ensures TouchedByAll(changes[..i + 1]) == TouchedByAll(changes[..i]) + Touched(changes[i])
    ensures Touched(changes[i]) <= TouchedByAll(changes)
  {
    assert changes[..i + 1] == changes[..i] + [changes[i]];
  }

  lemma AllCanBeRead(files: Files, changes: seq<Change>, versions: Versions)
    requires TouchedByAll(changes) <= versions.Keys && Describes(versions, files)
    ensures forall p <- TouchedByAll(changes) :: ReadVersion(files, p).Ok?
  {
    forall p <- TouchedByAll(changes) ensures ReadVersion(files, p).Ok? {
      assert p in versions;
    }
  }

  /** Takes the changes back in the versions that were read. */
  method ReverseVersions(start: Versions, changes: seq<Change>) returns (passed: bool)
    ensures passed <==> ReverseAll(start, changes).Ok?
  {
    var versions := start;
    var i := |changes|;
    assert changes[..i] == changes;
    while i > 0
      invariant i <= |changes| && ReverseAll(start, changes) == ReverseAll(versions, changes[..i])
    {
      assert changes[..i][..i - 1] == changes[..i - 1];
      var next := Reverse(versions, changes[i - 1]);
      if next.Err? {
        return false;
      }
      versions := next.value;
      i := i - 1;
    }
    return true;
  }
}
