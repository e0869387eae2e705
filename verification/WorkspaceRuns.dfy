/** Runs of the workspace tools: what the record of changes says of the files, and the checkpoints of the
    record, after any number of applies, rollbacks, checkpoints and undone replies. */
module WorkspaceRuns {
  import opened Wrappers
  import opened Workspace
  import opened WorkspaceUndo
  import opened WorkspaceState
  import opened ReplyUndo

  // ----- taking back some changes -----

  /** From `s` to `t` exactly these changes were taken back, the last first. */
  predicate TakenBack(s: State, t: State, patches: seq<(Id, Change)>) {
    && RollbackAll(s.files, ChangesOf(patches)) == Ok(t.files)
    && t.applied == s.applied - IdsOf(patches) && t.next == s.next
    && OnlyStatusDiffers(s.checkpoints, t.checkpoints)
  }

  lemma NothingTakenBack(s: State)
    ensures TakenBack(s, s, [])
  {
    IdsOfNone();
    assert s.applied - {} == s.applied;
  }

  lemma TakenBackThen(s: State, u: State, t: State, id: Id, c: Change, rest: seq<(Id, Change)>)
    requires Rollback(s.files, c) == Ok(u.files) && u.applied == s.applied - {id} && u.next == s.next
    requires OnlyStatusDiffers(s.checkpoints, u.checkpoints) && TakenBack(u, t, rest)
    ensures TakenBack(s, t, rest + [(id, c)])
  {
    hide Rollback, RollbackAll, IdsOf;
    assert ChangesOf(rest + [(id, c)]) == ChangesOf(rest) + [c];
    RollbackAllFrom(s.files, ChangesOf(rest), c);
    RemovedThen(s.applied, rest, (id, c));
  }

  /** A rollback that stops early has taken back exactly the newest of its list. */
  lemma {:induction false} RollbackTakesNewest(s: State, patches: seq<(Id, Change)>, io: Id -> bool)
    ensures var (t, count) := RolledBackList(s, patches, io);
            count <= |patches| && TakenBack(s, t, patches[|patches| - count..])
    decreases |patches|
  {
    hide TakenBack, RolledBackList, Rollback, Marked;
    NothingTakenBack(s);
    assert patches[|patches| - 0..] == [];
    if patches == [] {
      RolledBackNone(s, io);
    } else {
      RolledBackListStep(s, patches, io);
      var n := |patches| - 1;
      var (id, c) := patches[n];
      if io(id) && Rollback(s.files, c).Ok? {
        var u := Unregistered(s, Rollback(s.files, c).value, id);
        RollbackTakesNewest(u, patches[..n], io);
        var (t, count) := RolledBackList(u, patches[..n], io);
        RecountKeepsRest(s.checkpoints, u.applied, id);
        TakenBackThen(s, u, t, id, c, patches[..n][n - count..]);
        assert patches[|patches| - (count + 1)..] == patches[..n][n - count..] + [patches[n]];
      }
    }
  }

  lemma AllRecountKeepsRest(cs: seq<Checkpoint>, applied: map<Id, Entry>)
    ensures OnlyStatusDiffers(cs, AllRecounted(cs, applied))
  {
    hide Remaining;
  }

  /** And so has the undo of a reply. */
  lemma {:induction false} UndoTakesNewest(s: State, patches: seq<(Id, Change)>, io: Id -> bool, saves: Id -> bool)
    ensures var (t, count) := UndoneList(s, patches, io, saves);
            count <= |patches| && TakenBack(s, t, patches[|patches| - count..])
    decreases |patches|
  {
    hide TakenBack, UndoneList, Rollback, AllRecounted;
    NothingTakenBack(s);
    assert patches[|patches| - 0..] == [];
    if patches == [] {
      UndoneNone(s, io, saves);
    } else {
      UndoneListStep(s, patches, io, saves);
      var n := |patches| - 1;
      var (id, c) := patches[n];
      if io(id) && Rollback(s.files, c).Ok? {
        var u := UndoneOne(s, Rollback(s.files, c).value, id);
        AllRecountKeepsRest(s.checkpoints, u.applied);
        NothingTakenBack(u);
        TakenBackThen(s, u, u, id, c, []);
        assert patches[|patches| - 1..] == [] + [patches[n]];
        UndoTakesNewest(u, patches[..n], io, saves);
        var (t, count) := UndoneList(u, patches[..n], io, saves);
        TakenBackThen(s, u, t, id, c, patches[..n][n - count..]);
        assert patches[|patches| - (count + 1)..] == patches[..n][n - count..] + [patches[n]];
      }
    }
  }

  // ----- the record explains the files -----

  /** The applied changes, oldest first, make the files out of `start`, each could be taken back where it was
      applied, and every checkpoint lists its changes in the order of application. */
  predicate RecordOk(start: Files, log: seq<(Id, Change)>, s: State) {
    && Explains(start, log, s) && AllUndoable(start, ChangesOf(log))
    && forall c <- s.checkpoints :: ListsInOrder(c, s.applied)
  }

  lemma {:induction false} NamesApplied(log: seq<(Id, Change)>, applied: map<Id, Entry>, p: (Id, Change))
    requires InOrder(log, applied) && p in log
    ensures p.0 in applied
    decreases |log|
  {
    var n := |log| - 1;
    if p != log[n] {
      assert log == log[..n] + [log[n]];
      NamesApplied(log[..n], applied - {log[n].0}, p);
    }
  }

  lemma {:induction false} FilterElsewhere(log: seq<(Id, Change)>, ids: set<Id>, id: Id, selected: bool)
    requires forall p <- log :: p.0 != id
    ensures Filter(log, ids + {id}, selected) == Filter(log, ids, selected)
  {
    if log != [] {
      assert log == log[..|log| - 1] + [log[|log| - 1]];
      FilterElsewhere(log[..|log| - 1], ids, id, selected);
    }
  }

  lemma {:induction false} FilterNone(log: seq<(Id, Change)>)
    ensures Filter(log, {}, true) == []
  {
    if log != [] {
      FilterNone(log[..|log| - 1]);
    }
  }

  lemma FilterLast(log: seq<(Id, Change)>, ids: set<Id>)
    requires log != [] && log[|log| - 1].0 in ids
    ensures Filter(log, ids, true) == Filter(log[..|log| - 1], ids, true) + [log[|log| - 1]]
  {
  }

  lemma OneMoreId(rest: seq<(Id, Change)>, x: (Id, Change))
    ensures IdsOf(rest + [x]) == IdsOf(rest) + {x.0}
  {
    IdsOfConcat(rest, [x]);
    assert IdsOf([x]) == IdsOf([]) + {x.0};
  }

  predicate NewestChosen(log: seq<(Id, Change)>, ids: set<Id>, newest: seq<(Id, Change)>) {
    Filter(log, IdsOf(newest), true) == newest && IdsOf(newest) <= ids
  }

  lemma NewestWith(log: seq<(Id, Change)>, ids: set<Id>, rest: seq<(Id, Change)>, x: (Id, Change))
    requires NewestChosen(log, ids, rest) && x.0 in ids && forall p <- log :: p.0 != x.0
    ensures NewestChosen(log + [x], ids, rest + [x])
  {
    OneMoreId(rest, x);
    FilterElsewhere(log, IdsOf(rest), x.0, true);
    hide IdsOf, Filter;
    assert (log + [x])[..|log|] == log;
    FilterLast(log + [x], IdsOf(rest) + {x.0});
  }

  lemma NewestWithout(log: seq<(Id, Change)>, ids: set<Id>, newest: seq<(Id, Change)>, x: (Id, Change))
    requires NewestChosen(log, ids, newest) && x.0 !in ids
    ensures NewestChosen(log + [x], ids, newest)
  {
    assert (log + [x])[..|log|] == log;
  }

  /** The newest of some changes are themselves such a choice. */
  lemma {:induction false} NewestAreChosen(log: seq<(Id, Change)>, applied: map<Id, Entry>, ids: set<Id>, k: nat)
    requires InOrder(log, applied) && k <= |Filter(log, ids, true)|
    ensures var all := Filter(log, ids, true); NewestChosen(log, ids, all[|all| - k..])
    decreases |log|
  {
    hide NewestChosen, IdsOf;
    var all := Filter(log, ids, true);
    if k == 0 {
      assert all[|all|..] == [];
      NoneChosen(log, ids);
    } else {
      var n := |log| - 1;
      var x := log[n];
      var earlier := Filter(log[..n], ids, true);
      assert log == log[..n] + [x];
      forall p <- log[..n] ensures p.0 != x.0 {
        NamesApplied(log[..n], applied - {x.0}, p);
      }
      if x.0 !in ids {
        assert all == earlier;
        NewestAreChosen(log[..n], applied - {x.0}, ids, k);
        NewestWithout(log[..n], ids, all[|all| - k..], x);
      } else {
        NewestAreChosen(log[..n], applied - {x.0}, ids, k - 1);
        var rest := earlier[|earlier| - (k - 1)..];
        assert all[|all| - k..] == rest + [x];
        NewestWith(log[..n], ids, rest, x);
      }
    }
  }

  lemma NoneChosen(log: seq<(Id, Change)>, ids: set<Id>)
    ensures NewestChosen(log, ids, [])
  {
    IdsOfNone();
    FilterNone(log);
  }

  /** A plan that passes for some changes passes for the newest of them. */
  lemma PlanOfNewest(log: seq<(Id, Change)>, applied: map<Id, Entry>, ids: set<Id>, k: nat)
    requires InOrder(log, applied) && PlanOk(applied, ids) && k <= |Filter(log, ids, true)|
    ensures var all := Filter(log, ids, true); PlanOk(applied, IdsOf(all[|all| - k..]))
  {
    hide Touched, InOrder, Filter, IdsOf;
    var all := Filter(log, ids, true);
    var newest := all[|all| - k..];
    NewestAreChosen(log, applied, ids, k);
    FilterInOrder(log, applied, ids, true);
    var mine := Restrict(applied, ids, true);
    forall p, q | p in applied && p in IdsOf(newest) && q in applied && q !in IdsOf(newest) && applied[p].sequence < applied[q].sequence
      ensures Touched(applied[p].change) !! Touched(applied[q].change)
    {
      if q in ids {
        NewestComeLast(all, mine, |all| - k, p, q);
      }
    }
  }

  lemma NewestComeLast(all: seq<(Id, Change)>, mine: map<Id, Entry>, from: nat, p: Id, q: Id)
    requires InOrder(all, mine) && from <= |all| && p in IdsOf(all[from..]) && q in mine && q !in IdsOf(all[from..])
    ensures p in mine && mine[q].sequence < mine[p].sequence
  {
    var j := IndexIn(all[from..], p);
    var i := IndexOf(all, mine, q);
    if i >= from {
      InIds(all[from..], i - from);
    }
    InOrderAt(all, mine, i, from + j);
  }

  lemma {:induction false} InIds(patches: seq<(Id, Change)>, i: nat)
    requires i < |patches|
    ensures patches[i].0 in IdsOf(patches)
  {
    if i > 0 {
      InIds(patches[1..], i - 1);
    }
  }

  lemma {:induction false} IndexIn(patches: seq<(Id, Change)>, id: Id) returns (i: nat)
    requires id in IdsOf(patches)
    ensures i < |patches| && patches[i].0 == id
  {
    if patches[0].0 == id {
      i := 0;
    } else {
      i := IndexIn(patches[1..], id);
      i := i + 1;
    }
  }

  lemma {:induction false} IndexOf(log: seq<(Id, Change)>, applied: map<Id, Entry>, id: Id) returns (i: nat)
    requires InOrder(log, applied) && id in applied
    ensures i < |log| && log[i].0 == id
    decreases |log|
  {
    var n := |log| - 1;
    if log[n].0 == id {
      i := n;
    } else {
      i := IndexOf(log[..n], applied - {log[n].0}, id);
    }
  }

  lemma {:induction false} RemovalsKeepOrder(c: Checkpoint, applied: map<Id, Entry>, patches: seq<(Id, Change)>)
    requires ListsInOrder(c, applied)
    ensures ListsInOrder(c, applied - IdsOf(patches))
  {
    hide ListsInOrder;
    if patches == [] {
      assert applied - {} == applied;
    } else {
      RemovalsKeepOrder(c, applied, patches[1..]);
      RemovalKeepsOrder(c, applied - IdsOf(patches[1..]), patches[0].0);
      assert applied - IdsOf(patches[1..]) - {patches[0].0} == applied - IdsOf(patches);
    }
  }

  lemma CheckpointsStayInOrder(s: State, t: State, patches: seq<(Id, Change)>)
    requires TakenBack(s, t, patches) && forall c <- s.checkpoints :: ListsInOrder(c, s.applied)
    ensures forall c <- t.checkpoints :: ListsInOrder(c, t.applied)
  {
    hide IdsOf, InOrder, PatchesOf, Restrict, RollbackAll;
    forall i | 0 <= i < |t.checkpoints| ensures ListsInOrder(t.checkpoints[i], t.applied) {
      RemovalsKeepOrder(s.checkpoints[i], s.applied, patches);
    }
  }

  /** Taking back the newest of a choice of changes that no later change which stays follows on a path: the
      record of the others explains the files. */
  lemma TakingBackKeepsRecord(start: Files, log: seq<(Id, Change)>, s: State, t: State, ids: set<Id>, k: nat)
    requires RecordOk(start, log, s) && PlanOk(s.applied, ids) && k <= |Filter(log, ids, true)|
    requires var all := Filter(log, ids, true); TakenBack(s, t, all[|all| - k..])
    ensures var all := Filter(log, ids, true);
            RecordOk(start, Filter(log, IdsOf(all[|all| - k..]), false), t)
  {
    hide InOrder, Filter, IdsOf, ApplyAll, AllUndoable, RollbackAll, PlanOk, ListsInOrder, Formed, LogOf;
    var all := Filter(log, ids, true);
    var newest := all[|all| - k..];
    NewestAreChosen(log, s.applied, ids, k);
    PlanOfNewest(log, s.applied, ids, k);
    CheckpointsStayInOrder(s, t, newest);
    ChosenTakenBack(start, log, s, t, IdsOf(newest));
  }

  lemma ChosenTakenBack(start: Files, log: seq<(Id, Change)>, s: State, t: State, ids: set<Id>)
    requires Explains(start, log, s) && AllUndoable(start, ChangesOf(log)) && PlanOk(s.applied, ids)
    requires TakenBack(s, t, Filter(log, ids, true))
    ensures Explains(start, Filter(log, ids, false), t) && AllUndoable(start, ChangesOf(Filter(log, ids, false)))
  {
    assert Changes(LogOf(log, ids)) == ChangesOf(log);
    PlanMeansNoLaterTouch(log, s.applied, ids);
    UndoIsAsIfNeverMade(start, LogOf(log, ids));
    FilterIsChosen(log, ids, true);
    FilterIsChosen(log, ids, false);
    hide RollbackAll, ApplyAll, InOrder, AllUndoable, Filter, Formed, PlanOk, LogOf, Touched;
    RestrictIsRemoval(log, s.applied, ids);
    FilterInOrder(log, s.applied, ids, false);
    FilterFormed(log, ids);
  }

  // ----- the operations -----

  /** One use of a tool.  `io` says whether the file system does its part, and `saves` whether the record can
      be saved; `sorted` are the applied changes by sequence number, as the library sorts them. */
  datatype Op =
    | ApplyOne(id: Id, change: Change, message: Id, sequence: nat, checkpointId: Id, done: bool)
    | UndoOne(undoId: Id, done: bool)
    | MakeCheckpoint(checkpointId: Id, sorted: seq<Id>)
    | RollBack(target: nat, sorted: seq<Id>, io: Id -> bool)
    | RollBackNamed(target: nat, ids: seq<Id>, io: Id -> bool)
    | UndoReply(target: nat, io: Id -> bool, saves: Id -> bool)

  predicate Sorted(ids: seq<Id>, applied: map<Id, Entry>) {
    (forall id <- ids :: id in applied) && InOrder(PatchesOf(ids, applied), applied)
  }

  /** What the code sees to before the record changes: fresh ids and the next sequence number, well formed
      changes, and the result of the sort. */
  predicate Regular(s: State, op: Op) {
    match op
    case ApplyOne(id, c, _, sequence, _, _) => FreshId(s, id) && IsNext(s, sequence) && Formed(c)
    case MakeCheckpoint(_, sorted) => Sorted(sorted, s.applied)
    case RollBack(_, sorted, _) => Sorted(sorted, s.applied)
    case _ => true
  }

  function TargetIds(s: State, target: nat, sorted: seq<Id>): seq<Id> {
    if target < |s.checkpoints| then s.checkpoints[target].changeIds else sorted
  }

  /** The undo of the reply at `target` goes through. */
  ghost predicate Undoing(s: State, target: nat) {
    target < |s.checkpoints|
    && var patches := PatchesOf(s.checkpoints[target].changeIds, s.applied);
    && patches != [] && (forall p <- patches :: p.0 in s.applied)
    && PlanPasses(patches, s.applied) && Checked(s.files, ChangesOf(patches))
  }

  predicate Applies(s: State, op: Op)
    requires op.ApplyOne?
  {
    op.done && Apply(s.files, op.change).Ok?
  }

  predicate Undoes(s: State, op: Op)
    requires op.UndoOne?
  {
    op.done && op.undoId in s.applied && RollbackOne(s.files, s.applied[op.undoId].change).Ok?
  }

  ghost function Performed(s: State, op: Op): State {
    match op
    case ApplyOne(id, c, message, sequence, checkpointId, _) =>
      if Applies(s, op) then Registered(s.(files := Apply(s.files, c).value), id, c, message, sequence, checkpointId) else s
    case UndoOne(id, _) =>
      if Undoes(s, op) then Unregistered(s, RollbackOne(s.files, s.applied[id].change).value, id) else s
    case MakeCheckpoint(checkpointId, sorted) =>
      if s.applied == map[] then s else s.(checkpoints := s.checkpoints + [Checkpoint(checkpointId, "", sorted, Active)])
    case RollBack(target, sorted, io) => WorkspaceRolledBack(s, target, TargetIds(s, target, sorted), io)
    case RollBackNamed(target, ids, io) => WorkspaceRolledBack(s, target, ids, io)
    case UndoReply(target, io, saves) =>
      if Undoing(s, target) then UndoneList(s, PatchesOf(s.checkpoints[target].changeIds, s.applied), io, saves).0 else s
  }

  ghost function RunOf(s: State, ops: seq<Op>): State
    decreases |ops|
  {
    if ops == [] then s else Performed(RunOf(s, ops[..|ops| - 1]), ops[|ops| - 1])
  }

  ghost predicate AllRegular(s: State, ops: seq<Op>)
    decreases |ops|
  {
    ops == [] || (AllRegular(s, ops[..|ops| - 1]) && Regular(RunOf(s, ops[..|ops| - 1]), ops[|ops| - 1]))
  }

  // ----- statuses over runs -----

  /** The two ways to get a status wrong are not taken: a change does not join a checkpoint that was rolled
      back, and a finished rollback of named changes leaves none of its checkpoint applied. */
  predicate KeepsStatus(s: State, op: Op) {
    match op
    case ApplyOne(_, _, message, _, _, _) =>
      var i := FirstOf(s.checkpoints, message);
      !(Applies(s, op) && i < |s.checkpoints| && s.checkpoints[i].status == RolledBack)
    case RollBackNamed(target, ids, io) =>
      var patches := PatchesOf(ids, s.applied);
      || patches == [] || !Finishes(s.files, patches, io) || target >= |s.checkpoints|
      || forall id <- s.checkpoints[target].changeIds :: id !in s.applied || id in ids
    case _ => true
  }

  lemma {:induction false} UndoKeepsStatus(s: State, patches: seq<(Id, Change)>, io: Id -> bool, saves: Id -> bool)
    requires AllStatusOk(s)
    ensures AllStatusOk(UndoneList(s, patches, io, saves).0)
    decreases |patches|
  {
    hide Rollback, AllStatusOk, UndoneList;
    if patches == [] {
      UndoneNone(s, io, saves);
    } else {
      var (id, c) := patches[|patches| - 1];
      UndoneListStep(s, patches, io, saves);
      if io(id) && Rollback(s.files, c).Ok? {
        BothCountsAgree(s, id);
        UnregisterKeepsStatus(s, Rollback(s.files, c).value, id);
        UndoKeepsStatus(UndoneOne(s, Rollback(s.files, c).value, id), patches[..|patches| - 1], io, saves);
      }
    }
  }

  lemma SortedNonempty(ids: seq<Id>, applied: map<Id, Entry>)
    requires Sorted(ids, applied) && applied != map[]
    ensures ids != []
  {
  }

  /** Each operation keeps every status right exactly when it is not one of the two. */
  lemma KeepsStatusIff(s: State, op: Op)
    requires AllStatusOk(s) && Regular(s, op)
    ensures AllStatusOk(Performed(s, op)) <==> KeepsStatus(s, op)
  {
    hide AllStatusOk, WorkspaceRolledBack, Registered, Unregistered, UndoneList, Apply, RollbackOne, InOrder, Formed, FirstOf, PlanPasses,
      Checked, PatchesOf;
    match op {
      case ApplyOne(id, c, message, sequence, checkpointId, _) =>
        if Applies(s, op) {
          var written := s.(files := Apply(s.files, c).value);
          FilesDoNotMatter(s, written);
          RegisterKeepsStatusIff(written, id, c, message, sequence, checkpointId);
        }
      case UndoOne(id, _) =>
        if Undoes(s, op) {
          UnregisterKeepsStatus(s, RollbackOne(s.files, s.applied[id].change).value, id);
        }
      case MakeCheckpoint(checkpointId, sorted) =>
        if s.applied != map[] {
          SortedNonempty(sorted, s.applied);
          CheckpointKeepsStatus(s, sorted, checkpointId);
        }
      case RollBack(target, sorted, io) => DefaultRollbackKeepsStatus(s, target, sorted, io);
      case RollBackNamed(target, ids, io) => RollbackKeepsStatusIff(s, target, ids, io);
      case UndoReply(target, io, saves) =>
        if Undoing(s, target) {
          UndoKeepsStatus(s, PatchesOf(s.checkpoints[target].changeIds, s.applied), io, saves);
        }
    }
  }

  lemma FilesDoNotMatter(s: State, t: State)
    requires AllStatusOk(s) && t.applied == s.applied && t.checkpoints == s.checkpoints
    ensures AllStatusOk(t)
  {
  }

  ghost predicate AllKeepStatus(s: State, ops: seq<Op>)
    decreases |ops|
  {
    ops == [] || (AllKeepStatus(s, ops[..|ops| - 1]) && KeepsStatus(RunOf(s, ops[..|ops| - 1]), ops[|ops| - 1]))
  }

  ghost predicate AlwaysRight(s: State, ops: seq<Op>)
    decreases |ops|
  {
    AllStatusOk(RunOf(s, ops)) && (ops == [] || AlwaysRight(s, ops[..|ops| - 1]))
  }

  /** Over every run: each checkpoint is at all times active when all of its changes are applied, partial when
      some are and rolled back when none is, exactly when no operation is one of the two. */
  lemma {:induction false} StatusesStayRightIff(s: State, ops: seq<Op>)
    requires AllStatusOk(s) && AllRegular(s, ops)
    ensures AlwaysRight(s, ops) <==> AllKeepStatus(s, ops)
    decreases |ops|
  {
    hide AllStatusOk, Performed, KeepsStatus, Regular;
    if ops != [] {
      var n := |ops| - 1;
      StatusesStayRightIff(s, ops[..n]);
      if AlwaysRight(s, ops[..n]) {
        KeepsStatusIff(RunOf(s, ops[..n]), ops[n]);
      }
    }
  }

  // ----- the record over runs -----

  function AsCheckpoint(ids: seq<Id>): Checkpoint {
    Checkpoint("", "", ids, Active)
  }

  /** What the code does not see to: an applied change can be taken back, and a rollback, unlike the undo of
      a reply, is not checked against later changes of the same files, nor named changes against their order. */
  predicate KeepsRecord(s: State, op: Op) {
    match op
    case ApplyOne(_, c, _, _, _, _) => Applies(s, op) ==> Undoable(s.files, c)
    case UndoOne(id, _) => Undoes(s, op) ==> PlanOk(s.applied, {id})
    case RollBack(target, sorted, _) => PlanOk(s.applied, Elements(TargetIds(s, target, sorted)))
    case RollBackNamed(_, ids, _) => ListsInOrder(AsCheckpoint(ids), s.applied) && PlanOk(s.applied, Elements(ids))
    case _ => true
  }

  lemma StatusDoesNotMatter(start: Files, log: seq<(Id, Change)>, t: State, u: State)
    requires RecordOk(start, log, t) && u.files == t.files && u.applied == t.applied && OnlyStatusDiffers(t.checkpoints, u.checkpoints)
    ensures RecordOk(start, log, u)
  {
    hide InOrder, AllUndoable, ApplyAll, PatchesOf, Restrict;
    forall i | 0 <= i < |u.checkpoints| ensures ListsInOrder(u.checkpoints[i], u.applied) {
      assert ListsInOrder(t.checkpoints[i], t.applied);
    }
  }

  lemma SortedFollowsHistory(ids: seq<Id>, applied: map<Id, Entry>)
    requires Sorted(ids, applied)
    ensures ListsInOrder(AsCheckpoint(ids), applied) && forall id <- applied :: id in ids
  {
    hide InOrder;
    PatchesAreApplied(ids, applied);
    forall id <- applied ensures id in ids {
      var i := IndexOf(PatchesOf(ids, applied), applied, id);
      assert PatchesOf(ids, applied)[i] in PatchesOf(ids, applied);
    }
    assert Restrict(applied, Elements(ids), true) == applied;
  }

  lemma ListsOnlyIds(c: Checkpoint, d: Checkpoint, applied: map<Id, Entry>)
    requires ListsInOrder(c, applied) && c.changeIds == d.changeIds
    ensures ListsInOrder(d, applied)
  {
  }

  lemma ListKeepsRecord(start: Files, log: seq<(Id, Change)>, s: State, t: State, ids: seq<Id>, k: nat)
    returns (rest: seq<(Id, Change)>)
    requires RecordOk(start, log, s) && ListsInOrder(AsCheckpoint(ids), s.applied) && PlanOk(s.applied, Elements(ids))
    requires var patches := PatchesOf(ids, s.applied); k <= |patches| && TakenBack(s, t, patches[|patches| - k..])
    ensures RecordOk(start, rest, t)
    ensures k == |PatchesOf(ids, s.applied)| ==> rest == Filter(log, Elements(ids), false)
  {
    hide RecordOk, TakenBack, PlanOk, PatchesOf, Filter, InOrder, ListsInOrder, IdsOf;
    RecordInOrder(start, log, s);
    CheckpointFollowsHistory(log, AsCheckpoint(ids), s.applied);
    TakingBackKeepsRecord(start, log, s, t, Elements(ids), k);
    var all := Filter(log, Elements(ids), true);
    rest := Filter(log, IdsOf(all[|all| - k..]), false);
    if k == |all| {
      assert all[0..] == all;
      FilterByAll(log, s.applied, Elements(ids));
    }
  }

  lemma RecordInOrder(start: Files, log: seq<(Id, Change)>, s: State)
    requires RecordOk(start, log, s)
    ensures InOrder(log, s.applied)
  {
  }

  /** Leaving out what was chosen is leaving out all that was named. */
  lemma FilterByAll(log: seq<(Id, Change)>, applied: map<Id, Entry>, ids: set<Id>)
    requires InOrder(log, applied)
    ensures Filter(log, IdsOf(Filter(log, ids, true)), false) == Filter(log, ids, false)
  {
    var all := IdsOf(Filter(log, ids, true));
    forall p <- log ensures p.0 in all <==> p.0 in ids {
      NamesApplied(log, applied, p);
      FilterIds(log, applied, ids, p.0);
    }
    SameFilter(log, all, ids);
  }

  lemma {:induction false} SameFilter(log: seq<(Id, Change)>, a: set<Id>, b: set<Id>)
    requires forall p <- log :: p.0 in a <==> p.0 in b
    ensures Filter(log, a, false) == Filter(log, b, false)
  {
    if log != [] {
      assert log == log[..|log| - 1] + [log[|log| - 1]];
      SameFilter(log[..|log| - 1], a, b);
    }
  }

  lemma RollbackKeepsRecord(start: Files, log: seq<(Id, Change)>, s: State, target: nat, ids: seq<Id>, io: Id -> bool)
    returns (rest: seq<(Id, Change)>)
    requires RecordOk(start, log, s) && ListsInOrder(AsCheckpoint(ids), s.applied) && PlanOk(s.applied, Elements(ids))
    ensures RecordOk(start, rest, WorkspaceRolledBack(s, target, ids, io))
  {
    hide RecordOk, TakenBack, PlanOk, PatchesOf, ListsInOrder, RolledBackList;
    var patches := PatchesOf(ids, s.applied);
    var (t, count) := RolledBackList(s, patches, io);
    RollbackTakesNewest(s, patches, io);
    rest := ListKeepsRecord(start, log, s, t, ids, count);
    StatusDoesNotMatter(start, rest, t, Finished(t, target));
    if patches == [] {
      rest := log;
    }
  }

  lemma RegisterKeepsRecord(start: Files, log: seq<(Id, Change)>, s: State, id: Id, c: Change, message: Id, sequence: nat,
          checkpointId: Id)
    requires RecordOk(start, log, s) && FreshId(s, id) && IsNext(s, sequence) && Formed(c)
    requires Apply(s.files, c).Ok? && Undoable(s.files, c)
    ensures RecordOk(start, log + [(id, c)], Registered(s.(files := Apply(s.files, c).value), id, c, message, sequence, checkpointId))
  {
    hide Explains, Apply, Undoable, AllUndoable, Formed, Joined, ListsInOrder;
    RegisterExplained(start, log, s, id, c, message, sequence, checkpointId);
    ExtendsUndoable(start, log, s, id, c);
    JoinedKeepsOrder(s.checkpoints, s.applied, id, Entry(c, sequence), message, checkpointId);
  }

  lemma ExtendsUndoable(start: Files, log: seq<(Id, Change)>, s: State, id: Id, c: Change)
    requires Explains(start, log, s) && AllUndoable(start, ChangesOf(log)) && Apply(s.files, c).Ok? && Undoable(s.files, c)
    ensures ApplyAll(start, ChangesOf(log + [(id, c)])).Ok? && AllUndoable(start, ChangesOf(log + [(id, c)]))
  {
    hide Apply, Undoable, AllUndoable, InOrder, ApplyAll;
    assert ChangesOf(log + [(id, c)]) == ChangesOf(log) + [c];
    ApplyAllThen(start, ChangesOf(log), c);
    AllUndoableThen(start, ChangesOf(log), c);
  }

  lemma JoinedKeepsOrder(cs: seq<Checkpoint>, applied: map<Id, Entry>, id: Id, e: Entry, message: Id, checkpointId: Id)
    requires forall d <- cs :: ListsInOrder(d, applied) && id !in d.changeIds
    requires forall x <- applied :: applied[x].sequence < e.sequence
    ensures forall d <- Joined(cs, id, message, checkpointId) :: ListsInOrder(d, applied[id := e])
  {
    hide ListsInOrder;
    var i := FirstOf(cs, message);
    forall d | d in Joined(cs, id, message, checkpointId) ensures ListsInOrder(d, applied[id := e]) {
      if d in cs {
        RegisterKeepsOrder(d, applied, id, e);
      } else if i < |cs| {
        RegisterKeepsOrder(cs[i], applied, id, e);
      } else {
        var none := Checkpoint(checkpointId, message, [], Active);
        NoneInOrder(none, applied);
        RegisterKeepsOrder(none, applied, id, e);
        assert none.(changeIds := [] + [id]) == d;
      }
    }
  }

  lemma NoneInOrder(none: Checkpoint, applied: map<Id, Entry>)
    requires none.changeIds == []
    ensures ListsInOrder(none, applied)
  {
    assert Restrict(applied, Elements([]), true) == map[];
  }

  lemma UndoOneKeepsRecord(start: Files, log: seq<(Id, Change)>, s: State, id: Id) returns (rest: seq<(Id, Change)>)
    requires RecordOk(start, log, s) && id in s.applied && PlanOk(s.applied, {id})
    requires RollbackOne(s.files, s.applied[id].change).Ok?
    ensures RecordOk(start, rest, Unregistered(s, RollbackOne(s.files, s.applied[id].change).value, id))
    ensures rest == Filter(log, {id}, false)
  {
    var c := s.applied[id].change;
    var u := Unregistered(s, RollbackOne(s.files, c).value, id);
    var k := IndexOf(log, s.applied, id);
    assert Formed(c) by {
      InOrderAt(log, s.applied, k, k);
      assert ChangesOf(log)[k] == c;
    }
    RollbackOneIff(s.files, c);
    OneInOrder(s.applied, id);
    hide RecordOk, PlanOk, Rollback, RollbackOne, Marked, PatchesOf, ListsInOrder, TakenBack, Formed;
    RecountKeepsRest(s.checkpoints, u.applied, id);
    NothingTakenBack(u);
    TakenBackThen(s, u, u, id, c, []);
    assert [] + [(id, c)] == [(id, c)] == [(id, c)][0..];
    assert Elements([id]) == {id};
    rest := ListKeepsRecord(start, log, s, u, [id], 1);
  }

  lemma OneInOrder(applied: map<Id, Entry>, id: Id)
    requires id in applied
    ensures PatchesOf([id], applied) == [(id, applied[id].change)] && ListsInOrder(AsCheckpoint([id]), applied)
  {
    assert Restrict(applied, Elements([id]), true) == map[id := applied[id]];
    assert PatchesOf([id], applied) == [(id, applied[id].change)] by {
      assert [id][..0] == [];
    }
    var mine: map<Id, Entry> := map[id := applied[id]];
    assert mine - {id} == map[];
    assert [(id, applied[id].change)][..0] == [];
  }

  /** Undoing a reply needs nothing seen to: its plan is the condition. */
  lemma UndoReplyKeepsRecord(start: Files, log: seq<(Id, Change)>, s: State, target: nat, io: Id -> bool, saves: Id -> bool)
    returns (rest: seq<(Id, Change)>)
    requires RecordOk(start, log, s) && Undoing(s, target)
    ensures RecordOk(start, rest, UndoneList(s, PatchesOf(s.checkpoints[target].changeIds, s.applied), io, saves).0)
    ensures UndoneList(s, PatchesOf(s.checkpoints[target].changeIds, s.applied), io, saves).1 ==
            |PatchesOf(s.checkpoints[target].changeIds, s.applied)| ==>
              rest == Filter(log, Elements(s.checkpoints[target].changeIds), false)
  {
    hide Explains, AllUndoable, InOrder, PatchesOf, PlanPasses, Checked, ListsInOrder, UndoneList;
    var ids := s.checkpoints[target].changeIds;
    var patches := PatchesOf(ids, s.applied);
    TargetInOrder(start, log, s, target, []);
    hide UndoneList, RecordOk, PlanPasses, PlanOk, PatchesOf, Checked, TakenBack, InOrder, ListsInOrder, Explains, AllUndoable;
    RecordInOrder(start, log, s);
    PlanPassesIff(log, s.applied, ids);
    UndoTakesNewest(s, patches, io, saves);
    var (t, count) := UndoneList(s, patches, io, saves);
    rest := ListKeepsRecord(start, log, s, t, ids, count);
  }

  lemma StepKeepsRecord(start: Files, log: seq<(Id, Change)>, s: State, op: Op) returns (rest: seq<(Id, Change)>)
    requires RecordOk(start, log, s) && Regular(s, op) && KeepsRecord(s, op)
    ensures RecordOk(start, rest, Performed(s, op))
  {
    hide RecordOk, WorkspaceRolledBack, Registered, Unregistered, UndoneList, Apply, RollbackOne, InOrder, Formed, Undoing,
      FirstOf, PlanOk, Undoable, ListsInOrder, PatchesOf;
    rest := log;
    match op {
      case ApplyOne(id, c, message, sequence, checkpointId, _) =>
        if Applies(s, op) {
          RegisterKeepsRecord(start, log, s, id, c, message, sequence, checkpointId);
          rest := log + [(id, c)];
        }
      case UndoOne(id, _) =>
        if Undoes(s, op) {
          rest := UndoOneKeepsRecord(start, log, s, id);
        }
      case MakeCheckpoint(checkpointId, sorted) =>
        SortedFollowsHistory(sorted, s.applied);
        CheckpointKeepsRecord(start, log, s, Checkpoint(checkpointId, "", sorted, Active));
      case RollBack(target, sorted, io) =>
        SortedFollowsHistory(sorted, s.applied);
        TargetInOrder(start, log, s, target, sorted);
        rest := RollbackKeepsRecord(start, log, s, target, TargetIds(s, target, sorted), io);
      case RollBackNamed(target, ids, io) => rest := RollbackKeepsRecord(start, log, s, target, ids, io);
      case UndoReply(target, io, saves) =>
        if Undoing(s, target) {
          rest := UndoReplyKeepsRecord(start, log, s, target, io, saves);
        }
    }
  }

  lemma CheckpointKeepsRecord(start: Files, log: seq<(Id, Change)>, s: State, c: Checkpoint)
    requires RecordOk(start, log, s) && ListsInOrder(AsCheckpoint(c.changeIds), s.applied)
    ensures RecordOk(start, log, s.(checkpoints := s.checkpoints + [c]))
  {
    ListsOnlyIds(AsCheckpoint(c.changeIds), c, s.applied);
    hide ListsInOrder, InOrder, ApplyAll, AllUndoable;
  }

  lemma TargetInOrder(start: Files, log: seq<(Id, Change)>, s: State, target: nat, sorted: seq<Id>)
    requires RecordOk(start, log, s) && (target < |s.checkpoints| || ListsInOrder(AsCheckpoint(sorted), s.applied))
    ensures ListsInOrder(AsCheckpoint(TargetIds(s, target, sorted)), s.applied)
  {
    if target < |s.checkpoints| {
      ListsOnlyIds(s.checkpoints[target], AsCheckpoint(s.checkpoints[target].changeIds), s.applied);
    }
  }

  ghost predicate AllKeepRecord(s: State, ops: seq<Op>)
    decreases |ops|
  {
    ops == [] || (AllKeepRecord(s, ops[..|ops| - 1]) && KeepsRecord(RunOf(s, ops[..|ops| - 1]), ops[|ops| - 1]))
  }

  /** Over every run from an empty record: the applied changes, oldest first, make the files out of those at
      the start, and every checkpoint lists its changes in that order. */
  lemma {:induction false} RecordStaysOk(start: Files, ops: seq<Op>) returns (log: seq<(Id, Change)>)
    requires AllRegular(State(start, map[], 0, []), ops) && AllKeepRecord(State(start, map[], 0, []), ops)
    ensures RecordOk(start, log, RunOf(State(start, map[], 0, []), ops))
    decreases |ops|
  {
    if ops == [] {
      log := [];
    } else {
      hide RecordOk, Performed, KeepsRecord, Regular;
      log := RecordStaysOk(start, ops[..|ops| - 1]);
      log := StepKeepsRecord(start, log, RunOf(State(start, map[], 0, []), ops[..|ops| - 1]), ops[|ops| - 1]);
    }
  }

  // ----- an undo after any run -----

  /** Rollbacks that succeed have read every file they touch. */
  lemma {:induction false} RollbacksRead(files: Files, cs: seq<Change>, p: Path)
    requires RollbackAll(files, cs).Ok? && p in TouchedByAll(cs)
    ensures ReadVersion(files, p).Ok?
    decreases |cs|
  {
    hide Touched, TouchedByAll, Rollback, ReadVersion;
    TouchedByNone(cs, p);
    var n := |cs| - 1;
    if p in Touched(cs[n]) {
      RollbackReads(files, cs[n], p);
    } else {
      TouchedByLast(cs);
      RollbackIsLocal(files, files, cs[n]);
      RollbacksRead(Rollback(files, cs[n]).value, cs[..n], p);
      ReadsTheSame(files, Rollback(files, cs[n]).value, p);
    }
  }

  lemma RollbackReads(files: Files, c: Change, p: Path)
    requires Rollback(files, c).Ok? && p in Touched(c)
    ensures ReadVersion(files, p).Ok?
  {
  }

  lemma ReadsTheSame(f: Files, g: Files, p: Path)
    requires Same(f, g, p)
    ensures ReadVersion(f, p) == ReadVersion(g, p)
  {
  }

  lemma ReadDescribes(files: Files, paths: set<Path>) returns (versions: Versions)
    requires forall p <- paths :: ReadVersion(files, p).Ok?
    ensures versions.Keys == paths && Describes(versions, files)
  {
    versions := map p | p in paths :: Version(files, p);
    assert Readable([]);
  }

  /** A change that can be taken back where it was applied rewrites no line ends. */
  lemma {:induction false} UndoableRewritesNothing(files: Files, cs: seq<Change>)
    requires ApplyAll(files, cs).Ok? && AllUndoable(files, cs) && AllFormed(cs)
    ensures forall c <- cs :: !Rewrites(c)
  {
    hide Apply, SameStyle;
    if cs != [] {
      assert cs == cs[..|cs| - 1] + [cs[|cs| - 1]];
      UndoableRewritesNothing(files, cs[..|cs| - 1]);
    }
  }

  lemma {:induction false} FilterSubset(log: seq<(Id, Change)>, ids: set<Id>, selected: bool)
    ensures forall p <- Filter(log, ids, selected) :: p in log
  {
    if log != [] {
      assert log == log[..|log| - 1] + [log[|log| - 1]];
      FilterSubset(log[..|log| - 1], ids, selected);
    }
  }

  lemma ChangesSubset(part: seq<(Id, Change)>, log: seq<(Id, Change)>)
    requires forall p <- part :: p in log
    ensures forall c <- ChangesOf(part) :: c in ChangesOf(log)
  {
    forall c <- ChangesOf(part) ensures c in ChangesOf(log) {
      var i :| 0 <= i < |part| && ChangesOf(part)[i] == c;
      assert part[i] in log;
      var j :| 0 <= j < |log| && log[j] == part[i];
      assert ChangesOf(log)[j] == c;
    }
  }

  lemma RollbackPassesCheck(files: Files, cs: seq<Change>)
    requires AllFormed(cs) && BeforesReadable(cs) && (forall c <- cs :: !Rewrites(c)) && RollbackAll(files, cs).Ok?
    ensures Checked(files, cs)
  {
    hide RollbackAll, Rewrites, AllFormed, BeforesReadable, TouchedByAll, Describes, ReverseAll, ReadVersion;
    forall p <- TouchedByAll(cs) ensures ReadVersion(files, p).Ok? {
      RollbacksRead(files, cs, p);
    }
    var versions := ReadDescribes(files, TouchedByAll(cs));
    CheckForetells(versions, files, cs);
  }

  lemma ReplyPassesCheck(start: Files, log: seq<(Id, Change)>, s: State, target: nat)
    requires RecordOk(start, log, s) && target < |s.checkpoints|
    requires (forall p <- PatchesOf(s.checkpoints[target].changeIds, s.applied) :: p.0 in s.applied)
    requires PlanPasses(PatchesOf(s.checkpoints[target].changeIds, s.applied), s.applied)
    ensures var cs := ChangesOf(PatchesOf(s.checkpoints[target].changeIds, s.applied));
            RollbackAll(s.files, cs).Ok? && Checked(s.files, cs)
  {
    var ids := s.checkpoints[target].changeIds;
    assert ListsInOrder(s.checkpoints[target], s.applied);
    CheckpointFollowsHistory(log, s.checkpoints[target], s.applied);
    PlanPassesIff(log, s.applied, ids);
    hide PatchesOf, PlanPasses, PlanOk, InOrder, ListsInOrder, RollbackAll, ApplyAll, AllUndoable, Checked, Filter, Rewrites, Formed, Readable,
      LogOf, Touched;
    var chosen := Elements(ids);
    assert Changes(LogOf(log, chosen)) == ChangesOf(log) by {
      LogChanges(log, chosen);
    }
    PlanMeansNoLaterTouch(log, s.applied, chosen);
    UndoIsAsIfNeverMade(start, LogOf(log, chosen));
    FilterIsChosen(log, chosen, true);
    UndoableRewritesNothing(start, ChangesOf(log));
    AppliedBeforesReadable(start, ChangesOf(log));
    FilterSubset(log, chosen, true);
    ChangesSubset(Filter(log, chosen, true), log);
    RollbackPassesCheck(s.files, ChangesOf(Filter(log, chosen, true)));
  }

  lemma LogChanges(log: seq<(Id, Change)>, ids: set<Id>)
    ensures Changes(LogOf(log, ids)) == ChangesOf(log)
  {
  }

  /** After any such run, undoing a reply whose plan passes also passes the check of the files, takes back all
      of its changes unless the file system or the saving fails, and leaves files and record as the other
      changes alone would have made them. */
  lemma UndoAfterAnyRun(start: Files, ops: seq<Op>, target: nat, io: Id -> bool, saves: Id -> bool)
    returns (log: seq<(Id, Change)>)
    requires AllRegular(State(start, map[], 0, []), ops) && AllKeepRecord(State(start, map[], 0, []), ops)
    requires var s := RunOf(State(start, map[], 0, []), ops);
             && target < |s.checkpoints|
             && var patches := PatchesOf(s.checkpoints[target].changeIds, s.applied);
             patches != [] && (forall p <- patches :: p.0 in s.applied) && PlanPasses(patches, s.applied)
    requires (forall id :: io(id)) && forall id :: saves(id)
    ensures var s := RunOf(State(start, map[], 0, []), ops);
            var ids := s.checkpoints[target].changeIds;
            var (t, count) := UndoneList(s, PatchesOf(ids, s.applied), io, saves);
            && RecordOk(start, log, s) && Undoing(s, target) && count == |PatchesOf(ids, s.applied)|
            && RecordOk(start, Filter(log, Elements(ids), false), t)
  {
    hide RecordOk, Performed, KeepsRecord, Regular, PatchesOf, PlanPasses, UndoneList, RunOf, AllRegular, AllKeepRecord, Checked, RollbackAll, Filter;
    log := RecordStaysOk(start, ops);
    var s := RunOf(State(start, map[], 0, []), ops);
    var patches := PatchesOf(s.checkpoints[target].changeIds, s.applied);
    ReplyPassesCheck(start, log, s, target);
    UndoneFiles(s, patches, io, saves);
    var rest := UndoReplyKeepsRecord(start, log, s, target, io, saves);
  }

  // ----- one change taken back from under later ones -----

  /** The change makes a difference to each path it touches. */
  predicate Alters(c: Change) {
    c.action.Rename? || c.before != c.after
  }

  lemma {:induction false} ApplyAllConcat(files: Files, a: seq<Change>, b: seq<Change>)
    ensures ApplyAll(files, a + b).Ok? ==> ApplyAll(files, a).Ok?
    ensures ApplyAll(files, a).Ok? ==> ApplyAll(files, a + b) == ApplyAll(ApplyAll(files, a).value, b)
    decreases |b|
  {
    hide Apply;
    if b == [] {
      assert a + b == a;
    } else {
      var n := |b| - 1;
      assert (a + b)[..|a + b| - 1] == a + b[..n];
      ApplyAllConcat(files, a, b[..n]);
    }
  }

  /** Where two histories of the same changes agree they go on agreeing, and they agree on every path that a
      change has touched since. */
  lemma AgreementSpreads(f: Files, g: Files, q: Change)
    requires Apply(f, q).Ok? && Apply(g, q).Ok?
    ensures forall p :: Same(f, g, p) || p in Touched(q) ==> Same(Apply(f, q).value, Apply(g, q).value, p)
  {
    hide ToCrlf, HasCrlf, Readable;
    if BackedUp(f, q).Ok? {
      BackupChangesNothing(f, q);
    }
    if BackedUp(g, q).Ok? {
      BackupChangesNothing(g, q);
    }
  }

  lemma {:induction false} AgreementStays(f: Files, g: Files, cs: seq<Change>, p: Path)
    requires ApplyAll(f, cs).Ok? && ApplyAll(g, cs).Ok?
    requires Same(f, g, p) || p in TouchedByAll(cs)
    ensures Same(ApplyAll(f, cs).value, ApplyAll(g, cs).value, p)
    decreases |cs|
  {
    hide Apply, Touched, TouchedByAll;
    TouchedByNone(cs, p);
    if cs != [] {
      var n := |cs| - 1;
      TouchedByLast(cs);
      AgreementSpreads(ApplyAll(f, cs[..n]).value, ApplyAll(g, cs[..n]).value, cs[n]);
      if p !in Touched(cs[n]) {
        AgreementStays(f, g, cs[..n], p);
      }
    }
  }

  /** Taking a change back succeeds only on what it left, and gives back what it found. */
  lemma FoundAndGivenBack(f: Files, c: Change, s: Files)
    requires Formed(c) && Apply(f, c).Ok? && Undoable(f, c) && Rollback(s, c).Ok?
    ensures forall p <- Touched(c) :: Same(s, Apply(f, c).value, p) && Same(Rollback(s, c).value, f, p)
    ensures Alters(c) ==> forall p <- Touched(c) :: !Same(f, Apply(f, c).value, p)
  {
    hide ToCrlf, HasCrlf, Readable, SameStyle;
    StoredIff(c.before, Text(c.after));
    if c.before.Some? {
      StoredIff(c.after, c.before.value);
    }
    if BackedUp(f, c).Ok? {
      BackupChangesNothing(f, c);
    }
  }

  lemma LaterTouchShows(f: Files, c: Change, later: seq<Change>, s: Files, t: Files, p: Path)
    requires Formed(c) && Alters(c) && Apply(f, c).Ok? && Undoable(f, c)
    requires ApplyAll(Apply(f, c).value, later) == Ok(s) && Rollback(s, c) == Ok(t) && ApplyAll(f, later) == Ok(t)
    requires p in Touched(c)
    ensures p !in TouchedByAll(later)
  {
    hide Apply, Rollback, Touched, TouchedByAll, ApplyAll, Undoable, Formed, Alters;
    FoundAndGivenBack(f, c, s);
    if p in TouchedByAll(later) {
      AgreementStays(Apply(f, c).value, f, later, p);
    }
  }

  lemma {:induction false} FilterOut(log: seq<(Id, Change)>, applied: map<Id, Entry>, k: nat)
    requires InOrder(log, applied) && k < |log|
    ensures Filter(log, {log[k].0}, false) == log[..k] + log[k + 1..]
    decreases |log|
  {
    var n := |log| - 1;
    if k == n {
      forall p <- log[..n] ensures p.0 != log[n].0 {
        NamesApplied(log[..n], applied - {log[n].0}, p);
      }
      KeepAll(log[..n], {log[n].0});
    } else {
      InOrderAt(log, applied, k, n);
      FilterOut(log[..n], applied - {log[n].0}, k);
      assert log[..n][k + 1..] + [log[n]] == log[k + 1..];
      assert log[..n][..k] == log[..k];
    }
  }

  lemma {:induction false} KeepAll(log: seq<(Id, Change)>, ids: set<Id>)
    requires forall p <- log :: p.0 !in ids
    ensures Filter(log, ids, false) == log
  {
    if log != [] {
      assert log == log[..|log| - 1] + [log[|log| - 1]];
      KeepAll(log[..|log| - 1], ids);
    }
  }

  lemma {:induction false} UndoableAt(files: Files, a: seq<Change>, c: Change, b: seq<Change>)
    requires ApplyAll(files, a + [c] + b).Ok? && AllUndoable(files, a + [c] + b)
    ensures ApplyAll(files, a).Ok? && Apply(ApplyAll(files, a).value, c).Ok? && Undoable(ApplyAll(files, a).value, c)
    ensures ApplyAll(Apply(ApplyAll(files, a).value, c).value, b) == ApplyAll(files, a + [c] + b)
    decreases |b|
  {
    hide Apply, Undoable;
    ApplyAllConcat(files, a + [c], b);
    ApplyAllThen(files, a, c);
    if b == [] {
      assert a + [c] + b == a + [c];
      AllUndoableThen(files, a, c);
    } else {
      var n := |b| - 1;
      assert a + [c] + b == (a + [c] + b[..n]) + [b[n]];
      AllUndoableThen(files, a + [c] + b[..n], b[n]);
      UndoableAt(files, a, c, b[..n]);
    }
  }

  /** A change taken back alone leaves a record that explains the files exactly when no later change that stays
      touches a path of it.  The code does not look for one. */
  lemma UndoneOneExplainedIff(start: Files, log: seq<(Id, Change)>, s: State, id: Id)
    requires RecordOk(start, log, s) && id in s.applied && Alters(s.applied[id].change)
    requires RollbackOne(s.files, s.applied[id].change).Ok?
    ensures Explains(start, Filter(log, {id}, false), Unregistered(s, RollbackOne(s.files, s.applied[id].change).value, id)) <==>
            PlanOk(s.applied, {id})
  {
    var c := s.applied[id].change;
    var t := Unregistered(s, RollbackOne(s.files, c).value, id);
    hide Rollback, RollbackOne, Marked, Apply, ApplyAll, AllUndoable, Undoable, Formed, Touched, InOrder, PlanOk, Filter, ListsInOrder, Alters;
    if PlanOk(s.applied, {id}) {
      var rest := UndoOneKeepsRecord(start, log, s, id);
    } else if Explains(start, Filter(log, {id}, false), t) {
      var k := IndexOf(log, s.applied, id);
      InOrderAt(log, s.applied, k, k);
      FilterOut(log, s.applied, k);
      OneExplainedMeansPlan(start, log, s, k, RollbackOne(s.files, c).value);
    }
  }

  lemma ChangesAround(log: seq<(Id, Change)>, k: nat)
    requires k < |log|
    ensures ChangesOf(log) == ChangesOf(log[..k]) + [log[k].1] + ChangesOf(log[k + 1..])
    ensures ChangesOf(log[..k] + log[k + 1..]) == ChangesOf(log[..k]) + ChangesOf(log[k + 1..])
    ensures log[k].1 in ChangesOf(log)
  {
    var a, p, b := log[..k], [log[k]], log[k + 1..];
    assert log == a + p + b;
    hide *;
    ChangesOfConcat(a, p);
    ChangesOfConcat(a + p, b);
    ChangesOfConcat(a, b);
    ChangesOfOne(log[k]);
    InConcat(ChangesOf(a), log[k].1, ChangesOf(b));
  }

  lemma ChangesOfConcat(a: seq<(Id, Change)>, b: seq<(Id, Change)>)
    ensures ChangesOf(a + b) == ChangesOf(a) + ChangesOf(b)
  {
  }

  lemma ChangesOfOne(p: (Id, Change))
    ensures ChangesOf([p]) == [p.1]
  {
  }

  lemma InConcat<T>(a: seq<T>, x: T, b: seq<T>)
    ensures x in a + [x] + b
  {
    assert (a + [x] + b)[|a|] == x;
  }

  lemma OneExplainedMeansPlan(start: Files, log: seq<(Id, Change)>, s: State, k: nat, files: Files)
    requires Explains(start, log, s) && AllUndoable(start, ChangesOf(log)) && k < |log| && Alters(log[k].1)
    requires RollbackOne(s.files, log[k].1) == Ok(files)
    requires ApplyAll(start, ChangesOf(log[..k] + log[k + 1..])) == Ok(files)
    ensures PlanOk(s.applied, {log[k].0})
  {
    hide Rollback, RollbackOne, Apply, ApplyAll, AllUndoable, Undoable, Formed, Touched, InOrder, TouchedByAll, Alters;
    var a, c, b := ChangesOf(log[..k]), log[k].1, ChangesOf(log[k + 1..]);
    ChangesAround(log, k);
    RollbackOneIff(s.files, c);
    UndoableAt(start, a, c, b);
    ApplyAllConcat(start, a, b);
    forall p, q | p in s.applied && p in {log[k].0} && q in s.applied && q !in {log[k].0} && s.applied[p].sequence < s.applied[q].sequence
      ensures Touched(s.applied[p].change) !! Touched(s.applied[q].change)
    {
      var j := IndexOf(log, s.applied, q);
      if j < k {
        InOrderAt(log, s.applied, j, k);
      } else {
        InOrderAt(log, s.applied, k, j);
        assert b[j - k - 1] == log[j].1;
        forall x <- Touched(c) ensures x !in Touched(log[j].1) {
          LaterTouchShows(ApplyAll(start, a).value, c, b, s.files, files, x);
          TouchedByNone(b, x);
        }
      }
    }
  }

  // ----- sequence numbers -----

  lemma {:induction false} UndoneListNumbers(s: State, patches: seq<(Id, Change)>, io: Id -> bool, saves: Id -> bool)
    ensures UndoneList(s, patches, io, saves).0.next == s.next
    decreases |patches|
  {
    hide Rollback, AllRecounted;
    if patches != [] {
      var (id, c) := patches[|patches| - 1];
      var files := Rollback(s.files, c);
      if io(id) && files.Ok? && saves(id) {
        UndoneListNumbers(UndoneOne(s, files.value, id), patches[..|patches| - 1], io, saves);
      }
    }
  }

  /** A change made gets a number above all before it, and no operation goes back behind one. */
  lemma NumbersGoUp(s: State, op: Op)
    requires Regular(s, op)
    ensures if op.ApplyOne? && Applies(s, op) then s.next < op.sequence == Performed(s, op).next
            else s.next == Performed(s, op).next
  {
    hide Apply, Rollback, RollbackOne, RolledBackList, UndoneList, Joined, Marked, PatchesOf;
    match op
    case RollBack(target, sorted, io) => RollbackListRemoves(s, PatchesOf(TargetIds(s, target, sorted), s.applied), io);
    case RollBackNamed(_, ids, io) => RollbackListRemoves(s, PatchesOf(ids, s.applied), io);
    case UndoReply(target, io, saves) =>
      if Undoing(s, target) {
        UndoneListNumbers(s, PatchesOf(s.checkpoints[target].changeIds, s.applied), io, saves);
      }
    case _ =>
  }

  /** The change of this operation is made. */
  ghost predicate MadeAt(s: State, ops: seq<Op>, i: nat) {
    i < |ops| && ops[i].ApplyOne? && Applies(RunOf(s, ops[..i]), ops[i])
  }

  lemma {:induction false} NumbersSoFar(s: State, ops: seq<Op>, i: nat)
    requires AllRegular(s, ops) && MadeAt(s, ops, i)
    ensures ops[i].sequence <= RunOf(s, ops).next
    decreases |ops|
  {
    hide Regular, Performed, Applies;
    var n := |ops| - 1;
    NumbersGoUp(RunOf(s, ops[..n]), ops[n]);
    if i < n {
      assert ops[..n][..i] == ops[..i];
      NumbersSoFar(s, ops[..n], i);
    }
  }

  lemma {:induction false} RegularBefore(s: State, ops: seq<Op>, j: nat)
    requires AllRegular(s, ops) && j < |ops|
    ensures AllRegular(s, ops[..j]) && Regular(RunOf(s, ops[..j]), ops[j])
    decreases |ops|
  {
    hide Regular, RunOf;
    var n := |ops| - 1;
    if j < n {
      RegularBefore(s, ops[..n], j);
      assert ops[..n][..j] == ops[..j];
    }
  }

  /** In every run a change made later has the larger number, whatever has been taken back between them. */
  lemma NumbersNeverReused(s: State, ops: seq<Op>, i: nat, j: nat)
    requires AllRegular(s, ops) && i < j && MadeAt(s, ops, i) && MadeAt(s, ops, j)
    ensures ops[i].sequence < ops[j].sequence
  {
    hide RunOf, AllRegular, Regular, Performed, Applies;
    RegularBefore(s, ops, j);
    assert ops[..j][..i] == ops[..i];
    NumbersSoFar(s, ops[..j], i);
    NumbersGoUp(RunOf(s, ops[..j]), ops[j]);
  }

  // ----- the two ways to get a status wrong -----

  const EMPTY_RECORD := State(map[], map[], 0, [])

  lemma RunThen(s: State, ops: seq<Op>, op: Op)
    ensures RunOf(s, ops + [op]) == Performed(RunOf(s, ops), op)
    ensures AllRegular(s, ops + [op]) == (AllRegular(s, ops) && Regular(RunOf(s, ops), op))
  {
    assert (ops + [op])[..|ops|] == ops;
  }

  function Making(path: Path): Change {
    Change(path, Create, None, Some([97]))
  }

  lemma MakingWorks(files: Files, path: Path)
    requires path !in files
    ensures Formed(Making(path)) && Apply(files, Making(path)) == Ok(files[path := [97]])
    ensures RollbackOne(files[path := [97]], Making(path)) == Ok(files) && Rollback(files[path := [97]], Making(path)) == Ok(files)
  {
    assert files[path := [97]] - {path} == files;
  }

  function MadeOnce(): State {
    State(map["f" := [97]], map["1" := Entry(Making("f"), 1)], 1, [Checkpoint("k", "m", ["1"], Active)])
  }

  lemma MakesOnce(op: Op)
    requires op == ApplyOne("1", Making("f"), "m", 1, "k", true)
    ensures Regular(EMPTY_RECORD, op) && Performed(EMPTY_RECORD, op) == MadeOnce()
  {
    hide Apply, Formed;
    MakingWorks(map[], "f");
    assert EMPTY_RECORD.files["f" := [97]] == map["f" := [97]];
  }

  function UnmadeAgain(): State {
    State(map[], map[], 1, [Checkpoint("k", "m", ["1"], RolledBack)])
  }

  lemma UnmakesAgain(op: Op)
    requires op == UndoOne("1", true)
    ensures Regular(MadeOnce(), op) && Performed(MadeOnce(), op) == UnmadeAgain()
  {
    hide RollbackOne;
    MakingWorks(map[], "f");
    var s := MadeOnce();
    var none: Files := map[];
    assert none["f" := [97]] == s.files;
    assert s.applied - {"1"} == map[];
    assert Remaining(["1"], map[]) == 0 by {
      RemainingMeans(["1"], map[]);
    }
    assert Marked(s.checkpoints, map[], "1") == UnmadeAgain().checkpoints;
  }

  /** A file is made, taken back, and made again by the same reply: its checkpoint stays rolled back. */
  lemma RejoinedCheckpointStaysRolledBack()
    ensures var ops := [ApplyOne("1", Making("f"), "m", 1, "k", true), UndoOne("1", true), ApplyOne("2", Making("f"), "m", 2, "k", true)];
            var t := RunOf(EMPTY_RECORD, ops);
            && AllRegular(EMPTY_RECORD, ops) && t.checkpoints == [Checkpoint("k", "m", ["1", "2"], RolledBack)]
            && "2" in t.applied && !AllStatusOk(t)
  {
    var first, second, third := ApplyOne("1", Making("f"), "m", 1, "k", true), UndoOne("1", true), ApplyOne("2", Making("f"), "m", 2, "k", true);
    MakesOnce(first);
    UnmakesAgain(second);
    RunThen(EMPTY_RECORD, [], first);
    RunThen(EMPTY_RECORD, [first], second);
    RunThen(EMPTY_RECORD, [first, second], third);
    assert [] + [first] == [first] && [first] + [second] == [first, second] && [first, second] + [third] == [first, second, third];
    hide Apply, Formed, RunOf, AllRegular, RollbackOne;
    MakingWorks(map[], "f");
    assert AllRegular(EMPTY_RECORD, []) && RunOf(EMPTY_RECORD, []) == EMPTY_RECORD by {
      NoRun(EMPTY_RECORD);
    }
    var t := Performed(UnmadeAgain(), third);
    assert t.checkpoints[0] == Checkpoint("k", "m", ["1", "2"], RolledBack);
    assert "2" in t.checkpoints[0].changeIds && t.checkpoints[0] in t.checkpoints;
  }

  lemma NoRun(s: State)
    ensures AllRegular(s, []) && RunOf(s, []) == s
  {
  }

  function MadeTwo(): State {
    State(map["f" := [97], "g" := [97]], map["1" := Entry(Making("f"), 1), "2" := Entry(Making("g"), 2)], 2,
          [Checkpoint("k", "m", ["1", "2"], Active)])
  }

  lemma MakesTwo(op: Op)
    requires op == ApplyOne("2", Making("g"), "m", 2, "k", true)
    ensures Regular(MadeOnce(), op) && Performed(MadeOnce(), op) == MadeTwo()
  {
    hide Apply, Formed;
    MakingWorks(MadeOnce().files, "g");
    assert MadeOnce().files["g" := [97]] == MadeTwo().files;
    assert MadeOnce().applied["2" := Entry(Making("g"), 2)] == MadeTwo().applied;
    assert ["1"] + ["2"] == ["1", "2"];
  }

  lemma TakesBackOne(io: Id -> bool)
    requires forall id :: io(id)
    ensures var t := WorkspaceRolledBack(MadeTwo(), 0, ["2"], io);
            |t.checkpoints| == 1 && t.checkpoints[0].changeIds == ["1", "2"] && t.checkpoints[0].status == RolledBack && "1" in t.applied
  {
    hide Rollback, Marked, RolledBackList;
    var s := MadeTwo();
    MakingWorks(MadeOnce().files, "g");
    assert MadeOnce().files["g" := [97]] == s.files;
    OneInOrder(s.applied, "2");
    var patches := PatchesOf(["2"], s.applied);
    RolledBackListStep(s, patches, io);
    assert patches[..0] == [];
    var u := Unregistered(s, MadeOnce().files, "2");
    RolledBackNone(u, io);
    RecountKeepsRest(s.checkpoints, u.applied, "2");
  }

  /** Of two files made by a reply one is taken back by name: the checkpoint is marked as rolled back with the
      other still applied. */
  lemma NamedRollbackMarksTooMuch(io: Id -> bool)
    requires forall id :: io(id)
    ensures var ops := [ApplyOne("1", Making("f"), "m", 1, "k", true), ApplyOne("2", Making("g"), "m", 2, "k", true), RollBackNamed(0, ["2"], io)];
            var t := RunOf(EMPTY_RECORD, ops);
            && AllRegular(EMPTY_RECORD, ops) && |t.checkpoints| == 1 && t.checkpoints[0].status == RolledBack
            && "1" in t.checkpoints[0].changeIds && "1" in t.applied && !AllStatusOk(t)
  {
    hide Apply, Formed, RunOf, AllRegular, WorkspaceRolledBack;
    var first, second := ApplyOne("1", Making("f"), "m", 1, "k", true), ApplyOne("2", Making("g"), "m", 2, "k", true);
    var third := RollBackNamed(0, ["2"], io);
    MakesOnce(first);
    MakesTwo(second);
    RunThen(EMPTY_RECORD, [], first);
    RunThen(EMPTY_RECORD, [first], second);
    RunThen(EMPTY_RECORD, [first, second], third);
    assert [] + [first] == [first] && [first] + [second] == [first, second] && [first, second] + [third] == [first, second, third];
    TakesBackOne(io);
    NoRun(EMPTY_RECORD);
    var t := Performed(MadeTwo(), third);
    assert t.checkpoints[0] in t.checkpoints;
  }

  // ----- a change taken back from under later ones -----

  function Text1(b: Byte): Content {
    [b]
  }

  function Writing(a: Byte, b: Byte): Change {
    Change("f", Write, Some(Text1(a)), Some(Text1(b)))
  }

  lemma WritingWorks(a: Byte, b: Byte)
    requires a > 13 && b > 13
    ensures var f, g: Files := map["f" := Text1(a)], map["f" := Text1(b)];
            && Formed(Writing(a, b)) && Apply(f, Writing(a, b)) == Ok(g) && Undoable(f, Writing(a, b))
            && Rollback(g, Writing(a, b)) == Ok(f)
            && (a != b ==> RollbackOne(g, Writing(a, b)) == Ok(f))
  {
    var f, g: Files := map["f" := Text1(a)], map["f" := Text1(b)];
    assert f["f" := Text1(b)] == g && g["f" := Text1(a)] == f;
    assert Readable(Text1(a)) && Readable(Text1(b)) && !HasCrlf(Text1(a)) && !HasCrlf(Text1(b));
    UndoneIff(f, Writing(a, b));
    RollbackOneIff(g, Writing(a, b));
  }

  function Written(files: Files, applied: map<Id, Entry>, next: nat, ids: seq<Id>): State {
    State(files, applied, next, [Checkpoint("k", "m", ids, Active)])
  }

  /** Writing once more, under the same message. */
  lemma WrittenAgain(log: seq<(Id, Change)>, s: State, id: Id, a: Byte, b: Byte)
    requires RecordOk(map["f" := Text1(97)], log, s) && FreshId(s, id) && IsNext(s, s.next + 1) && a > 13 && b > 13
    requires s.files == map["f" := Text1(a)]
    requires |s.checkpoints| == 0 || (|s.checkpoints| == 1 && s.checkpoints[0] == Checkpoint("k", "m", s.checkpoints[0].changeIds, Active))
    ensures var ids := (if s.checkpoints == [] then [] else s.checkpoints[0].changeIds) + [id];
            RecordOk(map["f" := Text1(97)], log + [(id, Writing(a, b))],
                     Written(map["f" := Text1(b)], s.applied[id := Entry(Writing(a, b), s.next + 1)], s.next + 1, ids))
  {
    hide RecordOk, FreshId, IsNext, Apply, Undoable, Formed;
    WritingWorks(a, b);
    RegisterKeepsRecord(map["f" := Text1(97)], log, s, id, Writing(a, b), "m", s.next + 1, "k");
    assert FirstOf(s.checkpoints, "m") == 0;
    var t := Registered(s.(files := map["f" := Text1(b)]), id, Writing(a, b), "m", s.next + 1, "k");
    var ids := (if s.checkpoints == [] then [] else s.checkpoints[0].changeIds) + [id];
    assert [] + [id] == [id];
    assert |t.checkpoints| == 1 && t.checkpoints[0] == Checkpoint("k", "m", ids, Active);
    assert t == Written(map["f" := Text1(b)], s.applied[id := Entry(Writing(a, b), s.next + 1)], s.next + 1, ids);
  }

  lemma EmptyRecordOk(start: Files)
    ensures RecordOk(start, [], State(start, map[], 0, []))
  {
  }

  const FIRST := ("1", Writing(97, 98))
  const SECOND := ("2", Writing(98, 99))
  const THIRD := ("3", Writing(99, 98))

  /** The record after a file was written, written again and written back. */
  function WrittenThrice(): State {
    Written(map["f" := Text1(98)],
            map[][FIRST.0 := Entry(FIRST.1, 1)][SECOND.0 := Entry(SECOND.1, 2)][THIRD.0 := Entry(THIRD.1, 3)],
            3, [] + ["1"] + ["2"] + ["3"])
  }

  lemma WrittenThriceRecordOk()
    ensures RecordOk(map["f" := Text1(97)], [] + [FIRST] + [SECOND] + [THIRD], WrittenThrice())
  {
    hide RecordOk;
    var start: Files := map["f" := Text1(97)];
    var s0 := State(start, map[], 0, []);
    var s1 := Written(map["f" := Text1(98)], map[]["1" := Entry(FIRST.1, 1)], 1, [] + ["1"]);
    var s2 := Written(map["f" := Text1(99)], s1.applied["2" := Entry(SECOND.1, 2)], 2, [] + ["1"] + ["2"]);
    EmptyRecordOk(start);
    WrittenAgain([], s0, "1", 97, 98);
    WrittenAgain([] + [FIRST], s1, "2", 98, 99);
    WrittenAgain([] + [FIRST] + [SECOND], s2, "3", 99, 98);
  }

  /** A file is written, written again and written back; the first write can then be taken back alone, and no
      history of the two that stay leads to the files. */
  lemma UndoneFromUnderLater() returns (start: Files, log: seq<(Id, Change)>, s: State)
    ensures RecordOk(start, log, s) && "1" in s.applied && RollbackOne(s.files, s.applied["1"].change).Ok?
    ensures !Explains(start, Filter(log, {"1"}, false), Unregistered(s, RollbackOne(s.files, s.applied["1"].change).value, "1"))
  {
    hide RecordOk, Explains, RollbackOne, Unregistered, Filter;
    start := map["f" := Text1(97)];
    log := [] + [FIRST] + [SECOND] + [THIRD];
    s := WrittenThrice();
    WrittenThriceRecordOk();
    WritingWorks(97, 98);
    assert s.applied["1"] == Entry(FIRST.1, 1) && s.applied["2"] == Entry(SECOND.1, 2);
    assert "f" in Touched(s.applied["1"].change) && "f" in Touched(s.applied["2"].change);
    assert !PlanOk(s.applied, {"1"});
    UndoneOneExplainedIff(start, log, s, "1");
  }
}
