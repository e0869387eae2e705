/** The agent's record of applied changes and checkpoints, beside the files they changed. */
module WorkspaceState {
  import opened Wrappers
  import opened Workspace
  import opened WorkspaceUndo

  type Id = string

  datatype Entry = Entry(change: Change, sequence: nat)

  datatype Status = Active | Partial | RolledBack

  datatype Checkpoint = Checkpoint(id: Id, message: Id, changeIds: seq<Id>, status: Status)

  datatype State = State(files: Files, applied: map<Id, Entry>, next: nat, checkpoints: seq<Checkpoint>)

  // ----- checkpoints -----

  /** How many of the changes are still applied. */
  function Remaining(ids: seq<Id>, applied: map<Id, Entry>): nat {
    if ids == [] then 0
    else Remaining(ids[..|ids| - 1], applied) + if ids[|ids| - 1] in applied then 1 else 0
  }

  lemma {:induction false} RemainingMeans(ids: seq<Id>, applied: map<Id, Entry>)
    ensures Remaining(ids, applied) <= |ids|
    ensures Remaining(ids, applied) == 0 <==> forall id <- ids :: id !in applied
    ensures Remaining(ids, applied) == |ids| <==> forall id <- ids :: id in applied
  {
    if ids != [] {
      var n := |ids| - 1;
      RemainingMeans(ids[..n], applied);
      assert ids == ids[..n] + [ids[n]];
    }
  }

  /** The status that the changes still applied call for. */
  predicate StatusOk(c: Checkpoint, applied: map<Id, Entry>) {
    match c.status
    case Active => forall id <- c.changeIds :: id in applied
    case RolledBack => forall id <- c.changeIds :: id !in applied
    case Partial => (exists id <- c.changeIds :: id in applied) && (exists id <- c.changeIds :: id !in applied)
  }

  /** Every checkpoint names a change and has the status its changes call for. */
  predicate AllStatusOk(s: State) {
    forall c <- s.checkpoints :: c.changeIds != [] && StatusOk(c, s.applied)
  }

  function Recounted(c: Checkpoint, applied: map<Id, Entry>): Checkpoint {
    var remaining := Remaining(c.changeIds, applied);
    if remaining == 0 then c.(status := RolledBack)
    else if remaining < |c.changeIds| then c.(status := Partial)
    else c
  }

  function Marked(cs: seq<Checkpoint>, applied: map<Id, Entry>, id: Id): (r: seq<Checkpoint>)
    ensures |r| == |cs| && forall i :: 0 <= i < |cs| ==> r[i] == if id in cs[i].changeIds then Recounted(cs[i], applied) else cs[i]
  {
    seq(|cs|, i requires 0 <= i < |cs| => if id in cs[i].changeIds then Recounted(cs[i], applied) else cs[i])
  }

  /** What an undo of a reply does to the checkpoints: it counts again for every one. */
  function AllRecounted(cs: seq<Checkpoint>, applied: map<Id, Entry>): (r: seq<Checkpoint>)
    ensures |r| == |cs| && forall i :: 0 <= i < |cs| ==> r[i] == Recounted(cs[i], applied)
  {
    seq(|cs|, i requires 0 <= i < |cs| => Recounted(cs[i], applied))
  }

  function FirstOf(cs: seq<Checkpoint>, message: Id): (i: nat)
    ensures i <= |cs| && (i < |cs| ==> cs[i].message == message)
    ensures forall j :: 0 <= j < i ==> cs[j].message != message
  {
    if cs == [] || cs[0].message == message then 0 else 1 + FirstOf(cs[1..], message)
  }

  function Joined(cs: seq<Checkpoint>, id: Id, message: Id, checkpointId: Id): seq<Checkpoint> {
    var i := FirstOf(cs, message);
    if i < |cs| then cs[i := cs[i].(changeIds := cs[i].changeIds + [id])]
    else cs + [Checkpoint(checkpointId, message, [id], Active)]
  }

  // ----- registering and removing -----

  /** The sequence number after every one given so far. */
  predicate IsNext(s: State, sequence: nat) {
    && s.next < sequence && (forall id <- s.applied :: s.applied[id].sequence < sequence)
    && (sequence == s.next + 1 || exists id <- s.applied :: s.applied[id].sequence + 1 == sequence)
  }

  function Registered(s: State, id: Id, c: Change, message: Id, sequence: nat, checkpointId: Id): State {
    s.(applied := s.applied[id := Entry(c, sequence)], next := sequence,
       checkpoints := Joined(s.checkpoints, id, message, checkpointId))
  }

  function Unregistered(s: State, files: Files, id: Id): State {
    var applied := s.applied - {id};
    s.(files := files, applied := applied, checkpoints := Marked(s.checkpoints, applied, id))
  }

  predicate FreshId(s: State, id: Id) {
    id !in s.applied && forall c <- s.checkpoints :: id !in c.changeIds
  }

  /** Registering a change keeps every status right exactly when it does not join a checkpoint that has
      been rolled back: the code never makes that one active again. */
  lemma RegisterKeepsStatusIff(s: State, id: Id, c: Change, message: Id, sequence: nat, checkpointId: Id)
    requires AllStatusOk(s) && FreshId(s, id)
    ensures var i := FirstOf(s.checkpoints, message);
            AllStatusOk(Registered(s, id, c, message, sequence, checkpointId)) <==>
            !(i < |s.checkpoints| && s.checkpoints[i].status == RolledBack)
  {
    var i := FirstOf(s.checkpoints, message);
    var s' := Registered(s, id, c, message, sequence, checkpointId);
    forall j | 0 <= j < |s.checkpoints| && j != i ensures StatusOk(s'.checkpoints[j], s'.applied) {
      StatusUnaffected(s.checkpoints[j], s.applied, id, Entry(c, sequence));
    }
    if i < |s.checkpoints| {
      StatusOfJoined(s.checkpoints[i], s.applied, id, Entry(c, sequence));
      assert s'.checkpoints[i] in s'.checkpoints;
    }
  }

  lemma StatusUnaffected(c: Checkpoint, applied: map<Id, Entry>, id: Id, e: Entry)
    requires StatusOk(c, applied) && id !in c.changeIds
    ensures StatusOk(c, applied[id := e])
  {
  }

  lemma StatusOfJoined(c: Checkpoint, applied: map<Id, Entry>, id: Id, e: Entry)
    requires StatusOk(c, applied) && id !in c.changeIds && c.changeIds != []
    ensures StatusOk(c.(changeIds := c.changeIds + [id]), applied[id := e]) <==> c.status != RolledBack
  {
    var ids := c.changeIds + [id];
    assert id in ids;
    if c.status == Partial {
      var x :| x in c.changeIds && x !in applied;
      assert x in ids && x !in applied[id := e];
    }
  }

  /** Removing an applied change keeps every status right. */
  lemma UnregisterKeepsStatus(s: State, files: Files, id: Id)
    requires AllStatusOk(s)
    ensures AllStatusOk(Unregistered(s, files, id))
  {
    hide StatusOk, Recounted, Remaining;
    var applied := s.applied - {id};
    forall i | 0 <= i < |s.checkpoints|
      ensures StatusOk(Marked(s.checkpoints, applied, id)[i], applied) && Marked(s.checkpoints, applied, id)[i].changeIds != []
    {
      var c := s.checkpoints[i];
      assert c.changeIds != [] && StatusOk(c, s.applied);
      if id in c.changeIds {
        RemovedRecounts(c, applied, id);
      } else {
        RemovedElsewhere(c, s.applied, id);
      }
    }
  }

  lemma RemovedRecounts(c: Checkpoint, applied: map<Id, Entry>, id: Id)
    requires id in c.changeIds && id !in applied
    ensures StatusOk(Recounted(c, applied), applied) && Recounted(c, applied).changeIds == c.changeIds
  {
    RemainingMeans(c.changeIds, applied);
  }

  lemma RemovedElsewhere(c: Checkpoint, applied: map<Id, Entry>, id: Id)
    requires StatusOk(c, applied) && id !in c.changeIds
    ensures StatusOk(c, applied - {id})
  {
  }

  /** Counting again for every checkpoint, as the undo of a reply does, or only for those that hold the
      removed change, as the rollback does, comes to the same when the statuses were right. */
  lemma BothCountsAgree(s: State, id: Id)
    requires AllStatusOk(s)
    ensures AllRecounted(s.checkpoints, s.applied - {id}) == Marked(s.checkpoints, s.applied - {id}, id)
  {
    hide Remaining;
    forall i | 0 <= i < |s.checkpoints| && id !in s.checkpoints[i].changeIds
      ensures Recounted(s.checkpoints[i], s.applied - {id}) == s.checkpoints[i]
    {
      var c := s.checkpoints[i];
      assert c.changeIds != [] && StatusOk(c, s.applied);
      RemovedElsewhere(c, s.applied, id);
      RemainingMeans(c.changeIds, s.applied - {id});
    }
  }

  // ----- taking back several changes -----

  /** The changes are taken back from the last, each removed from the record, until one fails. */
  function RolledBackList(s: State, patches: seq<(Id, Change)>, io: Id -> bool): (State, nat)
    decreases |patches|
  {
    if patches == [] then (s, 0)
    else
      var (id, c) := patches[|patches| - 1];
      var files := Rollback(s.files, c);
      if !io(id) || files.Err? then (s, 0)
      else
        var (t, count) := RolledBackList(Unregistered(s, files.value, id), patches[..|patches| - 1], io);
        (t, count + 1)
  }

  lemma {:induction false} RollbackListKeepsStatus(s: State, patches: seq<(Id, Change)>, io: Id -> bool)
    requires AllStatusOk(s)
    ensures AllStatusOk(RolledBackList(s, patches, io).0)
    ensures RolledBackList(s, patches, io).1 <= |patches|
    decreases |patches|
  {
    hide AllStatusOk, Unregistered, Rollback;
    if patches != [] {
      var (id, c) := patches[|patches| - 1];
      var files := Rollback(s.files, c);
      if io(id) && files.Ok? {
        UnregisterKeepsStatus(s, files.value, id);
        RollbackListKeepsStatus(Unregistered(s, files.value, id), patches[..|patches| - 1], io);
      }
    }
  }

  predicate OnlyStatusDiffers(a: seq<Checkpoint>, b: seq<Checkpoint>) {
    |a| == |b| && forall i :: 0 <= i < |a| ==> b[i] == a[i].(status := b[i].status)
  }

  lemma {:induction false} RollbackListKeepsCheckpoints(s: State, patches: seq<(Id, Change)>, io: Id -> bool)
    ensures OnlyStatusDiffers(s.checkpoints, RolledBackList(s, patches, io).0.checkpoints)
    decreases |patches|
  {
    hide Rollback, Recounted;
    if patches != [] {
      var (id, c) := patches[|patches| - 1];
      var files := Rollback(s.files, c);
      if io(id) && files.Ok? {
        RecountKeepsRest(s.checkpoints, s.applied - {id}, id);
        RollbackListKeepsCheckpoints(Unregistered(s, files.value, id), patches[..|patches| - 1], io);
      }
    }
  }

  lemma RecountKeepsRest(cs: seq<Checkpoint>, applied: map<Id, Entry>, id: Id)
    ensures OnlyStatusDiffers(cs, Marked(cs, applied, id))
  {
    hide Remaining;
  }

  lemma RolledBackListStep(s: State, patches: seq<(Id, Change)>, io: Id -> bool)
    requires patches != []
    ensures var (id, c) := patches[|patches| - 1];
            var files := Rollback(s.files, c);
            && (!io(id) || files.Err? ==> RolledBackList(s, patches, io) == (s, 0))
            && (io(id) && files.Ok? ==>
                  var (t, count) := RolledBackList(Unregistered(s, files.value, id), patches[..|patches| - 1], io);
                  RolledBackList(s, patches, io) == (t, count + 1))
  {
  }

  lemma RolledBackNone(s: State, io: Id -> bool)
    ensures RolledBackList(s, [], io) == (s, 0)
  {
  }

  function IdsOf(patches: seq<(Id, Change)>): set<Id> {
    if patches == [] then {} else IdsOf(patches[1..]) + {patches[0].0}
  }

  lemma {:induction false} IdsOfConcat(a: seq<(Id, Change)>, b: seq<(Id, Change)>)
    ensures IdsOf(a + b) == IdsOf(a) + IdsOf(b)
  {
    if a == [] {
      assert a + b == b;
    } else {
      assert (a + b)[1..] == a[1..] + b;
      IdsOfConcat(a[1..], b);
    }
  }

  lemma RemoveTwice<V>(m: map<Id, V>, id: Id, ids: set<Id>)
    ensures m - {id} - ids == m - (ids + {id})
  {
  }

  /** What is left applied: exactly the changes whose turn did not come. */
  lemma {:induction false} RollbackListRemoves(s: State, patches: seq<(Id, Change)>, io: Id -> bool)
    ensures var (t, count) := RolledBackList(s, patches, io);
            count <= |patches| && t.applied == s.applied - IdsOf(patches[|patches| - count..]) && t.next == s.next
    decreases |patches|
  {
    hide Rollback, Marked, IdsOf;
    assert IdsOf([]) == {} by {
      IdsOfNone();
    }
    assert patches[|patches| - 0..] == [];
    assert s.applied - {} == s.applied;
    if patches != [] {
      hide RolledBackList;
      RolledBackListStep(s, patches, io);
      var n := |patches| - 1;
      var (id, c) := patches[n];
      var files := Rollback(s.files, c);
      if io(id) && files.Ok? {
        var u := Unregistered(s, files.value, id);
        RollbackListRemoves(u, patches[..n], io);
        var count := RolledBackList(u, patches[..n], io).1;
        assert patches[|patches| - (count + 1)..] == patches[..n][n - count..] + [patches[n]];
        RemovedThen(s.applied, patches[..n][n - count..], patches[n]);
      }
    }
  }

  lemma RemovedThen(applied: map<Id, Entry>, undone: seq<(Id, Change)>, p: (Id, Change))
    ensures applied - {p.0} - IdsOf(undone) == applied - IdsOf(undone + [p])
  {
    IdsOfConcat(undone, [p]);
    assert IdsOf([p]) == IdsOf([]) + {p.0};
    RemoveTwice(applied, p.0, IdsOf(undone));
  }

  lemma IdsOfNone()
    ensures IdsOf([]) == {}
  {
  }

  // ----- the history behind the record -----

  /** `log` lists the applied changes, oldest first. */
  predicate InOrder(log: seq<(Id, Change)>, applied: map<Id, Entry>) {
    if log == [] then applied == map[]
    else
      var (id, c) := log[|log| - 1];
      && id in applied && applied[id].change == c
      && (forall x <- applied :: x != id ==> applied[x].sequence < applied[id].sequence)
      && InOrder(log[..|log| - 1], applied - {id})
  }

  /** Only one list has the applied changes oldest first. */
  lemma {:induction false} OrderIsUnique(a: seq<(Id, Change)>, b: seq<(Id, Change)>, applied: map<Id, Entry>)
    requires InOrder(a, applied) && InOrder(b, applied)
    ensures a == b
    decreases |a|
  {
    if a != [] && b != [] {
      var n, m := |a| - 1, |b| - 1;
      assert a[n].0 == b[m].0;
      OrderIsUnique(a[..n], b[..m], applied - {a[n].0});
      assert a == a[..n] + [a[n]] && b == b[..m] + [b[m]];
    }
  }

  lemma InOrderThen(log: seq<(Id, Change)>, applied: map<Id, Entry>, id: Id, e: Entry)
    requires InOrder(log, applied) && id !in applied && forall x <- applied :: applied[x].sequence < e.sequence
    ensures InOrder(log + [(id, e.change)], applied[id := e])
  {
    assert (log + [(id, e.change)])[..|log|] == log;
    assert applied[id := e] - {id} == applied;
  }

  function ChangesOf(log: seq<(Id, Change)>): (cs: seq<Change>)
    ensures |cs| == |log| && forall i :: 0 <= i < |log| ==> cs[i] == log[i].1
  {
    seq(|log|, i requires 0 <= i < |log| => log[i].1)
  }

  /** The files are what the applied changes, oldest first, make of the files `start`. */
  predicate Explains(start: Files, log: seq<(Id, Change)>, s: State) {
    InOrder(log, s.applied) && AllFormed(ChangesOf(log)) && ApplyAll(start, ChangesOf(log)) == Ok(s.files)
  }

  /** Applying a change and registering it adds it to the history. */
  lemma RegisterExplained(start: Files, log: seq<(Id, Change)>, s: State, id: Id, c: Change, message: Id,
          sequence: nat, checkpointId: Id)
    requires Explains(start, log, s) && Formed(c) && Apply(s.files, c).Ok? && IsNext(s, sequence) && id !in s.applied
    ensures Explains(start, log + [(id, c)], Registered(s.(files := Apply(s.files, c).value), id, c, message, sequence, checkpointId))
  {
    hide Apply, Formed, Joined, InOrder, ApplyAll;
    InOrderThen(log, s.applied, id, Entry(c, sequence));
    assert ChangesOf(log + [(id, c)]) == ChangesOf(log) + [c];
    ApplyAllThen(start, ChangesOf(log), c);
  }

  lemma LastTakenBack(start: Files, log: seq<(Id, Change)>, s: State)
    requires Explains(start, log, s) && AllUndoable(start, ChangesOf(log)) && log != []
    ensures var (id, c) := log[|log| - 1];
            var files := Rollback(s.files, c);
            && files.Ok?
            && Explains(start, log[..|log| - 1], Unregistered(s, files.value, id))
            && AllUndoable(start, ChangesOf(log[..|log| - 1]))
  {
    hide Apply, Rollback, Formed, Undoable, Marked, AllUndoable, ApplyAll;
    var (id, c) := log[|log| - 1];
    var earlier := ChangesOf(log[..|log| - 1]);
    assert ChangesOf(log) == earlier + [c];
    ApplyAllThen(start, earlier, c);
    AllUndoableThen(start, earlier, c);
    UndoneIff(ApplyAll(start, earlier).value, c);
  }

  /** Taking back the newest changes never meets a conflict: it stops only when the file system fails, and
      then exactly the newest `count` changes are undone and no longer recorded. */
  lemma {:induction false} RollbackExplained(start: Files, log: seq<(Id, Change)>, s: State, from: nat, io: Id -> bool)
    requires Explains(start, log, s) && AllUndoable(start, ChangesOf(log)) && from <= |log|
    ensures var (t, count) := RolledBackList(s, log[from..], io);
            && count <= |log| - from && Explains(start, log[..|log| - count], t)
            && (count < |log| - from ==> !io(log[|log| - count - 1].0))
    decreases |log|
  {
    hide Explains, AllUndoable, Rollback, Unregistered, RolledBackList, ChangesOf;
    if from == |log| {
      RolledBackNone(s, io);
      assert log[from..] == [] && log[..|log| - 0] == log;
    } else {
      var n := |log| - 1;
      var (id, c) := log[n];
      LastTakenBack(start, log, s);
      RolledBackListStep(s, log[from..], io);
      if io(id) {
        var u := Unregistered(s, Rollback(s.files, c).value, id);
        RollbackExplained(start, log[..n], u, from, io);
        assert log[from..][..n - from] == log[..n][from..];
        var count := RolledBackList(u, log[..n][from..], io).1;
        assert log[..n][..n - count] == log[..|log| - (count + 1)];
      } else {
        assert log[..|log| - 0] == log;
      }
    }
  }

  // ----- rolling back a workspace -----

  /** Those of the changes that are still applied. */
  function PatchesOf(ids: seq<Id>, applied: map<Id, Entry>): seq<(Id, Change)> {
    if ids == [] then []
    else
      var id := ids[|ids| - 1];
      PatchesOf(ids[..|ids| - 1], applied) + if id in applied then [(id, applied[id].change)] else []
  }

  function LastActive(cs: seq<Checkpoint>): (i: nat)
    ensures i <= |cs| && (i < |cs| ==> cs[i].status == Active && forall j :: i < j < |cs| ==> cs[j].status != Active)
    ensures i == |cs| ==> forall j :: 0 <= j < |cs| ==> cs[j].status != Active
  {
    if cs == [] then 0
    else if cs[|cs| - 1].status == Active then |cs| - 1
    else
      var i := LastActive(cs[..|cs| - 1]);
      if i == |cs| - 1 then |cs| else i
  }

  /** Marks the checkpoint at `target`, if there is one, as rolled back. */
  function Finished(s: State, target: nat): State {
    if target < |s.checkpoints| then s.(checkpoints := s.checkpoints[target := s.checkpoints[target].(status := RolledBack)])
    else s
  }

  function WorkspaceRolledBack(s: State, target: nat, ids: seq<Id>, io: Id -> bool): State {
    var patches := PatchesOf(ids, s.applied);
    var (t, count) := RolledBackList(s, patches, io);
    if patches == [] then s else if count < |patches| then t else Finished(t, target)
  }

  lemma {:induction false} PatchesOfIds(ids: seq<Id>, applied: map<Id, Entry>, id: Id)
    ensures id in IdsOf(PatchesOf(ids, applied)) <==> id in ids && id in applied
  {
    if ids != [] {
      var n := |ids| - 1;
      PatchesOfIds(ids[..n], applied, id);
      assert ids == ids[..n] + [ids[n]];
      if ids[n] in applied {
        var p := (ids[n], applied[ids[n]].change);
        IdsOfConcat(PatchesOf(ids[..n], applied), [p]);
        assert IdsOf([p]) == IdsOf([]) + {p.0};
      } else {
        assert PatchesOf(ids, applied) == PatchesOf(ids[..n], applied);
      }
    }
  }

  /** The file system does its part and no conflict is met. */
  predicate Finishes(files: Files, patches: seq<(Id, Change)>, io: Id -> bool) {
    (forall p <- patches :: io(p.0)) && RollbackAll(files, ChangesOf(patches)).Ok?
  }

  /** A list of changes is taken back whole exactly then. */
  lemma {:induction false} RolledBackFiles(s: State, patches: seq<(Id, Change)>, io: Id -> bool)
    ensures var (t, count) := RolledBackList(s, patches, io);
            && count <= |patches| && (count == |patches| <==> Finishes(s.files, patches, io))
            && (count == |patches| ==> Ok(t.files) == RollbackAll(s.files, ChangesOf(patches)))
    decreases |patches|
  {
    if patches != [] {
      var n := |patches| - 1;
      var (id, c) := patches[n];
      RolledBackListStep(s, patches, io);
      assert ChangesOf(patches) == ChangesOf(patches[..n]) + [c];
      RollbackAllFrom(s.files, ChangesOf(patches[..n]), c);
      assert patches == patches[..n] + [patches[n]];
      hide RolledBackList, RollbackAll, ChangesOf, Rollback;
      if Rollback(s.files, c).Ok? {
        RolledBackFiles(Unregistered(s, Rollback(s.files, c).value, id), patches[..n], io);
      }
    }
  }

  /** A rollback of the workspace keeps every status right exactly when it will not finish, or the checkpoint
      it was for has no change left applied.  Naming some changes of a checkpoint and leaving others is
      the case that breaks it: the code marks the checkpoint as rolled back all the same. */
  lemma RollbackKeepsStatusIff(s: State, target: nat, ids: seq<Id>, io: Id -> bool)
    requires AllStatusOk(s)
    ensures var patches := PatchesOf(ids, s.applied);
            AllStatusOk(WorkspaceRolledBack(s, target, ids, io)) <==>
            || patches == [] || !Finishes(s.files, patches, io) || target >= |s.checkpoints|
            || forall id <- s.checkpoints[target].changeIds :: id !in s.applied || id in ids
  {
    hide RolledBackList, StatusOk, AllStatusOk, PatchesOf, IdsOf, Finishes;
    var patches := PatchesOf(ids, s.applied);
    var (t, count) := RolledBackList(s, patches, io);
    RollbackListKeepsStatus(s, patches, io);
    RollbackListRemoves(s, patches, io);
    RollbackListKeepsCheckpoints(s, patches, io);
    RolledBackFiles(s, patches, io);
    if count == |patches| && target < |s.checkpoints| {
      assert patches[|patches| - count..] == patches;
      forall id ensures id in t.applied <==> id in s.applied && id !in ids {
        PatchesOfIds(ids, s.applied, id);
      }
      FinishedStatus(t, target);
      assert t.checkpoints[target].changeIds == s.checkpoints[target].changeIds;
    }
  }

  lemma FinishedStatus(t: State, target: nat)
    requires AllStatusOk(t) && target < |t.checkpoints|
    ensures AllStatusOk(Finished(t, target)) <==> forall id <- t.checkpoints[target].changeIds :: id !in t.applied
  {
    var u := Finished(t, target);
    assert u.checkpoints[target] in u.checkpoints;
    assert t.checkpoints[target] in t.checkpoints;
  }

  /** A rollback without named changes, of a checkpoint or of everything, always keeps every status right. */
  lemma DefaultRollbackKeepsStatus(s: State, target: nat, sorted: seq<Id>, io: Id -> bool)
    requires AllStatusOk(s)
    ensures AllStatusOk(WorkspaceRolledBack(s, target, if target < |s.checkpoints| then s.checkpoints[target].changeIds else sorted, io))
  {
    hide AllStatusOk, WorkspaceRolledBack;
    RollbackKeepsStatusIff(s, target, if target < |s.checkpoints| then s.checkpoints[target].changeIds else sorted, io);
  }

  /** A checkpoint made of everything applied starts with the right status. */
  lemma CheckpointKeepsStatus(s: State, sorted: seq<Id>, checkpointId: Id)
    requires AllStatusOk(s) && sorted != [] && forall id <- sorted :: id in s.applied
    ensures AllStatusOk(s.(checkpoints := s.checkpoints + [Checkpoint(checkpointId, "", sorted, Active)]))
  {
  }

  // ----- undoing one reply -----

  function Filter(log: seq<(Id, Change)>, ids: set<Id>, selected: bool): seq<(Id, Change)> {
    if log == [] then []
    else
      var last := log[|log| - 1];
      Filter(log[..|log| - 1], ids, selected) + if (last.0 in ids) == selected then [last] else []
  }

  /** No applied change that stays is later than one to undo and touches a path of it. */
  predicate PlanOk(applied: map<Id, Entry>, ids: set<Id>) {
    forall p, q :: p in applied && p in ids && q in applied && q !in ids && applied[p].sequence < applied[q].sequence ==>
      Touched(applied[p].change) !! Touched(applied[q].change)
  }

  function LogOf(log: seq<(Id, Change)>, ids: set<Id>): (r: seq<Logged>)
    ensures |r| == |log| && forall i :: 0 <= i < |log| ==> r[i] == Logged(log[i].1, log[i].0 in ids)
  {
    seq(|log|, i requires 0 <= i < |log| => Logged(log[i].1, log[i].0 in ids))
  }

  lemma {:induction false} InOrderAt(log: seq<(Id, Change)>, applied: map<Id, Entry>, i: nat, j: nat)
    requires InOrder(log, applied) && i <= j < |log|
    ensures log[i].0 in applied && log[j].0 in applied
    ensures applied[log[i].0].change == log[i].1 && applied[log[j].0].change == log[j].1
    ensures i < j ==> applied[log[i].0].sequence < applied[log[j].0].sequence
    decreases |log|
  {
    var n := |log| - 1;
    if j < n {
      InOrderAt(log[..n], applied - {log[n].0}, i, j);
    } else if i < n {
      InOrderAt(log[..n], applied - {log[n].0}, i, i);
    }
  }

  lemma PlanMeansNoLaterTouch(log: seq<(Id, Change)>, applied: map<Id, Entry>, ids: set<Id>)
    requires InOrder(log, applied) && PlanOk(applied, ids)
    ensures NoLaterTouch(LogOf(log, ids))
  {
    hide Touched, InOrder;
    var r := LogOf(log, ids);
    forall i, j | 0 <= i < j < |r| && r[i].selected && !r[j].selected ensures Touched(r[i].change) !! Touched(r[j].change) {
      InOrderAt(log, applied, i, j);
    }
  }

  lemma {:induction false} FilterIsChosen(log: seq<(Id, Change)>, ids: set<Id>, selected: bool)
    ensures Chosen(LogOf(log, ids), selected) == ChangesOf(Filter(log, ids, selected))
  {
    if log != [] {
      var n := |log| - 1;
      FilterIsChosen(log[..n], ids, selected);
      assert LogOf(log, ids)[..n] == LogOf(log[..n], ids);
      var rest := Filter(log[..n], ids, selected);
      assert ChangesOf(rest + [log[n]]) == ChangesOf(rest) + [log[n].1];
    }
  }

  function Restrict(applied: map<Id, Entry>, ids: set<Id>, selected: bool): map<Id, Entry> {
    map id <- applied | (id in ids) == selected :: applied[id]
  }

  lemma RestrictLast(applied: map<Id, Entry>, id: Id, ids: set<Id>, selected: bool)
    requires id in applied
    ensures var rest := Restrict(applied - {id}, ids, selected);
            && id !in rest && (forall x <- rest :: x in applied && x != id && rest[x] == applied[x])
            && Restrict(applied, ids, selected) == if (id in ids) == selected then rest[id := applied[id]] else rest
  {
  }

  lemma {:induction false} FilterInOrder(log: seq<(Id, Change)>, applied: map<Id, Entry>, ids: set<Id>, selected: bool)
    requires InOrder(log, applied)
    ensures InOrder(Filter(log, ids, selected), Restrict(applied, ids, selected))
    decreases |log|
  {
    if log != [] {
      var n := |log| - 1;
      var (id, c) := log[n];
      FilterInOrder(log[..n], applied - {id}, ids, selected);
      hide InOrder, Restrict;
      RestrictLast(applied, id, ids, selected);
      if (id in ids) == selected {
        InOrderThen(Filter(log[..n], ids, selected), Restrict(applied - {id}, ids, selected), id, applied[id]);
      } else {
        assert Filter(log, ids, selected) == Filter(log[..n], ids, selected);
      }
    }
  }

  lemma {:induction false} FilterIds(log: seq<(Id, Change)>, applied: map<Id, Entry>, ids: set<Id>, id: Id)
    requires InOrder(log, applied)
    ensures id in IdsOf(Filter(log, ids, true)) <==> id in applied && id in ids
    decreases |log|
  {
    if log == [] {
      assert IdsOf([]) == {} by { IdsOfNone(); }
    } else {
      var n := |log| - 1;
      FilterIds(log[..n], applied - {log[n].0}, ids, id);
      var rest := Filter(log[..n], ids, true);
      assert log[n].0 !in ids ==> Filter(log, ids, true) == rest;
      IdsOfConcat(rest, [log[n]]);
      assert IdsOf([log[n]]) == IdsOf([]) + {log[n].0};
    }
  }

  /** Undoing a reply when no later change touches its paths takes back all of its changes, and what is
      left, files and record, is what the other changes alone would have made. */
  lemma UndoneReplyLeavesTheOthers(start: Files, log: seq<(Id, Change)>, s: State, ids: set<Id>, io: Id -> bool)
    requires Explains(start, log, s) && AllUndoable(start, ChangesOf(log)) && PlanOk(s.applied, ids) && forall id :: io(id)
    ensures var (t, count) := RolledBackList(s, Filter(log, ids, true), io);
            count == |Filter(log, ids, true)| && Explains(start, Filter(log, ids, false), t)
  {
    var patches := Filter(log, ids, true);
    assert Changes(LogOf(log, ids)) == ChangesOf(log);
    PlanMeansNoLaterTouch(log, s.applied, ids);
    UndoIsAsIfNeverMade(start, LogOf(log, ids));
    FilterIsChosen(log, ids, true);
    FilterIsChosen(log, ids, false);
    hide RolledBackList, RollbackAll, ApplyAll, InOrder, AllUndoable, Filter, Formed, PlanOk, LogOf, Touched;
    RolledBackFiles(s, patches, io);
    RollbackListRemoves(s, patches, io);
    assert patches[|patches| - |patches|..] == patches;
    RestrictIsRemoval(log, s.applied, ids);
    FilterInOrder(log, s.applied, ids, false);
    FilterFormed(log, ids);
  }

  lemma RestrictIsRemoval(log: seq<(Id, Change)>, applied: map<Id, Entry>, ids: set<Id>)
    requires InOrder(log, applied)
    ensures applied - IdsOf(Filter(log, ids, true)) == Restrict(applied, ids, false)
  {
    forall id ensures id in IdsOf(Filter(log, ids, true)) <==> id in applied && id in ids {
      FilterIds(log, applied, ids, id);
    }
  }

  lemma {:induction false} FilterFormed(log: seq<(Id, Change)>, ids: set<Id>)
    requires AllFormed(ChangesOf(log))
    ensures AllFormed(ChangesOf(Filter(log, ids, false)))
  {
    hide Formed;
    if log != [] {
      var n := |log| - 1;
      assert ChangesOf(log)[..n] == ChangesOf(log[..n]);
      assert ChangesOf(log)[n] == log[n].1;
      FilterFormed(log[..n], ids);
      var rest := Filter(log[..n], ids, false);
      assert ChangesOf(rest + [log[n]]) == ChangesOf(rest) + [log[n].1];
    }
  }

  // ----- the order within a checkpoint -----

  function Elements(ids: seq<Id>): set<Id> {
    set id <- ids
  }

  /** A checkpoint lists its changes in the order they were applied. */
  predicate ListsInOrder(c: Checkpoint, applied: map<Id, Entry>) {
    InOrder(PatchesOf(c.changeIds, applied), Restrict(applied, Elements(c.changeIds), true))
  }

  /** So going through that list is going through the history. */
  lemma CheckpointFollowsHistory(log: seq<(Id, Change)>, c: Checkpoint, applied: map<Id, Entry>)
    requires InOrder(log, applied) && ListsInOrder(c, applied)
    ensures PatchesOf(c.changeIds, applied) == Filter(log, Elements(c.changeIds), true)
  {
    FilterInOrder(log, applied, Elements(c.changeIds), true);
    OrderIsUnique(PatchesOf(c.changeIds, applied), Filter(log, Elements(c.changeIds), true), Restrict(applied, Elements(c.changeIds), true));
  }

  lemma {:induction false} PatchesUnaffected(ids: seq<Id>, applied: map<Id, Entry>, id: Id, e: Entry)
    requires id !in ids
    ensures PatchesOf(ids, applied[id := e]) == PatchesOf(ids, applied)
  {
    if ids != [] {
      PatchesUnaffected(ids[..|ids| - 1], applied, id, e);
    }
  }

  lemma {:induction false} PatchesWithout(ids: seq<Id>, applied: map<Id, Entry>, id: Id)
    ensures PatchesOf(ids, applied - {id}) == Filter(PatchesOf(ids, applied), {id}, false)
  {
    if ids != [] {
      var n := |ids| - 1;
      PatchesWithout(ids[..n], applied, id);
      if ids[n] in applied {
        var rest := PatchesOf(ids[..n], applied);
        var p := (ids[n], applied[ids[n]].change);
        assert (rest + [p])[..|rest|] == rest;
      } else {
        assert PatchesOf(ids, applied) == PatchesOf(ids[..n], applied);
      }
    }
  }

  lemma RegisterKeepsOrder(c: Checkpoint, applied: map<Id, Entry>, id: Id, e: Entry)
    requires ListsInOrder(c, applied) && id !in c.changeIds && forall x <- applied :: applied[x].sequence < e.sequence
    ensures ListsInOrder(c, applied[id := e])
    ensures ListsInOrder(c.(changeIds := c.changeIds + [id]), applied[id := e])
  {
    hide InOrder;
    var ids := c.changeIds;
    PatchesUnaffected(ids, applied, id, e);
    RestrictThen(applied, id, e, ids);
    assert (ids + [id])[..|ids|] == ids;
    InOrderThen(PatchesOf(ids, applied), Restrict(applied, Elements(ids), true), id, e);
  }

  lemma RestrictThen(applied: map<Id, Entry>, id: Id, e: Entry, ids: seq<Id>)
    requires id !in ids
    ensures var mine := Restrict(applied, Elements(ids), true);
            && id !in mine && (forall x <- mine :: x in applied && mine[x] == applied[x])
            && Restrict(applied[id := e], Elements(ids), true) == mine
            && Restrict(applied[id := e], Elements(ids + [id]), true) == mine[id := e]
  {
    assert Elements(ids + [id]) == Elements(ids) + {id};
  }

  lemma RemovalKeepsOrder(c: Checkpoint, applied: map<Id, Entry>, id: Id)
    requires ListsInOrder(c, applied)
    ensures ListsInOrder(c, applied - {id})
  {
    var mine := Restrict(applied, Elements(c.changeIds), true);
    PatchesWithout(c.changeIds, applied, id);
    FilterInOrder(PatchesOf(c.changeIds, applied), mine, {id}, false);
    assert Restrict(mine, {id}, false) == Restrict(applied - {id}, Elements(c.changeIds), true);
  }
}
