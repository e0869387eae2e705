/** The database half of an import.

    Groups are matched by name first and by id second, against a snapshot taken before the
    first statement; credentials and connections are matched by id.  `ImportGroups` is the
    group loop as a fold of one step per group. */
module TransferImport {
  import opened Wrappers
  import opened TransferData

  // ----- the tables and what the schema enforces -----

  predicate UniqueNames(groups: map<Id, Group>) {
    forall a <- groups, b <- groups :: groups[a].name == groups[b].name ==> a == b
  }

  predicate Keyed(rows: Rows) {
    && (forall id <- rows.groups :: rows.groups[id].id == id)
    && (forall id <- rows.credentials :: rows.credentials[id].id == id)
    && (forall id <- rows.connections :: rows.connections[id].id == id)
  }

  /** Primary keys, the unique group name, and the two foreign keys. */
  predicate Schema(rows: Rows) {
    && Keyed(rows)
    && UniqueNames(rows.groups)
    && (forall id <- rows.connections ::
          && (rows.connections[id].group.Some? ==> rows.connections[id].group.value in rows.groups)
          && (rows.connections[id].credential.Some? ==> rows.connections[id].credential.value in rows.credentials))
  }

  /** Jump hosts are stored inside a column, so the schema does not guard them. */
  predicate Intact(rows: Rows) {
    && Schema(rows)
    && forall id <- rows.connections :: rows.connections[id].jump.Some? ==> rows.connections[id].jump.value in rows.connections
  }

  predicate NameTaken(groups: map<Id, Group>, name: string, except: Id) {
    exists id <- groups :: id != except && groups[id].name == name
  }

  function UpdateGroup(groups: map<Id, Group>, id: Id, g: Group): Result<map<Id, Group>, Error> {
    if id !in groups then Ok(groups)
    else if NameTaken(groups, g.name, id) then Err(Statement)
    else Ok(groups[id := groups[id].(name := g.name, columns := g.columns)])
  }

  function InsertGroup(groups: map<Id, Group>, g: Group): Result<map<Id, Group>, Error> {
    if g.id in groups || NameTaken(groups, g.name, g.id) then Err(Statement)
    else Ok(groups[g.id := g])
  }

  /** A statement fails exactly when it would break a key, so names stay unique. */
  lemma StatementsKeepKeys(groups: map<Id, Group>, id: Id, g: Group)
    requires UniqueNames(groups)
    ensures InsertGroup(groups, g).Ok? <==> g.id !in groups && forall x <- groups :: groups[x].name != g.name
    ensures id in groups ==> (UpdateGroup(groups, id, g).Ok? <==> forall x <- groups :: groups[x].name == g.name ==> x == id)
    ensures InsertGroup(groups, g).Ok? ==> UniqueNames(InsertGroup(groups, g).value)
    ensures UpdateGroup(groups, id, g).Ok? ==> UniqueNames(UpdateGroup(groups, id, g).value)
  {
  }

  // ----- groups -----

  /** The index that the snapshot query builds: the id of each local group name. */
  predicate IsNameIndex(local: map<Id, Group>, index: map<string, Id>) {
    && (forall name <- index :: index[name] in local && local[index[name]].name == name)
    && (forall id <- local :: local[id].name in index)
  }

  datatype GroupsDone = GroupsDone(groups: map<Id, Group>, idMap: map<Id, Id>, stats: Stats)

  predicate IsConflict(local: map<Id, Group>, index: map<string, Id>, g: Group) {
    g.id in local || g.name in index
  }

  /** The id names one local group and the name another. */
  predicate Clashes(local: map<Id, Group>, index: map<string, Id>, g: Group) {
    && g.id in local && g.name in index
    && local[g.id].name != g.name && index[g.name] != g.id
  }

  function Target(index: map<string, Id>, g: Group): Id {
    if g.name in index then index[g.name] else g.id
  }

  function ImportGroup(local: map<Id, Group>, index: map<string, Id>, strategy: Strategy, g: Group, st: GroupsDone)
    : Result<GroupsDone, Error>
  {
    if Clashes(local, index, g) then Err(ConflictsByIdAndName)
    else
      var target := Target(index, g);
      var idMap := st.idMap[g.id := target];
      var conflict := IsConflict(local, index, g);
      if conflict && strategy == Skip then
        Ok(GroupsDone(st.groups, idMap, st.stats.(skipped := st.stats.skipped + 1)))
      else
        var written := if conflict then UpdateGroup(st.groups, target, g) else InsertGroup(st.groups, g);
        if written.Err? then Err(written.error)
        else if conflict then Ok(GroupsDone(written.value, idMap, st.stats.(updated := st.stats.updated + 1)))
        else Ok(GroupsDone(written.value, idMap, st.stats.(created := st.stats.created + 1)))
  }

  function ImportGroups(local: map<Id, Group>, index: map<string, Id>, strategy: Strategy, gs: seq<Group>)
    : Result<GroupsDone, Error>
  {
    if gs == [] then Ok(GroupsDone(local, map[], Stats(0, 0, 0)))
    else
      var before := ImportGroups(local, index, strategy, gs[..|gs| - 1]);
      if before.Err? then before else ImportGroup(local, index, strategy, gs[|gs| - 1], before.value)
  }

  lemma {:induction false} ErrorPersists(local: map<Id, Group>, index: map<string, Id>, strategy: Strategy,
          gs: seq<Group>, n: nat)
    requires n <= |gs| && ImportGroups(local, index, strategy, gs[..n]).Err?
    ensures ImportGroups(local, index, strategy, gs) == ImportGroups(local, index, strategy, gs[..n])
    decreases |gs|
  {
    if n == |gs| {
      assert gs[..n] == gs;
    } else {
      assert gs[..|gs| - 1][..n] == gs[..n];
      ErrorPersists(local, index, strategy, gs[..|gs| - 1], n);
    }
  }

  method ApplyGroup(local: map<Id, Group>, index: map<string, Id>, strategy: Strategy, group: Group, st: GroupsDone)
    returns (r: Result<GroupsDone, Error>)
    ensures r == ImportGroup(local, index, strategy, group, st)
  {
    if group.id in local && group.name in index && local[group.id].name != group.name && index[group.name] != group.id {
      return Err(ConflictsByIdAndName);
    }
    var target := if group.name in index then index[group.name] else group.id;
    var idMap := st.idMap[group.id := target];
    var conflict := group.id in local || group.name in index;
    if conflict && strategy == Skip {
      return Ok(GroupsDone(st.groups, idMap, st.stats.(skipped := st.stats.skipped + 1)));
    }
    if conflict {
      var written := UpdateGroup(st.groups, target, group);
      if written.Err? {
        return Err(written.error);
      }
      return Ok(GroupsDone(written.value, idMap, st.stats.(updated := st.stats.updated + 1)));
    }
    var written := InsertGroup(st.groups, group);
    if written.Err? {
      return Err(written.error);
    }
    return Ok(GroupsDone(written.value, idMap, st.stats.(created := st.stats.created + 1)));
  }

  method ApplyGroups(local: map<Id, Group>, index: map<string, Id>, strategy: Strategy, gs: seq<Group>)
    returns (r: Result<GroupsDone, Error>)
    ensures r == ImportGroups(local, index, strategy, gs)
  {
    r := Ok(GroupsDone(local, map[], Stats(0, 0, 0)));
    for i := 0 to |gs|
      invariant r.Ok? && r == ImportGroups(local, index, strategy, gs[..i])
    {
      assert gs[..i + 1][..i] == gs[..i] && gs[..i + 1][i] == gs[i];
      r := ApplyGroup(local, index, strategy, gs[i], r.value);
      if r.Err? {
        ErrorPersists(local, index, strategy, gs, i + 1);
        return;
      }
    }
    assert gs[..|gs|] == gs;
  }

  function CountNewGroups(local: map<Id, Group>, index: map<string, Id>, gs: seq<Group>): nat {
    if gs == [] then 0
    else CountNewGroups(local, index, gs[..|gs| - 1]) + if IsConflict(local, index, gs[|gs| - 1]) then 0 else 1
  }

  /** What holds of the group table after the groups `gs`, given distinct ids and names among them. */
  ghost predicate TableOk(local: map<Id, Group>, strategy: Strategy, gs: seq<Group>, groups: map<Id, Group>) {
    && (forall id <- groups :: groups[id].id == id)
    && UniqueNames(groups)
    && local.Keys <= groups.Keys
    && (forall id <- groups :: id in local || id in GroupIds(gs))
    && (forall id <- groups :: groups[id].name in GroupNames(gs) || (id in local && groups[id] == local[id]))
    && (strategy == Skip ==> forall id <- local :: groups[id] == local[id])
  }

  /** Every imported group has a target, and the target is a row. */
  ghost predicate MapOk(index: map<string, Id>, gs: seq<Group>, st: GroupsDone) {
    && (forall id :: id in st.idMap <==> id in GroupIds(gs))
    && (forall g <- gs :: g.id in st.idMap && st.idMap[g.id] == Target(index, g) && Target(index, g) in st.groups)
  }

  ghost predicate StatsOk(local: map<Id, Group>, index: map<string, Id>, strategy: Strategy, gs: seq<Group>,
          stats: Stats) {
    && stats.created + stats.updated + stats.skipped == |gs|
    && stats.created == CountNewGroups(local, index, gs)
    && (strategy == Skip ==> stats.updated == 0) && (strategy == Overwrite ==> stats.skipped == 0)
  }

  ghost predicate GroupsOk(local: map<Id, Group>, index: map<string, Id>, strategy: Strategy, gs: seq<Group>,
          st: GroupsDone) {
    && TableOk(local, strategy, gs, st.groups)
    && MapOk(index, gs, st)
    && StatsOk(local, index, strategy, gs, st.stats)
  }

  ghost predicate Matched(local: map<Id, Group>, index: map<string, Id>, gs: seq<Group>) {
    && (forall id <- local :: local[id].id == id)
    && UniqueNames(local) && IsNameIndex(local, index)
    && Distinct(GroupIds(gs)) && Distinct(GroupNames(gs))
  }

  lemma Shorter(local: map<Id, Group>, index: map<string, Id>, gs: seq<Group>)
    requires gs != [] && Matched(local, index, gs)
    ensures Matched(local, index, gs[..|gs| - 1])
    ensures GroupIds(gs) == GroupIds(gs[..|gs| - 1]) + [gs[|gs| - 1].id]
    ensures GroupNames(gs) == GroupNames(gs[..|gs| - 1]) + [gs[|gs| - 1].name]
    ensures gs[|gs| - 1].id !in GroupIds(gs[..|gs| - 1])
    ensures gs[|gs| - 1].name !in GroupNames(gs[..|gs| - 1])
  {
    var ids, names := GroupIds(gs), GroupNames(gs);
    var n := |gs| - 1;
    assert ids == GroupIds(gs[..n]) + [gs[n].id];
    assert names == GroupNames(gs[..n]) + [gs[n].name];
    forall i, j | 0 <= i < j < n ensures GroupIds(gs[..n])[i] != GroupIds(gs[..n])[j] && GroupNames(gs[..n])[i] != GroupNames(gs[..n])[j] {
      assert ids[i] != ids[j] && names[i] != names[j];
    }
    forall i | 0 <= i < n ensures GroupIds(gs[..n])[i] != gs[n].id && GroupNames(gs[..n])[i] != gs[n].name {
      assert ids[i] != ids[n] && names[i] != names[n];
    }
  }

  /** The unique-name and primary-key constraints never reject a group of a valid bundle. */
  lemma NameIsFree(local: map<Id, Group>, index: map<string, Id>, strategy: Strategy, gs: seq<Group>, st: GroupsDone)
    requires gs != [] && Matched(local, index, gs)
    requires GroupsOk(local, index, strategy, gs[..|gs| - 1], st)
    requires !Clashes(local, index, gs[|gs| - 1])
    ensures Free(local, index, gs[|gs| - 1], st.groups)
  {
    Shorter(local, index, gs);
    var g := gs[|gs| - 1];
    forall id <- st.groups | st.groups[id].name == g.name
      ensures id == Target(index, g)
    {
      assert id in local && local[id].name == g.name;
      assert index[g.name] in local && local[index[g.name]].name == g.name;
    }
  }

  lemma {:induction false} NoClashOnSuccess(local: map<Id, Group>, index: map<string, Id>, strategy: Strategy,
          gs: seq<Group>, k: nat)
    requires ImportGroups(local, index, strategy, gs).Ok? && k < |gs|
    ensures !Clashes(local, index, gs[k])
  {
    if k < |gs| - 1 {
      assert gs[..|gs| - 1][k] == gs[k];
      NoClashOnSuccess(local, index, strategy, gs[..|gs| - 1], k);
    }
  }

  lemma {:induction false} GroupsImported(local: map<Id, Group>, index: map<string, Id>, strategy: Strategy,
          gs: seq<Group>)
    requires Matched(local, index, gs)
    ensures var r := ImportGroups(local, index, strategy, gs);
            && (r.Err? ==> r.error == ConflictsByIdAndName && exists k :: 0 <= k < |gs| && Clashes(local, index, gs[k]))
            && (r.Ok? ==> GroupsOk(local, index, strategy, gs, r.value))
  {
    if gs != [] {
      var n := |gs| - 1;
      Shorter(local, index, gs);
      GroupsImported(local, index, strategy, gs[..n]);
      var before := ImportGroups(local, index, strategy, gs[..n]);
      if before.Err? {
        var k :| 0 <= k < n && Clashes(local, index, gs[..n][k]);
        assert Clashes(local, index, gs[k]);
      } else if Clashes(local, index, gs[n]) {
      } else {
        NameIsFree(local, index, strategy, gs, before.value);
        GroupStep(local, index, strategy, gs, before.value);
      }
    }
  }

  /** One more group written under a free name keeps the table in order. */
  lemma WriteKeepsTable(local: map<Id, Group>, strategy: Strategy, gs: seq<Group>, groups: map<Id, Group>,
          target: Id, row: Group)
    requires gs != [] && TableOk(local, strategy, gs[..|gs| - 1], groups)
    requires GroupIds(gs) == GroupIds(gs[..|gs| - 1]) + [gs[|gs| - 1].id]
    requires GroupNames(gs) == GroupNames(gs[..|gs| - 1]) + [gs[|gs| - 1].name]
    requires row.id == target && row.name == gs[|gs| - 1].name && !NameTaken(groups, row.name, target)
    requires target in groups || target == gs[|gs| - 1].id
    requires strategy == Skip ==> target !in local
    ensures TableOk(local, strategy, gs, groups[target := row])
  {
  }

  /** What the statement for the last group leaves in the table. */
  lemma StepWrites(local: map<Id, Group>, index: map<string, Id>, strategy: Strategy, g: Group, st: GroupsDone)
    requires Free(local, index, g, st.groups)
    requires IsConflict(local, index, g) ==> Target(index, g) in st.groups
    ensures var r := ImportGroup(local, index, strategy, g, st);
            r.Ok? && r.value.groups == if !IsConflict(local, index, g) then st.groups[g.id := g]
                                       else if strategy == Skip then st.groups
                                       else var target := Target(index, g);
                                            st.groups[target := st.groups[target].(name := g.name, columns := g.columns)]
  {
  }

  lemma SkipKeepsTable(local: map<Id, Group>, strategy: Strategy, gs: seq<Group>, groups: map<Id, Group>)
    requires gs != [] && TableOk(local, strategy, gs[..|gs| - 1], groups)
    requires GroupIds(gs) == GroupIds(gs[..|gs| - 1]) + [gs[|gs| - 1].id]
    requires GroupNames(gs) == GroupNames(gs[..|gs| - 1]) + [gs[|gs| - 1].name]
    ensures TableOk(local, strategy, gs, groups)
  {
    hide UniqueNames, GroupIds, GroupNames;
  }

  /** What a row in the table and a target are, as far as writing it needs. */
  lemma TargetInTable(local: map<Id, Group>, index: map<string, Id>, strategy: Strategy, gs: seq<Group>,
          groups: map<Id, Group>, g: Group)
    requires TableOk(local, strategy, gs, groups) && Matched(local, index, gs + [g])
    ensures IsConflict(local, index, g) ==> var target := Target(index, g); target in groups && groups[target].id == target
    ensures !IsConflict(local, index, g) ==> Target(index, g) == g.id && g.id !in local
  {
    hide UniqueNames, GroupIds, GroupNames, Distinct;
  }

  lemma StepKeepsTable(local: map<Id, Group>, index: map<string, Id>, strategy: Strategy, gs: seq<Group>,
          st: GroupsDone)
    requires gs != [] && Matched(local, index, gs)
    requires TableOk(local, strategy, gs[..|gs| - 1], st.groups)
    requires Free(local, index, gs[|gs| - 1], st.groups)
    ensures var r := ImportGroup(local, index, strategy, gs[|gs| - 1], st);
            r.Ok? && TableOk(local, strategy, gs, r.value.groups)
  {
    hide TableOk, Matched, ImportGroup, NameTaken, GroupIds, GroupNames, Clashes, IsConflict;
    Shorter(local, index, gs);
    var g := gs[|gs| - 1];
    assert gs[..|gs| - 1] + [g] == gs;
    TargetInTable(local, index, strategy, gs[..|gs| - 1], st.groups, g);
    StepWrites(local, index, strategy, g, st);
    if !IsConflict(local, index, g) {
      WriteKeepsTable(local, strategy, gs, st.groups, g.id, g);
    } else if strategy == Overwrite {
      var target := Target(index, g);
      WriteKeepsTable(local, strategy, gs, st.groups, target, st.groups[target].(name := g.name, columns := g.columns));
    } else {
      SkipKeepsTable(local, strategy, gs, st.groups);
    }
  }

  lemma StepKeepsMap(local: map<Id, Group>, index: map<string, Id>, strategy: Strategy, gs: seq<Group>, st: GroupsDone)
    requires gs != [] && Matched(local, index, gs)
    requires MapOk(index, gs[..|gs| - 1], st) && local.Keys <= st.groups.Keys
    requires ImportGroup(local, index, strategy, gs[|gs| - 1], st).Ok?
    ensures MapOk(index, gs, ImportGroup(local, index, strategy, gs[|gs| - 1], st).value)
  {
    Shorter(local, index, gs);
    var n := |gs| - 1;
    var after := ImportGroup(local, index, strategy, gs[n], st).value;
    assert st.groups.Keys <= after.groups.Keys;
    forall k | 0 <= k < |gs|
      ensures gs[k].id in after.idMap && after.idMap[gs[k].id] == Target(index, gs[k]) && Target(index, gs[k]) in after.groups
    {
      if k < n {
        assert gs[..n][k] == gs[k] && GroupIds(gs[..n])[k] == gs[k].id;
      }
    }
  }

  /** The statement for `g` meets no constraint. */
  ghost predicate Free(local: map<Id, Group>, index: map<string, Id>, g: Group, groups: map<Id, Group>) {
    && !Clashes(local, index, g)
    && !NameTaken(groups, g.name, Target(index, g))
    && (!IsConflict(local, index, g) ==> g.id !in groups)
  }

  lemma StepKeepsStats(local: map<Id, Group>, index: map<string, Id>, strategy: Strategy, gs: seq<Group>,
          st: GroupsDone)
    requires gs != [] && StatsOk(local, index, strategy, gs[..|gs| - 1], st.stats)
    requires ImportGroup(local, index, strategy, gs[|gs| - 1], st).Ok?
    ensures StatsOk(local, index, strategy, gs, ImportGroup(local, index, strategy, gs[|gs| - 1], st).value.stats)
  {
  }

  lemma GroupStep(local: map<Id, Group>, index: map<string, Id>, strategy: Strategy, gs: seq<Group>, st: GroupsDone)
    requires gs != [] && Matched(local, index, gs)
    requires GroupsOk(local, index, strategy, gs[..|gs| - 1], st)
    requires Free(local, index, gs[|gs| - 1], st.groups)
    ensures var r := ImportGroup(local, index, strategy, gs[|gs| - 1], st);
            r.Ok? && GroupsOk(local, index, strategy, gs, r.value)
  {
    StepKeepsTable(local, index, strategy, gs, st);
    StepKeepsMap(local, index, strategy, gs, st);
    StepKeepsStats(local, index, strategy, gs, st);
  }

  /** The row an imported group leaves: a conflicting row keeps its id and creation time. */
  function MergedGroup(local: map<Id, Group>, index: map<string, Id>, g: Group): Group
    requires IsNameIndex(local, index)
  {
    if IsConflict(local, index, g) then local[Target(index, g)].(name := g.name, columns := g.columns) else g
  }

  lemma StepTouchesTarget(local: map<Id, Group>, index: map<string, Id>, strategy: Strategy, g: Group,
          st: GroupsDone, id: Id)
    requires ImportGroup(local, index, strategy, g, st).Ok? && Target(index, g) != id
    ensures var after := ImportGroup(local, index, strategy, g, st).value.groups;
            (id in after <==> id in st.groups) && (id in after ==> after[id] == st.groups[id])
  {
  }

  lemma StepWritesTarget(local: map<Id, Group>, index: map<string, Id>, strategy: Strategy, g: Group, st: GroupsDone)
    requires IsNameIndex(local, index) && ImportGroup(local, index, strategy, g, st).Ok?
    requires strategy == Overwrite || !IsConflict(local, index, g)
    requires IsConflict(local, index, g) ==>
               var id := Target(index, g);
               id in st.groups && st.groups[id].id == local[id].id && st.groups[id].createdAt == local[id].createdAt
    ensures var after := ImportGroup(local, index, strategy, g, st).value.groups;
            Target(index, g) in after && after[Target(index, g)] == MergedGroup(local, index, g)
  {
  }

  /** A row that no group of `gs` targets is untouched. */
  lemma {:induction false} GroupKept(local: map<Id, Group>, index: map<string, Id>, strategy: Strategy,
          gs: seq<Group>, id: Id)
    requires IsNameIndex(local, index) && ImportGroups(local, index, strategy, gs).Ok?
    requires forall k :: 0 <= k < |gs| ==> Target(index, gs[k]) != id
    ensures var groups := ImportGroups(local, index, strategy, gs).value.groups;
            (id in groups <==> id in local) && (id in local ==> groups[id] == local[id])
  {
    if gs != [] {
      var n := |gs| - 1;
      forall k | 0 <= k < n ensures Target(index, gs[..n][k]) != id {
        assert gs[..n][k] == gs[k];
      }
      GroupKept(local, index, strategy, gs[..n], id);
      StepTouchesTarget(local, index, strategy, gs[n], ImportGroups(local, index, strategy, gs[..n]).value, id);
    }
  }

  /** Every target row is only ever renamed and rewritten: its id and creation time stay. */
  lemma {:induction false} TargetRow(local: map<Id, Group>, index: map<string, Id>, strategy: Strategy,
          gs: seq<Group>, id: Id)
    requires IsNameIndex(local, index) && id in local && ImportGroups(local, index, strategy, gs).Ok?
    ensures var groups := ImportGroups(local, index, strategy, gs).value.groups;
            id in groups && groups[id].id == local[id].id && groups[id].createdAt == local[id].createdAt
  {
    if gs != [] {
      TargetRow(local, index, strategy, gs[..|gs| - 1], id);
    }
  }

  lemma ConflictIsLocal(local: map<Id, Group>, index: map<string, Id>, g: Group)
    requires IsNameIndex(local, index) && IsConflict(local, index, g)
    ensures Target(index, g) in local
  {
  }

  /** The last imported group written to a row decides what the row says. */
  lemma {:induction false} LastGroupWins(local: map<Id, Group>, index: map<string, Id>, strategy: Strategy,
          gs: seq<Group>, i: nat)
    requires IsNameIndex(local, index) && i < |gs| && ImportGroups(local, index, strategy, gs).Ok?
    requires strategy == Overwrite || !IsConflict(local, index, gs[i])
    requires forall j :: i < j < |gs| ==> Target(index, gs[j]) != Target(index, gs[i])
    ensures var groups := ImportGroups(local, index, strategy, gs).value.groups;
            Target(index, gs[i]) in groups && groups[Target(index, gs[i])] == MergedGroup(local, index, gs[i])
  {
    hide ImportGroup, MergedGroup, IsNameIndex, Target, IsConflict;
    var n := |gs| - 1;
    var before := ImportGroups(local, index, strategy, gs[..n]).value;
    var g := gs[i];
    assert i < n ==> gs[..n][i] == g;
    if i == n {
      if IsConflict(local, index, gs[n]) {
        ConflictIsLocal(local, index, gs[n]);
        TargetRow(local, index, strategy, gs[..n], Target(index, gs[n]));
      }
      StepWritesTarget(local, index, strategy, gs[n], before);
    } else {
      forall j | i < j < n ensures Target(index, gs[..n][j]) != Target(index, g) {
        assert gs[..n][j] == gs[j];
      }
      LastGroupWins(local, index, strategy, gs[..n], i);
      StepTouchesTarget(local, index, strategy, gs[n], before, Target(index, g));
    }
  }

  /** Two imported groups land on one local group exactly when one of them keeps the id of a
      local group under a name no local group has, and the other has that local group's name. */
  lemma SharedTargets(local: map<Id, Group>, index: map<string, Id>, gs: seq<Group>, i: nat, j: nat)
    requires Matched(local, index, gs) && i < |gs| && j < |gs| && i != j
    ensures Target(index, gs[i]) == Target(index, gs[j])
       <==> || (gs[i].name !in index && gs[j].name in index && local[index[gs[j].name]].id == gs[i].id)
            || (gs[j].name !in index && gs[i].name in index && local[index[gs[i].name]].id == gs[j].id)
  {
    var ids, names := GroupIds(gs), GroupNames(gs);
    assert ids[i] != ids[j] && names[i] != names[j];
  }

  /** A bundle can rename a local group away and reuse its old name: both imported groups
      then share the one local row, which ends with the second name. */
  lemma TwoGroupsOneRow()
    ensures var x := Group("a", "x", "", "");
            var local := map["a" := x];
            var index := map["x" := "a"];
            var gs := [Group("a", "z", "", ""), Group("c", "x", "", "")];
            && Matched(local, index, gs)
            && var r := ImportGroups(local, index, Overwrite, gs);
            r.Ok? && r.value.groups.Keys == {"a"} && r.value.groups["a"].name == "x"
            && r.value.idMap == map["a" := "a", "c" := "a"]
  {
    var x := Group("a", "x", "", "");
    var local := map["a" := x];
    var index := map["x" := "a"];
    var g0, g1 := Group("a", "z", "", ""), Group("c", "x", "", "");
    var gs := [g0, g1];
    assert gs[..1] == [g0] && [g0][..0] == [];
    assert GroupIds(gs) == ["a", "c"] && GroupNames(gs) == ["z", "x"];
    var r0 := ImportGroups(local, index, Overwrite, []);
    assert !NameTaken(local, "z", "a");
    var r1 := ImportGroups(local, index, Overwrite, [g0]);
    assert r1 == ImportGroup(local, index, Overwrite, g0, r0.value);
    assert r1.value.groups == map["a" := x.(name := "z")];
    assert !NameTaken(r1.value.groups, "x", "a");
    assert ImportGroups(local, index, Overwrite, gs) == ImportGroup(local, index, Overwrite, g1, r1.value);
  }

  // ----- credentials and connections -----

  /** The row an upsert leaves: a conflicting row keeps its creation time. */
  function MergedCredential(local: map<Id, Credential>, strategy: Strategy, c: Credential): Credential {
    if c.id !in local then c
    else if strategy == Skip then local[c.id]
    else c.(createdAt := local[c.id].createdAt)
  }

  /** An imported connection joins the group that its own group was mapped to. */
  function Remapped(idMap: map<Id, Id>, c: Connection): Connection {
    c.(group := if c.group.Some? && c.group.value in idMap then Some(idMap[c.group.value]) else None)
  }

  function MergedConnection(local: map<Id, Connection>, strategy: Strategy, idMap: map<Id, Id>,
          c: Connection): Connection {
    if c.id !in local then Remapped(idMap, c)
    else if strategy == Skip then local[c.id]
    else Remapped(idMap, c).(createdAt := local[c.id].createdAt)
  }

  /** The counts after the first `n` records with these ids. */
  function StatsAfter(local: set<Id>, strategy: Strategy, ids: seq<Id>, n: nat): Stats
    requires n <= |ids|
  {
    if n == 0 then Stats(0, 0, 0)
    else
      var before := StatsAfter(local, strategy, ids, n - 1);
      if ids[n - 1] !in local then before.(created := before.created + 1)
      else if strategy == Skip then before.(skipped := before.skipped + 1)
      else before.(updated := before.updated + 1)
  }

  /** A record is written unless it is skipped. */
  predicate Written(local: set<Id>, strategy: Strategy, id: Id) {
    id !in local || strategy == Overwrite
  }

  /** The rows after the first `n` credentials, one upsert each unless skipped. */
  function MergeCredentials(local: map<Id, Credential>, strategy: Strategy, cs: seq<Credential>,
          n: nat): map<Id, Credential>
    requires n <= |cs|
  {
    if n == 0 then local
    else
      var rows := MergeCredentials(local, strategy, cs, n - 1);
      if !Written(local.Keys, strategy, cs[n - 1].id) then rows
      else UpsertCredential(rows, cs[n - 1])
  }

  function UpsertCredential(rows: map<Id, Credential>, c: Credential): map<Id, Credential> {
    rows[c.id := if c.id in rows then c.(createdAt := rows[c.id].createdAt) else c]
  }

  predicate MentionsCredential(cs: seq<Credential>, n: nat, id: Id)
    requires n <= |cs|
  {
    exists k :: 0 <= k < n && cs[k].id == id
  }

  /** A row that the bundle does not mention is untouched. */
  lemma {:induction false} CredentialKept(local: map<Id, Credential>, strategy: Strategy, cs: seq<Credential>,
          n: nat, id: Id)
    requires n <= |cs| && !MentionsCredential(cs, n, id)
    ensures var rows := MergeCredentials(local, strategy, cs, n);
            (id in rows <==> id in local) && (id in local ==> rows[id] == local[id])
  {
    if n > 0 {
      assert cs[n - 1].id != id;
      CredentialKept(local, strategy, cs, n - 1, id);
    }
  }

  /** A row that the bundle mentions is the merge of the local row and the imported one. */
  lemma {:induction false} CredentialImported(local: map<Id, Credential>, strategy: Strategy,
          cs: seq<Credential>, n: nat, k: nat)
    requires k < n <= |cs| && Distinct(CredentialIds(cs))
    ensures var rows := MergeCredentials(local, strategy, cs, n);
            cs[k].id in rows && rows[cs[k].id] == MergedCredential(local, strategy, cs[k])
  {
    if k == n - 1 {
      forall j | 0 <= j < k ensures cs[j].id != cs[k].id {
        assert CredentialIds(cs)[j] != CredentialIds(cs)[k];
      }
      CredentialKept(local, strategy, cs, k, cs[k].id);
    } else {
      assert CredentialIds(cs)[k] != CredentialIds(cs)[n - 1];
      CredentialImported(local, strategy, cs, n - 1, k);
    }
  }

  /** The secret slots of the first `n` credentials that are written. */
  function CredentialSlotsWritten(local: set<Id>, strategy: Strategy, cs: seq<Credential>, n: nat): set<Id>
    requires n <= |cs|
  {
    if n == 0 then {}
    else
      CredentialSlotsWritten(local, strategy, cs, n - 1)
      + if cs[n - 1].slot.Some? && Written(local, strategy, cs[n - 1].id) then {cs[n - 1].slot.value} else {}
  }

  method ApplyCredentials(local: map<Id, Credential>, strategy: Strategy, cs: seq<Credential>)
    returns (rows: map<Id, Credential>, stats: Stats, slots: set<Id>)
    ensures rows == MergeCredentials(local, strategy, cs, |cs|)
    ensures stats == StatsAfter(local.Keys, strategy, CredentialIds(cs), |cs|)
    ensures slots == CredentialSlotsWritten(local.Keys, strategy, cs, |cs|)
  {
    rows, stats, slots := local, Stats(0, 0, 0), {};
    for i := 0 to |cs|
      invariant rows == MergeCredentials(local, strategy, cs, i)
      invariant stats == StatsAfter(local.Keys, strategy, CredentialIds(cs), i)
      invariant slots == CredentialSlotsWritten(local.Keys, strategy, cs, i)
    {
      var credential := cs[i];
      var conflict := credential.id in local;
      if conflict && strategy == Skip {
        stats := stats.(skipped := stats.skipped + 1);
        continue;
      }
      if credential.slot.Some? {
        slots := slots + {credential.slot.value};
      }
      rows := UpsertCredential(rows, credential);
      if conflict {
        stats := stats.(updated := stats.updated + 1);
      } else {
        stats := stats.(created := stats.created + 1);
      }
    }
  }

  /** The rows after the first `n` connections, one upsert each unless skipped. */
  function MergeConnections(local: map<Id, Connection>, strategy: Strategy, idMap: map<Id, Id>,
          cs: seq<Connection>, n: nat): map<Id, Connection>
    requires n <= |cs|
  {
    if n == 0 then local
    else
      var rows := MergeConnections(local, strategy, idMap, cs, n - 1);
      if !Written(local.Keys, strategy, cs[n - 1].id) then rows
      else UpsertConnection(rows, Remapped(idMap, cs[n - 1]))
  }

  function UpsertConnection(rows: map<Id, Connection>, c: Connection): map<Id, Connection> {
    rows[c.id := if c.id in rows then c.(createdAt := rows[c.id].createdAt) else c]
  }

  predicate MentionsConnection(cs: seq<Connection>, n: nat, id: Id)
    requires n <= |cs|
  {
    exists k :: 0 <= k < n && cs[k].id == id
  }

  /** A row that the bundle does not mention is untouched. */
  lemma {:induction false} ConnectionKept(local: map<Id, Connection>, strategy: Strategy, idMap: map<Id, Id>,
          cs: seq<Connection>, n: nat, id: Id)
    requires n <= |cs| && !MentionsConnection(cs, n, id)
    ensures var rows := MergeConnections(local, strategy, idMap, cs, n);
            (id in rows <==> id in local) && (id in local ==> rows[id] == local[id])
  {
    if n > 0 {
      assert cs[n - 1].id != id;
      ConnectionKept(local, strategy, idMap, cs, n - 1, id);
    }
  }

  /** A row that the bundle mentions is the merge of the local row and the imported one. */
  lemma {:induction false} ConnectionImported(local: map<Id, Connection>, strategy: Strategy,
          idMap: map<Id, Id>, cs: seq<Connection>, n: nat, k: nat)
    requires k < n <= |cs| && Distinct(ConnectionIds(cs))
    ensures var rows := MergeConnections(local, strategy, idMap, cs, n);
            cs[k].id in rows && rows[cs[k].id] == MergedConnection(local, strategy, idMap, cs[k])
  {
    if k == n - 1 {
      forall j | 0 <= j < k ensures cs[j].id != cs[k].id {
        assert ConnectionIds(cs)[j] != ConnectionIds(cs)[k];
      }
      ConnectionKept(local, strategy, idMap, cs, k, cs[k].id);
    } else {
      assert ConnectionIds(cs)[k] != ConnectionIds(cs)[n - 1];
      ConnectionImported(local, strategy, idMap, cs, n - 1, k);
    }
  }

  /** The secret slots of the first `n` connections that are written. */
  function ConnectionSlotsWritten(local: set<Id>, strategy: Strategy, cs: seq<Connection>, n: nat): set<Id>
    requires n <= |cs|
  {
    if n == 0 then {}
    else
      ConnectionSlotsWritten(local, strategy, cs, n - 1)
      + if cs[n - 1].slot.Some? && Written(local, strategy, cs[n - 1].id) then {cs[n - 1].slot.value} else {}
  }

  /** The foreign keys of one connection row. */
  predicate ForeignKeys(groups: set<Id>, credentials: set<Id>, c: Connection) {
    && (c.group.Some? ==> c.group.value in groups)
    && (c.credential.Some? ==> c.credential.value in credentials)
  }

  /** The foreign keys of every written connection among the first `n` hold. */
  predicate KeysHold(local: set<Id>, groups: set<Id>, credentials: set<Id>, idMap: map<Id, Id>,
          strategy: Strategy, cs: seq<Connection>, n: nat)
    requires n <= |cs|
  {
    n == 0
    || (&& KeysHold(local, groups, credentials, idMap, strategy, cs, n - 1)
        && (Written(local, strategy, cs[n - 1].id) ==> ForeignKeys(groups, credentials, Remapped(idMap, cs[n - 1]))))
  }

  lemma {:induction false} KeyBreaks(local: set<Id>, groups: set<Id>, credentials: set<Id>, idMap: map<Id, Id>,
          strategy: Strategy, cs: seq<Connection>, m: nat, n: nat)
    requires m <= n <= |cs| && !KeysHold(local, groups, credentials, idMap, strategy, cs, m)
    ensures !KeysHold(local, groups, credentials, idMap, strategy, cs, n)
  {
    if m < n {
      KeyBreaks(local, groups, credentials, idMap, strategy, cs, m, n - 1);
    }
  }

  lemma {:induction false} AllKeysHold(local: set<Id>, groups: set<Id>, credentials: set<Id>,
          idMap: map<Id, Id>, strategy: Strategy, cs: seq<Connection>, n: nat)
    requires n <= |cs|
    requires forall k :: 0 <= k < n ==> ForeignKeys(groups, credentials, Remapped(idMap, cs[k]))
    ensures KeysHold(local, groups, credentials, idMap, strategy, cs, n)
  {
    if n > 0 {
      AllKeysHold(local, groups, credentials, idMap, strategy, cs, n - 1);
    }
  }

  method ApplyConnections(local: map<Id, Connection>, groups: set<Id>, credentials: set<Id>, idMap: map<Id, Id>,
                          strategy: Strategy, cs: seq<Connection>, slotsBefore: set<Id>)
    returns (ok: bool, rows: map<Id, Connection>, stats: Stats, slots: set<Id>)
    ensures ok <==> KeysHold(local.Keys, groups, credentials, idMap, strategy, cs, |cs|)
    ensures ok ==> rows == MergeConnections(local, strategy, idMap, cs, |cs|)
    ensures ok ==> stats == StatsAfter(local.Keys, strategy, ConnectionIds(cs), |cs|)
    ensures ok ==> slots == slotsBefore + ConnectionSlotsWritten(local.Keys, strategy, cs, |cs|)
  {
    rows, stats, slots := local, Stats(0, 0, 0), slotsBefore;
    for i := 0 to |cs|
      invariant rows == MergeConnections(local, strategy, idMap, cs, i)
      invariant stats == StatsAfter(local.Keys, strategy, ConnectionIds(cs), i)
      invariant slots == slotsBefore + ConnectionSlotsWritten(local.Keys, strategy, cs, i)
      invariant KeysHold(local.Keys, groups, credentials, idMap, strategy, cs, i)
    {
      var connection := cs[i];
      var conflict := connection.id in local;
      if conflict && strategy == Skip {
        stats := stats.(skipped := stats.skipped + 1);
        continue;
      }
      if connection.slot.Some? {
        slots := slots + {connection.slot.value};
      }
      var row := Remapped(idMap, connection);
      if !ForeignKeys(groups, credentials, row) {
        KeyBreaks(local.Keys, groups, credentials, idMap, strategy, cs, i + 1, |cs|);
        return false, rows, stats, slots;
      }
      rows := UpsertConnection(rows, row);
      if conflict {
        stats := stats.(updated := stats.updated + 1);
      } else {
        stats := stats.(created := stats.created + 1);
      }
    }
    ok := true;
  }

  // ----- the whole database half -----

  datatype Applied = Applied(rows: Rows, groups: Stats, credentials: Stats, connections: Stats, slots: set<Id>)

  method QueryNameIndex(groups: map<Id, Group>) returns (index: map<string, Id>)
    requires UniqueNames(groups)
    ensures IsNameIndex(groups, index)
  {
    index := map[];
    var ids := groups.Keys;
    while ids != {}
      invariant ids <= groups.Keys
      invariant forall name <- index :: index[name] in groups && groups[index[name]].name == name
      invariant forall id <- groups :: id in ids || groups[id].name in index
      decreases ids
    {
      var id :| id in ids;
      index := index[groups[id].name := id];
      ids := ids - {id};
    }
  }

  /** The id of `g` names one local group and its name another. */
  predicate Ambiguous(groups: map<Id, Group>, g: Group) {
    && g.id in groups && groups[g.id].name != g.name
    && exists id <- groups :: groups[id].name == g.name
  }

  /** The group each imported group stands for after the import. */
  ghost predicate MapsGroups(local: map<Id, Group>, gs: seq<Group>, groups: map<Id, Group>, idMap: map<Id, Id>) {
    && (forall g <- gs :: g.id in idMap && idMap[g.id] in groups)
    && (forall g <- gs, id <- local :: local[id].name == g.name ==> idMap[g.id] == id)
    && (forall g <- gs :: (forall id <- local :: local[id].name != g.name) ==> idMap[g.id] == g.id)
  }

  /** What a successful import of valid data has done to the tables. */
  ghost predicate Imported(rows: Rows, data: Data, strategy: Strategy, idMap: map<Id, Id>, done: Applied) {
    && TableOk(rows.groups, strategy, data.groups, done.rows.groups)
    && MapsGroups(rows.groups, data.groups, done.rows.groups, idMap)
    && done.rows.credentials == MergeCredentials(rows.credentials, strategy, data.credentials, |data.credentials|)
    && done.rows.connections == MergeConnections(rows.connections, strategy, idMap, data.connections, |data.connections|)
    && done.slots == CredentialSlotsWritten(rows.credentials.Keys, strategy, data.credentials, |data.credentials|)
                     + ConnectionSlotsWritten(rows.connections.Keys, strategy, data.connections, |data.connections|)
  }

  // ----- the preview -----

  datatype ItemStats = ItemStats(total: nat, added: nat, conflicts: nat)
  datatype Preview = Preview(groups: ItemStats, credentials: ItemStats, connections: ItemStats)

  function ItemStatsOf(total: nat, conflicts: nat): ItemStats {
    ItemStats(total, if conflicts <= total then total - conflicts else 0, conflicts)
  }

  predicate GroupConflict(local: map<Id, Group>, g: Group) {
    g.id in local || exists id <- local :: local[id].name == g.name
  }

  function Conflicts(local: set<Id>, ids: seq<Id>): nat {
    |set k | 0 <= k < |ids| && ids[k] in local|
  }

  function PreviewOf(rows: Rows, data: Data): Preview {
    Preview(
      ItemStatsOf(|data.groups|, |set k | 0 <= k < |data.groups| && GroupConflict(rows.groups, data.groups[k])|),
      ItemStatsOf(|data.credentials|, Conflicts(rows.credentials.Keys, CredentialIds(data.credentials))),
      ItemStatsOf(|data.connections|, Conflicts(rows.connections.Keys, ConnectionIds(data.connections))))
  }

  lemma {:induction false} NewAndConflictingGroups(local: map<Id, Group>, index: map<string, Id>, gs: seq<Group>)
    requires IsNameIndex(local, index)
    ensures CountNewGroups(local, index, gs) + |set k | 0 <= k < |gs| && GroupConflict(local, gs[k])| == |gs|
  {
    if gs != [] {
      var n := |gs| - 1;
      NewAndConflictingGroups(local, index, gs[..n]);
      var before := set k | 0 <= k < n && GroupConflict(local, gs[..n][k]);
      var after := set k | 0 <= k < |gs| && GroupConflict(local, gs[k]);
      assert GroupConflict(local, gs[n]) <==> IsConflict(local, index, gs[n]);
      assert after == if GroupConflict(local, gs[n]) then before + {n} else before;
    }
  }

  ghost predicate AddsUp(stats: Stats, item: ItemStats, strategy: Strategy) {
    && stats.created + stats.updated + stats.skipped == item.total
    && stats.created == item.added
    && stats.updated == (if strategy == Overwrite then item.conflicts else 0)
    && stats.skipped == (if strategy == Skip then item.conflicts else 0)
  }

  /** The counts an import reports are the ones the preview promised. */
  ghost predicate Reported(rows: Rows, data: Data, strategy: Strategy, done: Applied) {
    var preview := PreviewOf(rows, data);
    && AddsUp(done.groups, preview.groups, strategy)
    && AddsUp(done.credentials, preview.credentials, strategy)
    && AddsUp(done.connections, preview.connections, strategy)
  }

  lemma OneMoreConflict(local: set<Id>, ids: seq<Id>, n: nat)
    requires 0 < n <= |ids|
    ensures |set k | 0 <= k < n && ids[k] in local| ==
            |set k | 0 <= k < n - 1 && ids[k] in local| + if ids[n - 1] in local then 1 else 0
  {
    var before, after := set k | 0 <= k < n - 1 && ids[k] in local, set k | 0 <= k < n && ids[k] in local;
    assert after == if ids[n - 1] in local then before + {n - 1} else before;
  }

  lemma {:induction false} CountsMatchPreview(local: set<Id>, strategy: Strategy, ids: seq<Id>, n: nat)
    requires n <= |ids|
    ensures AddsUp(StatsAfter(local, strategy, ids, n), ItemStatsOf(n, |set k | 0 <= k < n && ids[k] in local|), strategy)
  {
    if n > 0 {
      CountsMatchPreview(local, strategy, ids, n - 1);
      OneMoreConflict(local, ids, n);
    }
  }

  lemma GroupCountsMatchPreview(local: map<Id, Group>, index: map<string, Id>, strategy: Strategy,
          gs: seq<Group>, stats: Stats)
    requires IsNameIndex(local, index) && StatsOk(local, index, strategy, gs, stats)
    ensures AddsUp(stats, ItemStatsOf(|gs|, |set k | 0 <= k < |gs| && GroupConflict(local, gs[k])|), strategy)
  {
    NewAndConflictingGroups(local, index, gs);
  }

  // ----- putting the loops together -----

  lemma ClashIsAmbiguity(local: map<Id, Group>, index: map<string, Id>, g: Group)
    requires UniqueNames(local) && IsNameIndex(local, index)
    ensures Clashes(local, index, g) <==> Ambiguous(local, g)
  {
  }

  lemma TargetsMap(local: map<Id, Group>, index: map<string, Id>, gs: seq<Group>, st: GroupsDone)
    requires Matched(local, index, gs) && MapOk(index, gs, st)
    ensures MapsGroups(local, gs, st.groups, st.idMap)
  {
  }

  /** An imported connection refers to a group and a credential that exist. */
  lemma ImportedKeysResolve(rows: Rows, data: Data, strategy: Strategy, groups: map<Id, Group>,
          idMap: map<Id, Id>, c: Connection)
    requires ValidData(data) && c in data.connections
    requires MapsGroups(rows.groups, data.groups, groups, idMap)
    ensures ForeignKeys(groups.Keys, MergeCredentials(rows.credentials, strategy, data.credentials, |data.credentials|).Keys,
                        Remapped(idMap, c))
  {
    assert Resolves(c.group, GroupIds(data.groups)) && Resolves(c.credential, CredentialIds(data.credentials));
    if c.group.Some? {
      var k :| 0 <= k < |data.groups| && GroupIds(data.groups)[k] == c.group.value;
      assert data.groups[k] in data.groups;
    }
    if c.credential.Some? {
      var k :| 0 <= k < |data.credentials| && CredentialIds(data.credentials)[k] == c.credential.value;
      CredentialImported(rows.credentials, strategy, data.credentials, |data.credentials|, k);
    }
  }

  lemma ConnectionKeysHold(rows: Rows, data: Data, strategy: Strategy, groups: map<Id, Group>, idMap: map<Id, Id>)
    requires ValidData(data) && MapsGroups(rows.groups, data.groups, groups, idMap)
    ensures KeysHold(rows.connections.Keys, groups.Keys,
                     MergeCredentials(rows.credentials, strategy, data.credentials, |data.credentials|).Keys,
                     idMap, strategy, data.connections, |data.connections|)
  {
    var cs := data.connections;
    var credentials := MergeCredentials(rows.credentials, strategy, data.credentials, |data.credentials|);
    forall k | 0 <= k < |cs| ensures ForeignKeys(groups.Keys, credentials.Keys, Remapped(idMap, cs[k])) {
      ImportedKeysResolve(rows, data, strategy, groups, idMap, cs[k]);
    }
    AllKeysHold(rows.connections.Keys, groups.Keys, credentials.Keys, idMap, strategy, cs, |cs|);
  }

  /** The whole database half as a function of the tables, their name index and the bundle. */
  function ImportRows(rows: Rows, index: map<string, Id>, data: Data, strategy: Strategy): Result<Applied, Error> {
    var groups := ImportGroups(rows.groups, index, strategy, data.groups);
    if groups.Err? then Err(groups.error)
    else
      var cs, ds := data.credentials, data.connections;
      var credentials := MergeCredentials(rows.credentials, strategy, cs, |cs|);
      if !KeysHold(rows.connections.Keys, groups.value.groups.Keys, credentials.Keys, groups.value.idMap, strategy, ds, |ds|) then
        Err(Statement)
      else
        Ok(Applied(
          Rows(groups.value.groups, credentials, MergeConnections(rows.connections, strategy, groups.value.idMap, ds, |ds|)),
          groups.value.stats,
          StatsAfter(rows.credentials.Keys, strategy, CredentialIds(cs), |cs|),
          StatsAfter(rows.connections.Keys, strategy, ConnectionIds(ds), |ds|),
          CredentialSlotsWritten(rows.credentials.Keys, strategy, cs, |cs|)
          + ConnectionSlotsWritten(rows.connections.Keys, strategy, ds, |ds|)))
  }

  method ApplyRows(rows: Rows, data: Data, strategy: Strategy) returns (r: Result<Applied, Error>,
          index: map<string, Id>)
    requires UniqueNames(rows.groups)
    ensures IsNameIndex(rows.groups, index)
    ensures r == ImportRows(rows, index, data, strategy)
  {
    index := QueryNameIndex(rows.groups);
    var groupsDone := ApplyGroups(rows.groups, index, strategy, data.groups);
    if groupsDone.Err? {
      return Err(groupsDone.error), index;
    }
    var groups := groupsDone.value;
    var credentials, credentialStats, credentialSlots := ApplyCredentials(rows.credentials, strategy, data.credentials);
    var ok, connections, connectionStats, slots :=
      ApplyConnections(rows.connections, groups.groups.Keys, credentials.Keys, groups.idMap, strategy, data.connections, credentialSlots);
    if !ok {
      return Err(Statement), index;
    }
    r := Ok(Applied(Rows(groups.groups, credentials, connections), groups.stats, credentialStats, connectionStats, slots));
  }

  /** An import of valid data fails in the database only because a group is ambiguous, and otherwise
      does what `Imported` says and reports what the preview promised. */
  lemma RowsImported(rows: Rows, index: map<string, Id>, data: Data, strategy: Strategy) returns (idMap: map<Id, Id>)
    requires Schema(rows) && ValidData(data) && IsNameIndex(rows.groups, index)
    ensures var r := ImportRows(rows, index, data, strategy);
            && (r.Err? <==> exists g <- data.groups :: Ambiguous(rows.groups, g))
            && (r.Err? ==> r.error == ConflictsByIdAndName)
            && (r.Ok? ==> Imported(rows, data, strategy, idMap, r.value) && Reported(rows, data, strategy, r.value))
  {
    idMap := map[];
    var groups := ImportGroups(rows.groups, index, strategy, data.groups);
    GroupsApplied(rows.groups, index, strategy, data.groups, groups);
    if groups.Ok? {
      idMap := groups.value.idMap;
      ConnectionKeysHold(rows, data, strategy, groups.value.groups, idMap);
      CountsMatchPreview(rows.credentials.Keys, strategy, CredentialIds(data.credentials), |data.credentials|);
      CountsMatchPreview(rows.connections.Keys, strategy, ConnectionIds(data.connections), |data.connections|);
    }
  }

  lemma GroupsApplied(local: map<Id, Group>, index: map<string, Id>, strategy: Strategy, gs: seq<Group>,
          r: Result<GroupsDone, Error>)
    requires Matched(local, index, gs) && r == ImportGroups(local, index, strategy, gs)
    ensures r.Err? <==> exists g <- gs :: Ambiguous(local, g)
    ensures r.Err? ==> r.error == ConflictsByIdAndName
    ensures r.Ok? ==> TableOk(local, strategy, gs, r.value.groups) && MapsGroups(local, gs, r.value.groups, r.value.idMap)
    ensures r.Ok? ==> AddsUp(r.value.stats, ItemStatsOf(|gs|, |set k | 0 <= k < |gs| && GroupConflict(local, gs[k])|), strategy)
  {
    GroupsImported(local, index, strategy, gs);
    if r.Err? {
      var k :| 0 <= k < |gs| && Clashes(local, index, gs[k]);
      ClashIsAmbiguity(local, index, gs[k]);
    } else {
      forall k | 0 <= k < |gs| ensures !Ambiguous(local, gs[k]) {
        NoClashOnSuccess(local, index, strategy, gs, k);
        ClashIsAmbiguity(local, index, gs[k]);
      }
      TargetsMap(local, index, gs, r.value);
      GroupCountsMatchPreview(local, index, strategy, gs, r.value.stats);
    }
  }

  /** Either strategy leaves every group, credential and jump reference resolvable,
      of the imported connections and of those that were there before. */
  lemma ImportKeepsIntact(rows: Rows, data: Data, strategy: Strategy, idMap: map<Id, Id>, done: Applied)
    requires Intact(rows) && ValidData(data) && Imported(rows, data, strategy, idMap, done)
    ensures Intact(done.rows)
  {
    var after := done.rows;
    forall id <- after.connections ensures RowIntact(after, id) {
      ConnectionIntact(rows, data, strategy, idMap, after, id);
    }
    forall id <- after.credentials ensures after.credentials[id].id == id {
      var cs := data.credentials;
      if MentionsCredential(cs, |cs|, id) {
        var k :| 0 <= k < |cs| && cs[k].id == id;
        CredentialImported(rows.credentials, strategy, cs, |cs|, k);
      } else {
        CredentialKept(rows.credentials, strategy, cs, |cs|, id);
      }
    }
  }

  predicate RowIntact(rows: Rows, id: Id)
    requires id in rows.connections
  {
    var c := rows.connections[id];
    && c.id == id
    && ForeignKeys(rows.groups.Keys, rows.credentials.Keys, c)
    && (c.jump.Some? ==> c.jump.value in rows.connections)
  }

  lemma ConnectionIntact(rows: Rows, data: Data, strategy: Strategy, idMap: map<Id, Id>, after: Rows, id: Id)
    requires Intact(rows) && ValidData(data)
    requires rows.groups.Keys <= after.groups.Keys
    requires MapsGroups(rows.groups, data.groups, after.groups, idMap)
    requires after.credentials == MergeCredentials(rows.credentials, strategy, data.credentials, |data.credentials|)
    requires after.connections == MergeConnections(rows.connections, strategy, idMap, data.connections, |data.connections|)
    requires id in after.connections
    ensures RowIntact(after, id)
  {
    hide Intact, MapsGroups, MergeCredentials, MergeConnections;
    var cs := data.connections;
    if MentionsConnection(cs, |cs|, id) {
      var k :| 0 <= k < |cs| && cs[k].id == id;
      ConnectionImported(rows.connections, strategy, idMap, cs, |cs|, k);
      if Written(rows.connections.Keys, strategy, id) {
        assert cs[k] in cs;
        ImportedKeysResolve(rows, data, strategy, after.groups, idMap, cs[k]);
        if cs[k].jump.Some? {
          ImportedJumpResolves(rows, data, strategy, idMap, cs[k]);
        }
      } else {
        LocalRowIntact(rows, data, strategy, idMap, after, id);
      }
    } else {
      ConnectionKept(rows.connections, strategy, idMap, cs, |cs|, id);
      LocalRowIntact(rows, data, strategy, idMap, after, id);
    }
  }

  lemma ImportedJumpResolves(rows: Rows, data: Data, strategy: Strategy, idMap: map<Id, Id>, c: Connection)
    requires ValidData(data) && c in data.connections && c.jump.Some?
    ensures c.jump.value in MergeConnections(rows.connections, strategy, idMap, data.connections, |data.connections|)
  {
    assert Resolves(c.jump, ConnectionIds(data.connections));
    var m :| 0 <= m < |data.connections| && ConnectionIds(data.connections)[m] == c.jump.value;
    ConnectionImported(rows.connections, strategy, idMap, data.connections, |data.connections|, m);
  }

  /** No merge drops a row. */
  lemma RowsStay(rows: Rows, data: Data, strategy: Strategy, idMap: map<Id, Id>, id: Id)
    requires ValidData(data)
    ensures id in rows.credentials ==> id in MergeCredentials(rows.credentials, strategy, data.credentials, |data.credentials|)
    ensures id in rows.connections ==> id in MergeConnections(rows.connections, strategy, idMap, data.connections, |data.connections|)
  {
    var cs := data.credentials;
    if MentionsCredential(cs, |cs|, id) {
      var k :| 0 <= k < |cs| && cs[k].id == id;
      CredentialImported(rows.credentials, strategy, cs, |cs|, k);
    } else {
      CredentialKept(rows.credentials, strategy, cs, |cs|, id);
    }
    var ds := data.connections;
    if MentionsConnection(ds, |ds|, id) {
      var k :| 0 <= k < |ds| && ds[k].id == id;
      ConnectionImported(rows.connections, strategy, idMap, ds, |ds|, k);
    } else {
      ConnectionKept(rows.connections, strategy, idMap, ds, |ds|, id);
    }
  }

  /** A connection that kept its local row still refers to rows that exist. */
  lemma LocalRowIntact(rows: Rows, data: Data, strategy: Strategy, idMap: map<Id, Id>, after: Rows, id: Id)
    requires Intact(rows) && ValidData(data) && rows.groups.Keys <= after.groups.Keys
    requires after.credentials == MergeCredentials(rows.credentials, strategy, data.credentials, |data.credentials|)
    requires after.connections == MergeConnections(rows.connections, strategy, idMap, data.connections, |data.connections|)
    requires id in rows.connections && id in after.connections && after.connections[id] == rows.connections[id]
    ensures RowIntact(after, id)
  {
    var c := rows.connections[id];
    if c.credential.Some? {
      RowsStay(rows, data, strategy, idMap, c.credential.value);
    }
    if c.jump.Some? {
      RowsStay(rows, data, strategy, idMap, c.jump.value);
    }
  }

  /** Under `Skip` an import only adds: no row that was there changes. */
  lemma SkipOnlyAdds(rows: Rows, data: Data, idMap: map<Id, Id>, done: Applied)
    requires ValidData(data) && Imported(rows, data, Skip, idMap, done)
    ensures forall id <- rows.groups :: id in done.rows.groups && done.rows.groups[id] == rows.groups[id]
    ensures forall id <- rows.credentials :: id in done.rows.credentials && done.rows.credentials[id] == rows.credentials[id]
    ensures forall id <- rows.connections :: id in done.rows.connections && done.rows.connections[id] == rows.connections[id]
  {
    forall id <- rows.credentials
      ensures id in done.rows.credentials && done.rows.credentials[id] == rows.credentials[id]
    {
      var cs := data.credentials;
      if MentionsCredential(cs, |cs|, id) {
        var k :| 0 <= k < |cs| && cs[k].id == id;
        CredentialImported(rows.credentials, Skip, cs, |cs|, k);
      } else {
        CredentialKept(rows.credentials, Skip, cs, |cs|, id);
      }
    }
    forall id <- rows.connections
      ensures id in done.rows.connections && done.rows.connections[id] == rows.connections[id]
    {
      var cs := data.connections;
      if MentionsConnection(cs, |cs|, id) {
        var k :| 0 <= k < |cs| && cs[k].id == id;
        ConnectionImported(rows.connections, Skip, idMap, cs, |cs|, k);
      } else {
        ConnectionKept(rows.connections, Skip, idMap, cs, |cs|, id);
      }
    }
  }

  // ----- what the rows say -----

  /** The local group with this name, or none. */
  predicate NamedLocally(groups: map<Id, Group>, name: string, id: Id) {
    id in groups && groups[id].name == name
  }

  /** The group a connection of the bundle belongs in: that of the same name if there is one here, and
      otherwise the imported one. */
  ghost predicate GroupFollows(local: map<Id, Group>, gs: seq<Group>, wanted: Option<Id>, stored: Option<Id>) {
    && (stored.None? <==> wanted.None?)
    && forall g <- gs :: wanted == Some(g.id) ==>
         && (forall id <- local :: NamedLocally(local, g.name, id) ==> stored == Some(id))
         && ((forall id <- local :: !NamedLocally(local, g.name, id)) ==> stored == Some(g.id))
  }

  /** A written connection is stored with every column of the bundle, in the group it belongs in; a row that
      was there keeps its creation time. */
  ghost predicate StoredConnection(rows: Rows, gs: seq<Group>, c: Connection, row: Connection) {
    && GroupFollows(rows.groups, gs, c.group, row.group)
    && row.id == c.id && row.credential == c.credential && row.jump == c.jump
    && row.inlineKind == c.inlineKind && row.slot == c.slot && row.columns == c.columns
    && row.createdAt == if c.id in rows.connections then rows.connections[c.id].createdAt else c.createdAt
  }

  ghost predicate StoredCredential(rows: Rows, c: Credential, row: Credential) {
    && row.id == c.id && row.kind == c.kind && row.slot == c.slot && row.columns == c.columns
    && row.createdAt == if c.id in rows.credentials then rows.credentials[c.id].createdAt else c.createdAt
  }

  lemma GroupOfImported(rows: Rows, data: Data, groups: map<Id, Group>, idMap: map<Id, Id>, c: Connection)
    requires ValidData(data) && c in data.connections && MapsGroups(rows.groups, data.groups, groups, idMap)
    ensures GroupFollows(rows.groups, data.groups, c.group, Remapped(idMap, c).group)
  {
    if c.group.Some? {
      assert Resolves(c.group, GroupIds(data.groups));
      var k :| 0 <= k < |data.groups| && GroupIds(data.groups)[k] == c.group.value;
      assert data.groups[k] in data.groups;
    }
  }

  /** Each connection of the bundle is stored, unless it is skipped for a row that is there. */
  ghost predicate EachStored(rows: Rows, data: Data, strategy: Strategy, after: map<Id, Connection>) {
    forall c <- data.connections ::
      c.id in after
      && if c.id in rows.connections && strategy == Skip then after[c.id] == rows.connections[c.id]
         else StoredConnection(rows, data.groups, c, after[c.id])
  }

  /** The rows under other ids are as they were. */
  ghost predicate OthersKept<V>(before: map<Id, V>, ids: seq<Id>, after: map<Id, V>) {
    forall id :: id !in ids ==> (id in after <==> id in before) && (id in after ==> after[id] == before[id])
  }

  ghost predicate ConnectionsStored(rows: Rows, data: Data, strategy: Strategy, after: map<Id, Connection>) {
    EachStored(rows, data, strategy, after) && OthersKept(rows.connections, ConnectionIds(data.connections), after)
  }

  ghost predicate CredentialsStored(rows: Rows, data: Data, strategy: Strategy, after: map<Id, Credential>) {
    && (forall c <- data.credentials ::
          c.id in after
          && if c.id in rows.credentials && strategy == Skip then after[c.id] == rows.credentials[c.id]
             else StoredCredential(rows, c, after[c.id]))
    && OthersKept(rows.credentials, CredentialIds(data.credentials), after)
  }

  lemma ConnectionIsStored(rows: Rows, data: Data, strategy: Strategy, groups: map<Id, Group>, idMap: map<Id, Id>, k: nat)
    requires ValidData(data) && MapsGroups(rows.groups, data.groups, groups, idMap) && k < |data.connections|
    ensures var c := data.connections[k];
            var after := MergeConnections(rows.connections, strategy, idMap, data.connections, |data.connections|);
            c.id in after
            && if c.id in rows.connections && strategy == Skip then after[c.id] == rows.connections[c.id]
               else StoredConnection(rows, data.groups, c, after[c.id])
  {
    ValidIds(data);
    hide MapsGroups, MergeConnections, GroupFollows, ValidData;
    ConnectionImported(rows.connections, strategy, idMap, data.connections, |data.connections|, k);
    GroupOfImported(rows, data, groups, idMap, data.connections[k]);
  }

  lemma NotMentioned(cs: seq<Connection>, id: Id)
    requires id !in ConnectionIds(cs)
    ensures !MentionsConnection(cs, |cs|, id)
  {
    assert forall k :: 0 <= k < |cs| ==> ConnectionIds(cs)[k] == cs[k].id;
  }

  lemma EachIsStored(rows: Rows, data: Data, strategy: Strategy, groups: map<Id, Group>, idMap: map<Id, Id>)
    requires ValidData(data) && MapsGroups(rows.groups, data.groups, groups, idMap)
    ensures EachStored(rows, data, strategy, MergeConnections(rows.connections, strategy, idMap, data.connections, |data.connections|))
  {
    hide MapsGroups, MergeConnections, StoredConnection, ValidData;
    var after := MergeConnections(rows.connections, strategy, idMap, data.connections, |data.connections|);
    forall c <- data.connections
      ensures c.id in after
      ensures if c.id in rows.connections && strategy == Skip then after[c.id] == rows.connections[c.id]
              else StoredConnection(rows, data.groups, c, after[c.id])
    {
      var k :| 0 <= k < |data.connections| && data.connections[k] == c;
      ConnectionIsStored(rows, data, strategy, groups, idMap, k);
    }
  }

  lemma OthersAreKept(local: map<Id, Connection>, strategy: Strategy, idMap: map<Id, Id>, cs: seq<Connection>)
    ensures OthersKept(local, ConnectionIds(cs), MergeConnections(local, strategy, idMap, cs, |cs|))
  {
    hide MergeConnections, ConnectionIds;
    forall id | id !in ConnectionIds(cs)
      ensures var after := MergeConnections(local, strategy, idMap, cs, |cs|);
              (id in after <==> id in local) && (id in after ==> after[id] == local[id])
    {
      NotMentioned(cs, id);
      ConnectionKept(local, strategy, idMap, cs, |cs|, id);
    }
  }

  lemma ConnectionsAreStored(rows: Rows, data: Data, strategy: Strategy, groups: map<Id, Group>, idMap: map<Id, Id>)
    requires ValidData(data) && MapsGroups(rows.groups, data.groups, groups, idMap)
    ensures ConnectionsStored(rows, data, strategy, MergeConnections(rows.connections, strategy, idMap, data.connections, |data.connections|))
  {
    hide EachStored, OthersKept, MapsGroups, ValidData, MergeConnections;
    EachIsStored(rows, data, strategy, groups, idMap);
    OthersAreKept(rows.connections, strategy, idMap, data.connections);
  }

  lemma OtherCredentialsAreKept(local: map<Id, Credential>, strategy: Strategy, cs: seq<Credential>)
    ensures OthersKept(local, CredentialIds(cs), MergeCredentials(local, strategy, cs, |cs|))
  {
    hide MergeCredentials;
    forall id | id !in CredentialIds(cs)
      ensures var after := MergeCredentials(local, strategy, cs, |cs|);
              (id in after <==> id in local) && (id in after ==> after[id] == local[id])
    {
      assert forall k :: 0 <= k < |cs| ==> CredentialIds(cs)[k] == cs[k].id;
      CredentialKept(local, strategy, cs, |cs|, id);
    }
  }

  lemma CredentialsAreStored(rows: Rows, data: Data, strategy: Strategy)
    requires ValidData(data)
    ensures CredentialsStored(rows, data, strategy, MergeCredentials(rows.credentials, strategy, data.credentials, |data.credentials|))
  {
    var cs := data.credentials;
    var after := MergeCredentials(rows.credentials, strategy, cs, |cs|);
    ValidIds(data);
    OtherCredentialsAreKept(rows.credentials, strategy, cs);
    hide MergeCredentials, ValidData, OthersKept;
    forall c <- cs
      ensures c.id in after
      ensures if c.id in rows.credentials && strategy == Skip then after[c.id] == rows.credentials[c.id]
              else StoredCredential(rows, c, after[c.id])
    {
      var k :| 0 <= k < |cs| && cs[k] == c;
      CredentialImported(rows.credentials, strategy, cs, |cs|, k);
    }
  }

  /** The slots whose secrets are to be written: those of the records that are not skipped. */
  ghost predicate SlotsToWrite(rows: Rows, data: Data, strategy: Strategy, slots: set<Id>) {
    forall slot :: slot in slots <==>
      || (exists c <- data.credentials :: c.slot == Some(slot) && !(strategy == Skip && c.id in rows.credentials))
      || (exists c <- data.connections :: c.slot == Some(slot) && !(strategy == Skip && c.id in rows.connections))
  }

  lemma {:induction false} CredentialSlotWritten(local: set<Id>, strategy: Strategy, cs: seq<Credential>, n: nat, slot: Id)
    requires n <= |cs|
    ensures slot in CredentialSlotsWritten(local, strategy, cs, n) <==>
            exists c <- cs[..n] :: c.slot == Some(slot) && !(strategy == Skip && c.id in local)
  {
    if n > 0 {
      CredentialSlotWritten(local, strategy, cs, n - 1, slot);
      assert cs[..n] == cs[..n - 1] + [cs[n - 1]];
    }
  }

  lemma {:induction false} ConnectionSlotWritten(local: set<Id>, strategy: Strategy, cs: seq<Connection>, n: nat, slot: Id)
    requires n <= |cs|
    ensures slot in ConnectionSlotsWritten(local, strategy, cs, n) <==>
            exists c <- cs[..n] :: c.slot == Some(slot) && !(strategy == Skip && c.id in local)
  {
    if n > 0 {
      ConnectionSlotWritten(local, strategy, cs, n - 1, slot);
      assert cs[..n] == cs[..n - 1] + [cs[n - 1]];
    }
  }

  lemma SlotsAreWritten(rows: Rows, data: Data, strategy: Strategy)
    ensures SlotsToWrite(rows, data, strategy,
                         CredentialSlotsWritten(rows.credentials.Keys, strategy, data.credentials, |data.credentials|)
                         + ConnectionSlotsWritten(rows.connections.Keys, strategy, data.connections, |data.connections|))
  {
    hide CredentialSlotsWritten, ConnectionSlotsWritten;
    var cs, ds := data.credentials, data.connections;
    var a := CredentialSlotsWritten(rows.credentials.Keys, strategy, cs, |cs|);
    var b := ConnectionSlotsWritten(rows.connections.Keys, strategy, ds, |ds|);
    assert cs[..|cs|] == cs && ds[..|ds|] == ds;
    forall slot
      ensures slot in a <==> exists c <- cs :: c.slot == Some(slot) && !(strategy == Skip && c.id in rows.credentials)
      ensures slot in b <==> exists c <- ds :: c.slot == Some(slot) && !(strategy == Skip && c.id in rows.connections)
    {
      CredentialSlotWritten(rows.credentials.Keys, strategy, cs, |cs|, slot);
      ConnectionSlotWritten(rows.connections.Keys, strategy, ds, |ds|, slot);
    }
  }

  /** What an import of valid data stores. */
  lemma ImportStores(rows: Rows, index: map<string, Id>, data: Data, strategy: Strategy)
    requires Schema(rows) && ValidData(data) && IsNameIndex(rows.groups, index)
    requires ImportRows(rows, index, data, strategy).Ok?
    ensures var after := ImportRows(rows, index, data, strategy).value.rows;
            ConnectionsStored(rows, data, strategy, after.connections) && CredentialsStored(rows, data, strategy, after.credentials)
    ensures SlotsToWrite(rows, data, strategy, ImportRows(rows, index, data, strategy).value.slots)
  {
    SlotsAreWritten(rows, data, strategy);
    hide ImportRows, Schema, ValidData, TableOk, MapsGroups, Reported, ConnectionsStored, CredentialsStored, SlotsToWrite;
    var idMap := RowsImported(rows, index, data, strategy);
    ConnectionsAreStored(rows, data, strategy, ImportRows(rows, index, data, strategy).value.rows.groups, idMap);
    CredentialsAreStored(rows, data, strategy);
  }

  lemma ValidIds(data: Data)
    requires ValidData(data)
    ensures Distinct(CredentialIds(data.credentials)) && Distinct(ConnectionIds(data.connections))
  {
  }
}
