/** Runs of the pool that reach what its guarantees leave open. */
module ExecPoolRuns {
  import opened Wrappers
  import opened ExecPool
  import opened ExecPoolSafety

  // ----- extending a run -----

  function Last(ss: seq<State>): State {
    if ss == [] then EMPTY else ss[|ss| - 1]
  }

  lemma Extend(o: Options, ss: seq<State>, s: State)
    requires Run(o, ss, false) && Step(o, Last(ss), s)
    ensures Run(o, ss + [s], false) && Last(ss + [s]) == s
  {
    hide Step;
    var more := ss + [s];
    forall i | 0 < i < |more| ensures StepAt(o, more, i, false) {
      if i < |ss| {
        assert StepAt(o, ss, i, false);
      }
    }
  }

  /** Task `t` takes the step that leads to `r`, leaving no timer. */
  lemma Advance(o: Options, ss: seq<State>, t: Tid, e: Env, m: Shared, pc: Pc) returns (more: seq<State>)
    requires Run(o, ss, false) && t in Last(ss).tasks
    requires TaskStep(o, Last(ss).shared, t, Last(ss).tasks[t], e) == Some(Effect(m, pc, None))
    ensures Run(o, more, false) && Last(more) == WithTasks(Last(ss), m, Last(ss).tasks[t := pc])
  {
    var s := WithTasks(Last(ss), m, Last(ss).tasks[t := pc]);
    hide TaskStep, WithTasks, Run;
    assert AdvancesTo(o, Last(ss), t, e, s);
    assert Advances(o, Last(ss), s);
    Extend(o, ss, s);
    more := ss + [s];
  }

  lemma Spawn(o: Options, ss: seq<State>, t: Tid, pc: Pc) returns (more: seq<State>)
    requires Run(o, ss, false) && t !in Last(ss).tasks && (pc.Start? || pc.Evicting?)
    ensures Run(o, more, false) && Last(more) == WithTasks(Last(ss), Last(ss).shared, Last(ss).tasks[t := pc])
  {
    var s := WithTasks(Last(ss), Last(ss).shared, Last(ss).tasks[t := pc]);
    hide WithTasks, Run;
    assert Spawns(Last(ss), s);
    Extend(o, ss, s);
    more := ss + [s];
  }

  lemma Again(tasks: map<Tid, Pc>, t: Tid, a: Pc, b: Pc)
    ensures tasks[t := a][t := b] == tasks[t := b]
  {
  }

  // ----- tasks that connect at the same time -----

  function Name(k: nat): (c: ConnId)
    ensures |c| == k
  {
    seq(k, _ => 'a')
  }

  function JobOf(k: nat): Job {
    Job(Name(k), "", false, false, false)
  }

  function HandleOf(k: nat): Handle {
    Handle(Name(k), "", k)
  }

  function Sessions(s: nat): (r: map<ConnId, Handle>)
    ensures |r| == s && forall c <- r :: |c| < s && c == Name(|c|) && r[c] == HandleOf(|c|)
    ensures forall k: nat :: k < s ==> Name(k) in r
  {
    if s == 0 then map[]
    else
      var r := Sessions(s - 1)[Name(s - 1) := HandleOf(s - 1)];
      assert r.Keys == Sessions(s - 1).Keys + {Name(s - 1)};
      r
  }

  /** The first `stored` tasks have stored their sessions, the next `window` have made room and are about to
      store, and the rest has connected. */
  function PcAt(k: nat, stored: nat, window: nat): Pc {
    if k < stored then Using(JobOf(k), HandleOf(k), false)
    else if k < stored + window then Storing(JobOf(k), HandleOf(k), [], false)
    else Connected(JobOf(k), HandleOf(k), false)
  }

  function TasksAt(n: nat, stored: nat, window: nat): map<Tid, Pc> {
    map k: nat | k < n :: PcAt(k, stored, window)
  }

  function Zeros(n: nat): (r: map<Sid, nat>)
    ensures forall k: nat :: (k in r <==> k < n) && (k in r ==> r[k] == 0)
  {
    if n == 0 then map[] else Zeros(n - 1)[n - 1 := 0]
  }

  function PlacesAt(n: nat, stored: nat): map<Sid, Place> {
    map k: nat | k < n :: if k < stored then Cached(Name(k)) else Held(k)
  }

  function SharedAt(n: nat, stored: nat): Shared {
    Shared(Sessions(stored), Zeros(n), Zeros(n), map[], PlacesAt(n, stored), Zeros(n))
  }

  function At(n: nat, stored: nat, window: nat, peak: nat): State {
    State(SharedAt(n, stored), TasksAt(n, stored, window), peak)
  }

  const ENV := Env(0, 0, 0, true, [], [])

  function Interval(from: nat, size: nat): (r: set<nat>)
    ensures |r| == size && forall k :: k in r <==> from <= k < from + size
  {
    if size == 0 then {} else Interval(from, size - 1) + {from + size - 1}
  }

  lemma WindowSize(n: nat, stored: nat, window: nat)
    requires stored + window <= n
    ensures |InWindow(TasksAt(n, stored, window))| == window
  {
    assert InWindow(TasksAt(n, stored, window)) == Interval(stored, window);
  }

  /** A task outside the window changes nothing about it. */
  lemma StillNoWindow(n: nat, t: Tid, pc: Pc)
    requires t == n && WindowOf(pc) == None
    ensures |InWindow(TasksAt(n, 0, 0)[t := pc])| == 0
  {
    assert InWindow(TasksAt(n, 0, 0)[t := pc]) == {};
  }

  lemma ConnectStep(n: nat)
    ensures Connect(SharedAt(n, 0), n, n, 0) == SharedAt(n + 1, 0)
    ensures TasksAt(n, 0, 0)[n := Connected(JobOf(n), HandleOf(n), false)] == TasksAt(n + 1, 0, 0)
  {
    assert Zeros(n)[n := 0] == Zeros(n + 1);
    assert PlacesAt(n, 0)[n := Held(n)] == PlacesAt(n + 1, 0);
  }

  /** One more task comes, finds nothing cached and connects. */
  lemma OneConnects(o: Options, ss: seq<State>, n: nat) returns (more: seq<State>)
    requires Run(o, ss, false) && Last(ss) == At(n, 0, 0, 0)
    ensures Run(o, more, false) && Last(more) == At(n + 1, 0, 0, 0)
  {
    hide Run, InWindow, Connect, SharedAt, TasksAt;
    var m, tasks, job := SharedAt(n, 0), TasksAt(n, 0, 0), JobOf(n);
    NothingThere(n);
    StillNoWindow(n, n, Start(job));
    StillNoWindow(n, n, Pruning(job, [], 0));
    StillNoWindow(n, n, LookingUp(job, 0));
    StillNoWindow(n, n, Connecting(job, false));
    StillNoWindow(n, n, Connected(job, HandleOf(n), false));
    ConnectStep(n);
    more := Spawn(o, ss, n, Start(job));
    more := Advance(o, more, n, ENV, m, Pruning(job, [], 0));
    Again(tasks, n, Start(job), Pruning(job, [], 0));
    more := Advance(o, more, n, ENV, m, LookingUp(job, 0));
    Again(tasks, n, Pruning(job, [], 0), LookingUp(job, 0));
    more := Advance(o, more, n, ENV, m, Connecting(job, false));
    Again(tasks, n, LookingUp(job, 0), Connecting(job, false));
    more := Advance(o, more, n, ENV.(sid := n), Connect(m, n, n, 0), Connected(job, HandleOf(n), false));
    Again(tasks, n, Connecting(job, false), Connected(job, HandleOf(n), false));
  }

  lemma NothingThere(n: nat)
    ensures SharedAt(n, 0).sessions == map[] && n !in SharedAt(n, 0).place && n !in TasksAt(n, 0, 0)
  {
  }

  lemma NobodyYet(o: Options)
    ensures Run(o, [EMPTY], false) && At(0, 0, 0, 0) == EMPTY
  {
    hide InWindow, TaskStep;
    assert TasksAt(0, 0, 0) == map[] && Zeros(0) == map[] && PlacesAt(0, 0) == map[];
  }

  lemma {:induction false} AllConnect(o: Options, n: nat) returns (ss: seq<State>)
    ensures Run(o, ss, false) && Last(ss) == At(n, 0, 0, 0)
  {
    hide At, Run;
    if n == 0 {
      NobodyYet(o);
      ss := [EMPTY];
    } else {
      ss := AllConnect(o, n - 1);
      ss := OneConnects(o, ss, n - 1);
    }
  }

  lemma RoomMade(o: Options, n: nat, stored: nat, active: ConnId, t: Tid)
    requires stored < o.maxCached
    ensures AreVictims(o, SharedAt(n, stored).sessions, active, [])
    ensures MakeRoom(SharedAt(n, stored), t, []) == SharedAt(n, stored) && Picked(SharedAt(n, stored).sessions, []) == []
  {
    NobodyLeaves(SharedAt(n, stored), t);
    hide SharedAt, Precedes;
    assert |SharedAt(n, stored).sessions| == stored by {
      SizeAt(n, stored);
    }
  }

  lemma SizeAt(n: nat, stored: nat)
    ensures |SharedAt(n, stored).sessions| == stored
  {
  }

  lemma NobodyLeaves(m: Shared, t: Tid)
    ensures MakeRoom(m, t, []) == m && Picked(m.sessions, []) == []
  {
    assert Without(m.sessions, []) == m.sessions;
    assert HeldBy(m.place, Sids([]), t) == m.place;
  }

  lemma RoomStep(o: Options, n: nat, stored: nat, window: nat)
    requires stored < o.maxCached && stored + window < n
    ensures var t := stored + window;
            && t in TasksAt(n, stored, window)
            && TaskStep(o, SharedAt(n, stored), t, TasksAt(n, stored, window)[t], ENV) ==
               Some(Effect(SharedAt(n, stored), Storing(JobOf(t), HandleOf(t), [], false), None))
  {
    hide SharedAt, AreVictims, MakeRoom, Picked, Search, Use, Evict, JobOf, HandleOf;
    var t := stored + window;
    assert JobOf(t).conn == Name(t) by {
      JobName(t);
    }
    RoomMade(o, n, stored, Name(t), t);
  }

  lemma JobName(k: nat)
    ensures JobOf(k).conn == Name(k) && HandleOf(k).conn == Name(k)
  {
  }

  lemma RoomTasks(n: nat, stored: nat, window: nat)
    requires stored + window < n
    ensures var t := stored + window;
            TasksAt(n, stored, window)[t := Storing(JobOf(t), HandleOf(t), [], false)] == TasksAt(n, stored, window + 1)
  {
    hide JobOf, HandleOf;
  }

  lemma Stored(n: nat, stored: nat)
    requires stored < n
    ensures Insert(SharedAt(n, stored), stored, HandleOf(stored)) == SharedAt(n, stored + 1)
    ensures Name(stored) !in SharedAt(n, stored).sessions
  {
    assert Name(stored) !in Sessions(stored);
    assert PlacesAt(n, stored)[stored := Cached(Name(stored))] == PlacesAt(n, stored + 1);
  }

  lemma StoreStep(o: Options, n: nat, stored: nat, window: nat)
    requires 0 < window && stored + window <= n
    ensures stored in TasksAt(n, stored, window)
    ensures TaskStep(o, SharedAt(n, stored), stored, TasksAt(n, stored, window)[stored], ENV) ==
            Some(Effect(SharedAt(n, stored + 1), Using(JobOf(stored), HandleOf(stored), false), None))
  {
    hide SharedAt, AreVictims, MakeRoom, Search, Use, Evict, Insert, JobOf, HandleOf;
    JobName(stored);
    Stored(n, stored);
  }

  lemma StoreTasks(n: nat, stored: nat, window: nat)
    requires 0 < window && stored + window <= n
    ensures TasksAt(n, stored, window)[stored := Using(JobOf(stored), HandleOf(stored), false)] == TasksAt(n, stored + 1, window - 1)
  {
    hide JobOf, HandleOf;
  }

  lemma OneMakesRoom(o: Options, ss: seq<State>, n: nat, stored: nat, window: nat, peak: nat) returns (more: seq<State>)
    requires Run(o, ss, false) && Last(ss) == At(n, stored, window, peak) && stored < o.maxCached && stored + window < n
    ensures Run(o, more, false) && Last(more) == At(n, stored, window + 1, Max(peak, window + 1))
  {
    hide Run, InWindow, SharedAt, TasksAt, TaskStep;
    RoomStep(o, n, stored, window);
    RoomTasks(n, stored, window);
    WindowSize(n, stored, window + 1);
    var t := stored + window;
    more := Advance(o, ss, t, ENV, SharedAt(n, stored), Storing(JobOf(t), HandleOf(t), [], false));
  }

  lemma OneStores(o: Options, ss: seq<State>, n: nat, stored: nat, window: nat, peak: nat) returns (more: seq<State>)
    requires Run(o, ss, false) && Last(ss) == At(n, stored, window, peak) && 0 < window && stored + window <= n
    ensures Run(o, more, false) && Last(more) == At(n, stored + 1, window - 1, Max(peak, window - 1))
  {
    hide Run, InWindow, SharedAt, TasksAt, TaskStep;
    StoreStep(o, n, stored, window);
    StoreTasks(n, stored, window);
    WindowSize(n, stored + 1, window - 1);
    more := Advance(o, ss, stored, ENV, SharedAt(n, stored + 1), Using(JobOf(stored), HandleOf(stored), false));
  }

  /** The cache is filled up to where making room makes none. */
  lemma {:induction false} FillOneByOne(o: Options, n: nat, stored: nat) returns (ss: seq<State>, peak: nat)
    requires stored < o.maxCached && stored <= n
    ensures Run(o, ss, false) && Last(ss) == At(n, stored, 0, peak) && peak <= 1
  {
    hide At, Run;
    if stored == 0 {
      ss := AllConnect(o, n);
      peak := 0;
    } else {
      ss, peak := FillOneByOne(o, n, stored - 1);
      ss := OneMakesRoom(o, ss, n, stored - 1, 0, peak);
      ss := OneStores(o, ss, n, stored - 1, 1, Max(peak, 1));
      peak := 1;
    }
  }

  lemma {:induction false} MakeRoomTogether(o: Options, n: nat, stored: nat, window: nat) returns (ss: seq<State>, peak: nat)
    requires stored < o.maxCached && stored + window <= n
    ensures Run(o, ss, false) && Last(ss) == At(n, stored, window, peak) && peak <= Max(window, 1) && window <= peak
  {
    hide At, Run;
    if window == 0 {
      ss, peak := FillOneByOne(o, n, stored);
    } else {
      ss, peak := MakeRoomTogether(o, n, stored, window - 1);
      ss := OneMakesRoom(o, ss, n, stored, window - 1, peak);
      peak := Max(peak, window);
    }
  }

  lemma {:induction false} StoreAll(o: Options, ss: seq<State>, n: nat, stored: nat, window: nat, peak: nat) returns (more: seq<State>)
    requires Run(o, ss, false) && Last(ss) == At(n, stored, window, peak) && stored + window <= n && window <= peak
    ensures Run(o, more, false) && Last(more) == At(n, stored + window, 0, peak)
    decreases window
  {
    hide At, Run;
    if window == 0 {
      more := ss;
    } else {
      more := OneStores(o, ss, n, stored, window, peak);
      more := StoreAll(o, more, n, stored + 1, window - 1, peak);
    }
  }

  /** The bound on the size of the cache is reached, for every limit and every number of connectors that make
      room before any of them stores: the limit holds with one connector and with two it need not. */
  lemma SizeBoundIsReached(o: Options, connectors: nat) returns (ss: seq<State>)
    requires o.maxCached >= 1 && connectors >= 1
    ensures Run(o, ss, false)
    ensures Last(ss).peak == connectors && |Last(ss).shared.sessions| == o.maxCached - 1 + connectors
    ensures connectors > 1 ==> |Last(ss).shared.sessions| > o.maxCached
  {
    hide Run, TasksAt;
    var stored := o.maxCached - 1;
    var peak;
    ss, peak := MakeRoomTogether(o, stored + connectors, stored, connectors);
    ss := StoreAll(o, ss, stored + connectors, stored, connectors, peak);
  }

  // ----- an exec on a closed session -----

  /** Between the two states session `sid` is closed only by a task at `pc` that holds its lock to do so. */
  predicate ClosedOnlyBy(m: Shared, r: Option<Effect>, pc: Pc, sid: Sid) {
    r.Some? && sid in m.closes ==>
      && sid in r.value.shared.closes
      && (r.value.shared.closes[sid] != m.closes[sid] ==> pc.ClosingLocked? && pc.session.sid == sid)
  }

  lemma ProvideCloses(o: Options, m: Shared, t: Tid, pc: Pc, e: Env, sid: Sid)
    requires m.closes.Keys == m.place.Keys && Provides(pc)
    ensures ClosedOnlyBy(m, Provide(o, m, t, pc, e), pc, sid)
  {
    hide AreVictims, Picked, HeldBy, Without;
  }

  lemma UseCloses(o: Options, m: Shared, t: Tid, pc: Pc, e: Env, sid: Sid)
    ensures ClosedOnlyBy(m, Use(o, m, t, pc, e), pc, sid)
  {
  }

  lemma EvictCloses(o: Options, m: Shared, t: Tid, pc: Pc, e: Env, sid: Sid)
    ensures ClosedOnlyBy(m, Evict(o, m, t, pc, e), pc, sid)
  {
    hide Resume;
  }

  /** Only closing a session, under its lock, marks it closed. */
  lemma OnlyClosingCloses(o: Options, m: Shared, tasks: map<Tid, Pc>, t: Tid, e: Env, sid: Sid)
    requires Inv(m, tasks) && t in tasks
    ensures ClosedOnlyBy(m, TaskStep(o, m, t, tasks[t], e), tasks[t], sid)
  {
    InvCells(m, tasks);
    hide Inv, Provide, Use, Evict;
    if Provides(tasks[t]) {
      ProvideCloses(o, m, t, tasks[t], e, sid);
    }
    UseCloses(o, m, t, tasks[t], e, sid);
    EvictCloses(o, m, t, tasks[t], e, sid);
  }

  /** While an exec runs its session is not closed: it runs on a closed session to the end exactly if the
      session was closed when it took the lock. */
  lemma ClosedSinceItsLock(o: Options, ss: seq<State>, drops: bool, i: nat, u: Tid)
    requires Run(o, ss, drops) && 0 < i < |ss| && u in ss[i - 1].tasks && u in ss[i].tasks
    requires ss[i - 1].tasks[u].Executing? && ss[i].tasks[u].Executing?
    ensures var before, after, sid := ss[i - 1].shared, ss[i].shared, ss[i].tasks[u].handle.sid;
            && ss[i - 1].tasks[u].handle.sid == sid && sid in before.closes && sid in after.closes
            && after.closes[sid] == before.closes[sid]
  {
    hide Inv, TaskStep, InWindow;
    RunKeeps(o, ss, drops, i - 1);
    assert StepAt(o, ss, i, drops);
    var s, sid := ss[i - 1], ss[i - 1].tasks[u].handle.sid;
    ExecutingKnown(s.shared, s.tasks, u);
    if Advances(o, s, ss[i]) {
      var t: Tid, e: Env :| AdvancesTo(o, s, t, e, ss[i]);
      OnlyClosingCloses(o, s.shared, s.tasks, t, e, sid);
      ExecutingAlone(s.shared, s.tasks, t, u);
      if t == u {
        ExecutingLeaves(o, s.shared, u, s.tasks[u], e);
      }
    }
  }

  lemma ExecutingLeaves(o: Options, m: Shared, t: Tid, pc: Pc, e: Env)
    requires pc.Executing? && TaskStep(o, m, t, pc, e).Some?
    ensures !TaskStep(o, m, t, pc, e).value.pc.Executing?
  {
  }

  lemma ExecutingKnown(m: Shared, tasks: map<Tid, Pc>, u: Tid)
    requires Inv(m, tasks) && u in tasks && tasks[u].Executing?
    ensures tasks[u].handle.sid in m.closes
  {
    TaskHandles(m, tasks, u);
    assert tasks[u].handle in Handles(tasks[u]);
    InvCells(m, tasks);
  }

  lemma ExecutingAlone(m: Shared, tasks: map<Tid, Pc>, t: Tid, u: Tid)
    requires Inv(m, tasks) && t in tasks && u in tasks && tasks[u].Executing?
    ensures LockOf(tasks[t]) == Some(tasks[u].handle.sid) ==> t == u
  {
    hide Refs, Guards, CachedPlaces, HeldPlaces, ClosedPlaces, Cells;
  }

  /** Where such a run stands: task 0 uses session 0 with `pc`, and task 1 drops the connection. */
  predicate Dropping(s: State, pc: Pc, other: Pc, cached: bool, lock: map<Sid, Tid>, guards: nat, closes: nat) {
    && s.tasks == map[0 := pc, 1 := other]
    && s.shared.sessions == (if cached then map[Name(0) := HandleOf(0)] else map[])
    && s.shared.lock == lock && s.shared.inFlight == map[0 := guards] && s.shared.closes == map[0 := closes]
  }

  lemma DroppedConnection(o: Options) returns (ss: seq<State>)
    requires o.maxCached >= 1
    ensures Run(o, ss, false) && Dropping(Last(ss), Using(JobOf(0), HandleOf(0), false), Done, false, map[], 0, 1)
  {
    var pc, h := Using(JobOf(0), HandleOf(0), false), HandleOf(0);
    var peak;
    hide Run, InWindow, TakeOut, TakeLock, Unlock, Close, Evict, Dropping;
    ss, peak := MakeRoomTogether(o, 1, 0, 1);
    ss := StoreAll(o, ss, 1, 0, 1, peak);
    assert Last(ss) == At(1, 1, 0, peak);
    var before := ss;
    ss := Spawn(o, ss, 1, Evicting(Name(0)));
    OneStored(Last(before), Last(ss), peak);
    TakenOut(o, Last(ss), pc);
    ss := EvictStep(o, ss, pc, TakeOut(Last(ss).shared, 1, Name(0)), Closing(h, ThenEnd));
    Locked(o, Last(ss), pc);
    ss := EvictStep(o, ss, pc, TakeLock(Last(ss).shared, 1, 0), ClosingLocked(h, ThenEnd));
    ClosedNow(o, Last(ss), pc);
    ss := EvictStep(o, ss, pc, Unlock(Close(Last(ss).shared, 0), 0), Done);
  }

  lemma TakenOut(o: Options, s: State, pc: Pc)
    requires Dropping(s, pc, Evicting(Name(0)), true, map[], 0, 0)
    ensures Name(0) in s.shared.sessions
    ensures Evict(o, s.shared, 1, Evicting(Name(0)), ENV) == Some(Effect(TakeOut(s.shared, 1, Name(0)), Closing(HandleOf(0), ThenEnd), None))
    ensures forall s': State :: s'.tasks == map[0 := pc, 1 := Closing(HandleOf(0), ThenEnd)] && s'.shared == TakeOut(s.shared, 1, Name(0)) ==>
              Dropping(s', pc, Closing(HandleOf(0), ThenEnd), false, map[], 0, 0)
    ensures TwoTasks(s, pc, Evicting(Name(0)))
  {
    assert s.shared.sessions - {Name(0)} == map[];
  }

  lemma Locked(o: Options, s: State, pc: Pc)
    requires Dropping(s, pc, Closing(HandleOf(0), ThenEnd), false, map[], 0, 0)
    ensures Evict(o, s.shared, 1, Closing(HandleOf(0), ThenEnd), ENV) ==
            Some(Effect(TakeLock(s.shared, 1, 0), ClosingLocked(HandleOf(0), ThenEnd), None))
    ensures forall s': State :: s'.tasks == map[0 := pc, 1 := ClosingLocked(HandleOf(0), ThenEnd)] && s'.shared == TakeLock(s.shared, 1, 0) ==>
              Dropping(s', pc, ClosingLocked(HandleOf(0), ThenEnd), false, map[0 := 1], 0, 0)
    ensures TwoTasks(s, pc, Closing(HandleOf(0), ThenEnd))
  {
  }

  lemma ClosedNow(o: Options, s: State, pc: Pc)
    requires Dropping(s, pc, ClosingLocked(HandleOf(0), ThenEnd), false, map[0 := 1], 0, 0)
    ensures 0 in s.shared.closes
    ensures Evict(o, s.shared, 1, ClosingLocked(HandleOf(0), ThenEnd), ENV) == Some(Effect(Unlock(Close(s.shared, 0), 0), Done, None))
    ensures forall s': State :: s'.tasks == map[0 := pc, 1 := Done] && s'.shared == Unlock(Close(s.shared, 0), 0) ==>
              Dropping(s', pc, Done, false, map[], 0, 1)
    ensures TwoTasks(s, pc, ClosingLocked(HandleOf(0), ThenEnd))
  {
    var m: map<Sid, Tid> := map[0 := 1];
    assert m - {0} == map[];
  }

  predicate TwoTasks(s: State, pc: Pc, other: Pc) {
    s.tasks.Keys == {0, 1} && s.tasks[0] == pc && s.tasks[1] == other
  }

  lemma OneStored(before: State, s: State, peak: nat)
    requires before == At(1, 1, 0, peak)
    requires s == WithTasks(before, before.shared, before.tasks[1 := Evicting(Name(0))])
    ensures Dropping(s, Using(JobOf(0), HandleOf(0), false), Evicting(Name(0)), true, map[], 0, 0)
  {
    hide InWindow;
    assert TasksAt(1, 1, 0) == map[0 := Using(JobOf(0), HandleOf(0), false)];
    assert Sessions(1) == map[Name(0) := HandleOf(0)] && Zeros(1) == map[0 := 0];
  }

  lemma EvictStep(o: Options, ss: seq<State>, pc: Pc, m: Shared, next: Pc) returns (more: seq<State>)
    requires Run(o, ss, false) && Last(ss).tasks.Keys == {0, 1} && Last(ss).tasks[0] == pc
    requires var other := Last(ss).tasks[1];
             !Searches(other) && !Provides(other) && !Uses(other) && Evict(o, Last(ss).shared, 1, other, ENV) == Some(Effect(m, next, None))
    ensures Run(o, more, false) && Last(more).shared == m && Last(more).tasks == map[0 := pc, 1 := next]
  {
    hide Run, Evict, InWindow, Last;
    more := Advance(o, ss, 1, ENV, m, next);
    assert Last(ss).tasks[1 := next] == map[0 := pc, 1 := next];
  }

  /** And it can be: the connection is dropped after the exec has got its session and before it has locked
      it. */
  lemma ExecOnClosedSession(o: Options) returns (ss: seq<State>)
    requires o.maxCached >= 1
    ensures Run(o, ss, false)
    ensures 0 in Last(ss).tasks && Last(ss).tasks[0] == Executing(JobOf(0), HandleOf(0), false)
    ensures HandleOf(0).sid in Last(ss).shared.closes && Last(ss).shared.closes[HandleOf(0).sid] == 1
  {
    ss := DroppedConnection(o);
    hide Run, InWindow;
    ss := Advance(o, ss, 0, ENV, BeginUse(Last(ss).shared, 0), Waiting(JobOf(0), HandleOf(0), false));
    ss := Advance(o, ss, 0, ENV, TakeLock(Last(ss).shared, 0, 0), Executing(JobOf(0), HandleOf(0), false));
  }

  // ----- a dropped task -----

  /** Where such a run stands: task 0 with `pc`, and its session still cached. */
  predicate Failing(s: State, pc: Pc, lock: map<Sid, Tid>, guards: nat) {
    && 0 in s.tasks && s.tasks[0] == pc && s.shared.sessions == map[Name(0) := HandleOf(0)]
    && s.shared.lock == lock && s.shared.inFlight == map[0 := guards] && s.shared.closes == map[0 := 0]
  }

  lemma SessionStored(o: Options) returns (ss: seq<State>)
    requires o.maxCached >= 1
    ensures Run(o, ss, false) && Failing(Last(ss), Using(JobOf(0), HandleOf(0), false), map[], 0)
  {
    var peak;
    hide Run, InWindow;
    ss, peak := MakeRoomTogether(o, 1, 0, 1);
    ss := StoreAll(o, ss, 1, 0, 1, peak);
    assert Last(ss) == At(1, 1, 0, peak);
    OnlyOneStored();
  }

  lemma SessionInUse(o: Options) returns (ss: seq<State>)
    requires o.maxCached >= 1
    ensures Run(o, ss, false) && Failing(Last(ss), Waiting(JobOf(0), HandleOf(0), false), map[], 1)
  {
    ss := SessionStored(o);
    hide Run, InWindow, Last, SharedAt;
    ss := Advance(o, ss, 0, ENV, BeginUse(Last(ss).shared, 0), Waiting(JobOf(0), HandleOf(0), false));
  }

  lemma ExecFailed(o: Options) returns (ss: seq<State>)
    requires o.maxCached >= 1
    ensures Run(o, ss, false) && Failing(Last(ss), Ran(JobOf(0), HandleOf(0), false, false), map[], 0)
  {
    ss := SessionInUse(o);
    hide Run, InWindow, Last, SharedAt;
    ss := Advance(o, ss, 0, ENV, TakeLock(Last(ss).shared, 0, 0), Executing(JobOf(0), HandleOf(0), false));
    var held: map<Sid, Tid> := map[0 := 0];
    assert held - {0} == map[];
    ss := Advance(o, ss, 0, ENV.(ok := false), EndUse(Unlock(Last(ss).shared, 0), 0), Ran(JobOf(0), HandleOf(0), false, false));
  }

  /** An exec on the only cached session fails, and its task has taken the session out to close it. */
  lemma FailedExec(o: Options) returns (ss: seq<State>)
    requires o.maxCached >= 1
    ensures Run(o, ss, false) && 0 in Last(ss).tasks && Last(ss).tasks[0] == Closing(HandleOf(0), ThenEnd)
    ensures HandleOf(0).sid in Last(ss).shared.closes
  {
    ss := ExecFailed(o);
    hide Run, InWindow, Last, SharedAt;
    ss := Advance(o, ss, 0, ENV, Last(ss).shared, Invalidating(HandleOf(0), ThenEnd));
    ss := Advance(o, ss, 0, ENV, TakeOut(Last(ss).shared, 0, Name(0)), Closing(HandleOf(0), ThenEnd));
  }

  lemma OnlyOneStored()
    ensures TasksAt(1, 1, 0) == map[0 := Using(JobOf(0), HandleOf(0), false)]
    ensures SharedAt(1, 1).sessions == map[Name(0) := HandleOf(0)]
    ensures SharedAt(1, 1).inFlight == map[0 := 0] && SharedAt(1, 1).closes == map[0 := 0] && SharedAt(1, 1).lock == map[]
  {
    assert Sessions(1) == map[Name(0) := HandleOf(0)] && Zeros(1) == map[0 := 0];
  }

  lemma Dropped(o: Options, ss: seq<State>, t: Tid) returns (more: seq<State>)
    requires Run(o, ss, false) && t in Last(ss).tasks && Droppable(Last(ss).tasks[t])
    ensures Run(o, more, true)
    ensures Last(more) == WithTasks(Last(ss), Drop(Last(ss).shared, Last(ss).tasks[t]), Last(ss).tasks[t := Done])
  {
    var s := WithTasks(Last(ss), Drop(Last(ss).shared, Last(ss).tasks[t]), Last(ss).tasks[t := Done]);
    hide Step, Drop, WithTasks;
    more := ss + [s];
    assert DropStep(Last(ss), s);
    forall i | 0 < i < |more| ensures StepAt(o, more, i, true) {
      if i < |ss| {
        assert StepAt(o, ss, i, false);
      }
    }
  }

  /** So a session is lost when such a task is dropped: no entry, no owner, and never closed. */
  lemma DroppedWhileClosing(o: Options) returns (ss: seq<State>)
    requires o.maxCached >= 1
    ensures Run(o, ss, true)
    ensures var sid := HandleOf(0).sid; sid in Last(ss).shared.closes && Accounted(Last(ss).shared, Last(ss).tasks, sid) == 0
  {
    var before := FailedExec(o);
    hide Run, Accounted, InWindow;
    ss := Dropped(o, before, 0);
    NoDropsNeeded(o, before);
    DropLosesOwned(o, before, 0, HandleOf(0).sid);
  }

  lemma NoDropsNeeded(o: Options, ss: seq<State>)
    requires Run(o, ss, false)
    ensures Run(o, ss, true) && Last(ss) == ss[|ss| - 1]
  {
    hide Step, DropStep;
    forall i | 0 < i < |ss| ensures StepAt(o, ss, i, true) {
      assert StepAt(o, ss, i, false);
    }
  }
}
