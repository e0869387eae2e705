/** How many sessions the pool can cache at once.

    Making room and storing are two lock regions, so connectors that have both made room may
    both store.  `peak` is the largest number of connectors ever between the two. */
module ExecPoolBound {
  import opened Wrappers
  import opened ExecPool
  import opened ExecPoolSafety

  /** The connection ids of the connectors between making room and storing. */
  ghost function WindowConns(tasks: map<Tid, Pc>): set<ConnId> {
    set t | t in tasks && WindowOf(tasks[t]).Some? :: WindowOf(tasks[t]).value
  }

  /** The ids no connector is about to store, plus the connectors, stay under the bound. */
  ghost predicate Bounded(o: Options, keys: set<ConnId>, tasks: map<Tid, Pc>, peak: nat) {
    && |InWindow(tasks)| <= peak
    && |keys - WindowConns(tasks)| + |InWindow(tasks)| <= o.maxCached - 1 + peak
  }

  lemma SubsetCard<T>(a: set<T>, b: set<T>)
    requires a <= b
    ensures |a| <= |b|
  {
    assert b == a + (b - a);
  }

  lemma {:induction false} ImageCard(tasks: map<Tid, Pc>, ts: set<Tid>)
    requires forall t <- ts :: t in tasks && WindowOf(tasks[t]).Some?
    ensures |set t | t in ts :: WindowOf(tasks[t]).value| <= |ts|
    decreases ts
  {
    var image := set t | t in ts :: WindowOf(tasks[t]).value;
    if ts != {} {
      var t :| t in ts;
      ImageCard(tasks, ts - {t});
      var rest := set u | u in ts - {t} :: WindowOf(tasks[u]).value;
      assert image == rest + {WindowOf(tasks[t]).value};
    } else {
      assert image == {};
    }
  }

  lemma WindowCard(tasks: map<Tid, Pc>)
    ensures |WindowConns(tasks)| <= |InWindow(tasks)|
  {
    assert WindowConns(tasks) == set t | t in InWindow(tasks) :: WindowOf(tasks[t]).value;
    ImageCard(tasks, InWindow(tasks));
  }

  lemma BoundOnMap(o: Options, keys: set<ConnId>, tasks: map<Tid, Pc>, peak: nat)
    requires Bounded(o, keys, tasks, peak)
    ensures |keys| <= o.maxCached - 1 + peak
  {
    var conns := WindowConns(tasks);
    WindowCard(tasks);
    assert keys == (keys - conns) + (keys * conns);
    SubsetCard(keys * conns, conns);
  }

  // ----- one task enters, leaves or stays out of the window -----

  lemma StayBounded(o: Options, keys: set<ConnId>, tasks: map<Tid, Pc>, peak: nat, keys': set<ConnId>, t: Tid, pc: Pc)
    requires Bounded(o, keys, tasks, peak) && keys' <= keys
    requires WindowOf(pc) == if t in tasks then WindowOf(tasks[t]) else None
    ensures Bounded(o, keys', tasks[t := pc], peak) && InWindow(tasks[t := pc]) == InWindow(tasks)
  {
    var tasks' := tasks[t := pc];
    assert InWindow(tasks') == InWindow(tasks);
    forall c <- WindowConns(tasks) ensures c in WindowConns(tasks') {
      var u :| u in tasks && WindowOf(tasks[u]) == Some(c);
      assert u in tasks' && WindowOf(tasks'[u]) == Some(c);
    }
    SubsetCard(keys' - WindowConns(tasks'), keys - WindowConns(tasks));
  }

  lemma EnterBounded(o: Options, tasks: map<Tid, Pc>, peak: nat, keys': set<ConnId>, t: Tid, pc: Pc, conn: ConnId)
    requires o.maxCached >= 1 && WindowOf(pc) == Some(conn) && |keys' - {conn}| <= o.maxCached - 1
    ensures var tasks' := tasks[t := pc]; Bounded(o, keys', tasks', Max(peak, |InWindow(tasks')|))
  {
    var tasks' := tasks[t := pc];
    assert WindowOf(tasks'[t]) == Some(conn) && conn in WindowConns(tasks');
    SubsetCard(keys' - WindowConns(tasks'), keys' - {conn});
  }

  lemma LeaveBounded(o: Options, keys: set<ConnId>, tasks: map<Tid, Pc>, peak: nat, keys': set<ConnId>, t: Tid,
          pc: Pc, conn: ConnId)
    requires Bounded(o, keys, tasks, peak) && keys' <= keys + {conn}
    requires t in tasks && WindowOf(tasks[t]) == Some(conn) && WindowOf(pc) == None
    ensures Bounded(o, keys', tasks[t := pc], peak) && |InWindow(tasks[t := pc])| <= peak
  {
    var tasks' := tasks[t := pc];
    assert InWindow(tasks') == InWindow(tasks) - {t};
    forall c <- WindowConns(tasks) ensures c == conn || c in WindowConns(tasks') {
      var u :| u in tasks && WindowOf(tasks[u]) == Some(c);
      assert u != t ==> WindowOf(tasks'[u]) == Some(c);
    }
    var before, after := keys - WindowConns(tasks), keys' - WindowConns(tasks');
    SubsetCard(after, before + {conn});
  }

  // ----- making room -----

  lemma VictimsMakeRoom(o: Options, sessions: map<ConnId, Handle>, active: ConnId, victims: seq<ConnId>)
    requires o.maxCached >= 1 && AreVictims(o, sessions, active, victims)
    ensures |Without(sessions, victims).Keys - {active}| <= o.maxCached - 1
  {
    hide Precedes;
    var others := sessions.Keys - {active};
    var gone := set c | c in victims;
    assert forall i, j :: 0 <= i < j < |victims| ==> victims[i] != victims[j];
    DistinctCard(victims);
    CountLeft(o, sessions, active, victims, others, gone);
    assert Without(sessions, victims).Keys == sessions.Keys - gone;
    assert Without(sessions, victims).Keys - {active} == others - gone;
  }

  lemma CountLeft(o: Options, sessions: map<ConnId, Handle>, active: ConnId, victims: seq<ConnId>,
          others: set<ConnId>, gone: set<ConnId>)
    requires o.maxCached >= 1 && others == sessions.Keys - {active} && gone <= others && |gone| == |victims|
    requires |victims| == if Surplus(o, sessions) <= |others| then Surplus(o, sessions) else |others|
    ensures |others - gone| <= o.maxCached - 1
  {
    assert others == (others - gone) + gone;
    assert |sessions| == |sessions.Keys|;
    SubsetCard(others, sessions.Keys);
  }

  lemma {:induction false} DistinctCard(s: seq<ConnId>)
    requires forall i, j :: 0 <= i < j < |s| ==> s[i] != s[j]
    ensures |set c | c in s| == |s|
  {
    if s != [] {
      var front := s[..|s| - 1];
      DistinctCard(front);
      assert (set c | c in s) == (set c | c in front) + {s[|s| - 1]};
    }
  }

  // ----- every step -----

  /** What a task's step does to the map's keys, by whether it enters or leaves the window. */
  ghost predicate WindowStep(o: Options, m: Shared, pc: Pc, r: Effect) {
    || (WindowOf(r.pc) == WindowOf(pc) && r.shared.sessions.Keys <= m.sessions.Keys)
    || (WindowOf(r.pc).Some? && |r.shared.sessions.Keys - {WindowOf(r.pc).value}| <= o.maxCached - 1)
    || (WindowOf(pc).Some? && WindowOf(r.pc) == None && r.shared.sessions.Keys <= m.sessions.Keys + {WindowOf(pc).value})
  }

  lemma OutsideWindow(pc: Pc)
    requires Searches(pc) || Uses(pc)
    ensures WindowOf(pc) == None
  {
  }

  lemma ProvideEntersOrLeaves(o: Options, m: Shared, t: Tid, pc: Pc, e: Env)
    requires o.maxCached >= 1 && Provides(pc) && Shaped(pc) && Provide(o, m, t, pc, e).Some?
    ensures WindowStep(o, m, pc, Provide(o, m, t, pc, e).value)
  {
    match pc {
      case Connecting(_, _) =>
      case Connected(job, session, _) =>
        VictimsMakeRoom(o, m.sessions, job.conn, e.victims);
      case Storing(job, session, stale, second) =>
        if stale == [] {
          StoreLeaves(m, t, job, session, second);
        }
    }
  }

  lemma StoreLeaves(m: Shared, t: Tid, job: Job, session: Handle, second: bool)
    ensures var r := Store(m, t, job, session, second);
            r.Some? && WindowOf(r.value.pc) == None && r.value.shared.sessions.Keys <= m.sessions.Keys + {session.conn}
  {
  }

  lemma EvictStays(o: Options, m: Shared, t: Tid, pc: Pc, e: Env)
    requires Evict(o, m, t, pc, e).Some? && Shaped(pc)
    ensures WindowOf(Evict(o, m, t, pc, e).value.pc) == WindowOf(pc)
  {
    match pc {
      case Invalidating(_, after) => ResumeWindow(after);
      case Closing(_, _) =>
      case ClosingLocked(_, after) => ResumeWindow(after);
      case Timer(_) =>
      case TimerIdle(_) =>
      case Evicting(_) =>
      case _ =>
    }
  }

  lemma ResumeWindow(after: After)
    ensures WindowOf(Resume(after)) == WindowAfter(after)
    ensures OwnedAfter(after) == [] ==> WindowAfter(after) == None
  {
  }

  lemma TaskWindowStep(o: Options, m: Shared, t: Tid, pc: Pc, e: Env)
    requires o.maxCached >= 1 && Shaped(pc) && TaskStep(o, m, t, pc, e).Some?
    ensures WindowStep(o, m, pc, TaskStep(o, m, t, pc, e).value)
  {
    hide Search, Provide, Use, Evict, WindowOf, Shaped;
    if Searches(pc) || Uses(pc) {
      OutsideWindow(pc);
    } else if Provides(pc) {
      ProvideEntersOrLeaves(o, m, t, pc, e);
    } else {
      EvictStays(o, m, t, pc, e);
    }
  }

  ghost predicate StateBounded(o: Options, s: State) {
    Bounded(o, s.shared.sessions.Keys, s.tasks, s.peak)
  }

  lemma MoveBounded(o: Options, s: State, t: Tid, r: Effect)
    requires o.maxCached >= 1 && StateBounded(o, s) && t in s.tasks && WindowStep(o, s.shared, s.tasks[t], r)
    ensures StateBounded(o, WithTasks(s, r.shared, s.tasks[t := r.pc]))
  {
    hide WindowOf, InWindow, Bounded;
    var pc := s.tasks[t];
    if WindowOf(r.pc) == WindowOf(pc) && r.shared.sessions.Keys <= s.shared.sessions.Keys {
      StayBounded(o, s.shared.sessions.Keys, s.tasks, s.peak, r.shared.sessions.Keys, t, r.pc);
      PeakStays(o, s.shared.sessions.Keys, s.tasks, s.peak);
    } else if WindowOf(r.pc).Some? && |r.shared.sessions.Keys - {WindowOf(r.pc).value}| <= o.maxCached - 1 {
      EnterBounded(o, s.tasks, s.peak, r.shared.sessions.Keys, t, r.pc, WindowOf(r.pc).value);
    } else {
      LeaveBounded(o, s.shared.sessions.Keys, s.tasks, s.peak, r.shared.sessions.Keys, t, r.pc, WindowOf(pc).value);
    }
  }

  lemma PeakStays(o: Options, keys: set<ConnId>, tasks: map<Tid, Pc>, peak: nat)
    requires Bounded(o, keys, tasks, peak)
    ensures Max(peak, |InWindow(tasks)|) == peak
  {
  }

  lemma SpawnBounded(o: Options, s: State, t: Tid, pc: Pc)
    requires StateBounded(o, s) && t !in s.tasks && WindowOf(pc) == None
    ensures StateBounded(o, WithTasks(s, s.shared, s.tasks[t := pc]))
  {
    hide WindowOf, InWindow, Bounded;
    StayBounded(o, s.shared.sessions.Keys, s.tasks, s.peak, s.shared.sessions.Keys, t, pc);
    PeakStays(o, s.shared.sessions.Keys, s.tasks, s.peak);
  }

  lemma AdvanceBounded(o: Options, s: State, s': State)
    requires o.maxCached >= 1 && StateBounded(o, s) && Inv(s.shared, s.tasks) && Advances(o, s, s')
    ensures StateBounded(o, s')
  {
    hide Inv, Bounded, TaskStep, WindowStep, InWindow;
    var t: Tid, e: Env :| AdvancesTo(o, s, t, e, s');
    var r := TaskStep(o, s.shared, t, s.tasks[t], e).value;
    TaskHandles(s.shared, s.tasks, t);
    TaskWindowStep(o, s.shared, t, s.tasks[t], e);
    MoveBounded(o, s, t, r);
    var moved := WithTasks(s, r.shared, s.tasks[t := r.pc]);
    if r.timer.Some? {
      SpawnBounded(o, moved, e.tid, Timer(r.timer.value));
      TimerOutsideWindow(moved.tasks, e.tid, r.timer.value);
    }
  }

  lemma TimerOutsideWindow(tasks: map<Tid, Pc>, t: Tid, h: Handle)
    requires t !in tasks
    ensures InWindow(tasks[t := Timer(h)]) == InWindow(tasks)
  {
  }

  lemma DropBounded(o: Options, s: State, t: Tid)
    requires o.maxCached >= 1 && StateBounded(o, s) && t in s.tasks
    ensures StateBounded(o, WithTasks(s, Drop(s.shared, s.tasks[t]), s.tasks[t := Done]))
  {
    hide Bounded, InWindow;
    MoveBounded(o, s, t, Effect(Drop(s.shared, s.tasks[t]), Done, None));
  }

  lemma StepBounded(o: Options, s: State, s': State)
    requires o.maxCached >= 1 && StateBounded(o, s) && Inv(s.shared, s.tasks) && (Step(o, s, s') || DropStep(s, s'))
    ensures StateBounded(o, s')
  {
    hide StateBounded, Inv, Advances, Drop, InWindow;
    if Spawns(s, s') {
      var t: Tid, pc: Pc :| t !in s.tasks && (pc.Start? || pc.Evicting?) && s' == WithTasks(s, s.shared, s.tasks[t := pc]);
      SpawnBounded(o, s, t, pc);
    } else if Advances(o, s, s') {
      AdvanceBounded(o, s, s');
    } else {
      var t: Tid :| t in s.tasks && Droppable(s.tasks[t]) && s' == WithTasks(s, Drop(s.shared, s.tasks[t]), s.tasks[t := Done]);
      DropBounded(o, s, t);
    }
  }

  lemma {:induction false} RunBounded(o: Options, ss: seq<State>, drops: bool, i: nat)
    requires o.maxCached >= 1 && Run(o, ss, drops) && i < |ss|
    ensures StateBounded(o, ss[i])
  {
    hide Inv, Step, DropStep;
    if i > 0 {
      RunBounded(o, ss, drops, i - 1);
      RunKeeps(o, ss, drops, i - 1);
      assert StepAt(o, ss, i, drops);
      StepBounded(o, ss[i - 1], ss[i]);
    } else {
      assert InWindow(EMPTY.tasks) == {};
      assert EMPTY.shared.sessions.Keys - WindowConns(EMPTY.tasks) == {};
    }
  }

  /** At any moment of any interleaving the pool caches at most `maxCached - 1` sessions plus the largest
      number of connectors that were ever between making room and storing at one time.  With one
      connector at a time that is `maxCached`. */
  lemma CacheSizeBound(o: Options, ss: seq<State>, drops: bool, i: nat)
    requires o.maxCached >= 1 && Run(o, ss, drops) && i < |ss|
    ensures |ss[i].shared.sessions| <= o.maxCached - 1 + ss[i].peak
    ensures ss[i].peak <= 1 ==> |ss[i].shared.sessions| <= o.maxCached
  {
    RunBounded(o, ss, drops, i);
    BoundOnMap(o, ss[i].shared.sessions.Keys, ss[i].tasks, ss[i].peak);
    assert |ss[i].shared.sessions| == |ss[i].shared.sessions.Keys|;
  }
}
