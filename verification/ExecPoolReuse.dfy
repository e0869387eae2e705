/** Which sessions the pool's tasks use. */
module ExecPoolReuse {
  import opened Wrappers
  import opened ExecPool
  import opened ExecPoolSafety

  /** The session was connected for this connection, host, user and credentials. */
  predicate Fits(job: Job, h: Handle) {
    h.conn == job.conn && h.signature == job.signature
  }

  predicate FitsAfter(after: After) {
    match after
    case ThenStore(job, session, _, _) => Fits(job, session)
    case ThenUse(job, handle, _) => Fits(job, handle)
    case _ => true
  }

  /** Every session that a task stores or uses fits its call; one just looked up need not yet. */
  predicate TaskFits(pc: Pc) {
    match pc
    case Found(job, handle, _) => handle.conn == job.conn
    case Connected(job, session, _) => Fits(job, session)
    case Storing(job, session, _, _) => Fits(job, session)
    case Using(job, handle, _) => Fits(job, handle)
    case Waiting(job, handle, _) => Fits(job, handle)
    case Executing(job, handle, _) => Fits(job, handle)
    case Ran(job, handle, _, _) => Fits(job, handle)
    case Invalidating(_, after) => FitsAfter(after)
    case Closing(_, after) => FitsAfter(after)
    case ClosingLocked(_, after) => FitsAfter(after)
    case _ => true
  }

  predicate Keyed(sessions: map<ConnId, Handle>) {
    forall c <- sessions :: sessions[c].conn == c
  }

  predicate AllFit(s: State) {
    Keyed(s.shared.sessions) && forall t <- s.tasks :: TaskFits(s.tasks[t])
  }

  predicate EffectFits(r: Option<Effect>) {
    r.Some? ==> Keyed(r.value.shared.sessions) && TaskFits(r.value.pc)
  }

  lemma ProvideFits(o: Options, m: Shared, t: Tid, pc: Pc, e: Env)
    requires Keyed(m.sessions) && TaskFits(pc) && Provides(pc)
    ensures EffectFits(Provide(o, m, t, pc, e))
  {
    hide AreVictims, Picked;
  }

  lemma EvictFits(o: Options, m: Shared, t: Tid, pc: Pc, e: Env)
    requires Keyed(m.sessions) && TaskFits(pc) && !Searches(pc) && !Provides(pc) && !Uses(pc)
    ensures EffectFits(Evict(o, m, t, pc, e))
  {
  }

  lemma SearchFits(o: Options, m: Shared, pc: Pc, e: Env)
    requires Keyed(m.sessions) && TaskFits(pc) && Searches(pc)
    ensures EffectFits(Search(o, m, pc, e))
  {
  }

  lemma UseFits(o: Options, m: Shared, t: Tid, pc: Pc, e: Env)
    requires Keyed(m.sessions) && TaskFits(pc) && Uses(pc)
    ensures EffectFits(Use(o, m, t, pc, e))
  {
  }

  lemma TaskStepFits(o: Options, m: Shared, t: Tid, pc: Pc, e: Env)
    requires Keyed(m.sessions) && TaskFits(pc)
    ensures EffectFits(TaskStep(o, m, t, pc, e))
  {
    hide Search, Provide, Use, Evict, TaskFits, Keyed, EffectFits;
    if Searches(pc) {
      SearchFits(o, m, pc, e);
    } else if Provides(pc) {
      ProvideFits(o, m, t, pc, e);
    } else if Uses(pc) {
      UseFits(o, m, t, pc, e);
    } else {
      EvictFits(o, m, t, pc, e);
    }
  }

  lemma StepFits(o: Options, s: State, s': State)
    requires AllFit(s) && (Step(o, s, s') || DropStep(s, s'))
    ensures AllFit(s')
  {
    hide TaskStep, InWindow, TaskFits, Keyed;
    assert forall job: Job :: TaskFits(Start(job)) by { CallsFit(); }
    assert forall c: ConnId :: TaskFits(Evicting(c)) by { CallsFit(); }
    assert TaskFits(Done) && forall h: Handle :: TaskFits(Timer(h)) by { CallsFit(); }
    if Advances(o, s, s') {
      var t: Tid, e: Env :| AdvancesTo(o, s, t, e, s');
      TaskStepFits(o, s.shared, t, s.tasks[t], e);
    }
  }

  lemma CallsFit()
    ensures TaskFits(Done) && (forall job: Job :: TaskFits(Start(job)))
    ensures (forall c: ConnId :: TaskFits(Evicting(c))) && forall h: Handle :: TaskFits(Timer(h))
  {
  }

  /** In every interleaving an exec runs on a session of its own connection and signature: not on one of
      another connection, nor on one connected before the connection's settings were changed. */
  lemma {:induction false} ExecRunsOnItsOwn(o: Options, ss: seq<State>, drops: bool, i: nat)
    requires Run(o, ss, drops) && i < |ss|
    ensures AllFit(ss[i])
    ensures forall t <- ss[i].tasks :: ss[i].tasks[t].Executing? ==> Fits(ss[i].tasks[t].job, ss[i].tasks[t].handle)
  {
    if i > 0 {
      hide Step, DropStep;
      ExecRunsOnItsOwn(o, ss, drops, i - 1);
      assert StepAt(o, ss, i, drops);
      StepFits(o, ss[i - 1], ss[i]);
    }
    assert forall t <- ss[i].tasks :: TaskFits(ss[i].tasks[t]);
  }

  // ----- how a session leaves the map -----

  /** The reasons for which a task takes the session `h`, cached for `c`, out of the map: it holds a handle
      of that very session, it drops the connection, it needs room for another, or it has connected with
      other settings. */
  predicate TakesOut(o: Options, m: Shared, pc: Pc, c: ConnId, h: Handle) {
    match pc
    case Invalidating(handle, _) => handle.sid == h.sid && handle.conn == c
    case Evicting(conn) => conn == c
    case Connected(job, _, _) => job.conn != c && 0 < o.maxCached <= |m.sessions|
    case Storing(_, session, stale, _) => stale == [] && session.conn == c && session.signature != h.signature
    case _ => false
  }

  /** Session `h` is no longer the one cached for `c`. */
  predicate Gone(sessions: map<ConnId, Handle>, c: ConnId, h: Handle) {
    c !in sessions || sessions[c] != h
  }

  predicate LeavesFor(o: Options, m: Shared, r: Option<Effect>, pc: Pc, c: ConnId)
    requires c in m.sessions
  {
    r.Some? && Gone(r.value.shared.sessions, c, m.sessions[c]) ==> TakesOut(o, m, pc, c, m.sessions[c])
  }

  lemma VictimLeaves(o: Options, sessions: map<ConnId, Handle>, active: ConnId, victims: seq<ConnId>, c: ConnId)
    requires AreVictims(o, sessions, active, victims) && c in victims
    ensures c != active && 0 < o.maxCached <= |sessions|
  {
  }

  lemma ProvideLeaves(o: Options, m: Shared, t: Tid, pc: Pc, e: Env, c: ConnId)
    requires c in m.sessions && Provides(pc)
    ensures LeavesFor(o, m, Provide(o, m, t, pc, e), pc, c)
  {
    hide AreVictims, Precedes, Picked, HeldBy;
    if pc.Connected? && AreVictims(o, m.sessions, pc.job.conn, e.victims) && c in e.victims {
      VictimLeaves(o, m.sessions, pc.job.conn, e.victims, c);
    }
  }

  lemma EvictLeaves(o: Options, m: Shared, t: Tid, pc: Pc, e: Env, c: ConnId)
    requires c in m.sessions
    ensures LeavesFor(o, m, Evict(o, m, t, pc, e), pc, c)
  {
    hide Resume;
  }

  lemma StepLeaves(o: Options, m: Shared, t: Tid, pc: Pc, e: Env, c: ConnId)
    requires c in m.sessions
    ensures LeavesFor(o, m, TaskStep(o, m, t, pc, e), pc, c)
  {
    hide Search, Provide, Use, Evict, TakesOut;
    if Provides(pc) {
      ProvideLeaves(o, m, t, pc, e, c);
    }
    EvictLeaves(o, m, t, pc, e, c);
  }

  predicate SomeTaskTakesOut(o: Options, s: State, c: ConnId)
    requires c in s.shared.sessions
  {
    exists t <- s.tasks :: TakesOut(o, s.shared, s.tasks[t], c, s.shared.sessions[c])
  }

  /** Over every step of every interleaving: a cached session leaves the map only for one of those reasons.
      So a stale handle evicts no newer session under the same connection id. */
  lemma SessionLeavesOnlyFor(o: Options, ss: seq<State>, drops: bool, i: nat, c: ConnId)
    requires Run(o, ss, drops) && 0 < i < |ss| && c in ss[i - 1].shared.sessions
    requires Gone(ss[i].shared.sessions, c, ss[i - 1].shared.sessions[c])
    ensures SomeTaskTakesOut(o, ss[i - 1], c)
  {
    hide TaskStep, InWindow, TakesOut;
    assert StepAt(o, ss, i, drops);
    var t: Tid, e: Env :| AdvancesTo(o, ss[i - 1], t, e, ss[i]);
    StepLeaves(o, ss[i - 1].shared, t, ss[i - 1].tasks[t], e, c);
  }

  // ----- idle sessions -----

  /** A session last used at that time has been idle for longer than the pool allows. */
  predicate IdleTooLong(o: Options, m: Shared, h: Handle, now: nat) {
    h.sid in m.lastUsed && now > m.lastUsed[h.sid] + o.idleTimeout
  }

  predicate InUseLately(o: Options, m: Shared, h: Handle, now: nat) {
    h.sid in m.lastUsed && now <= m.lastUsed[h.sid] + o.idleTimeout
  }

  predicate Busy(m: Shared, h: Handle) {
    h.sid in m.inFlight && m.inFlight[h.sid] > 0
  }

  /** How a task that prunes, or looks for its session, goes on.  A call looks at every cached session, passes over
      those in use, and takes out those idle too long; then it takes the session of its connection if it was in use
      lately and has the settings asked for.  A timer looks at its own session in the same way.  `clock` is the time
      at this step; a call has read its own, `now`, when it began. */
  predicate JudgesIdle(o: Options, m: Shared, pc: Pc, next: Pc, clock: nat) {
    match pc
    case Start(job) =>
      next.Pruning? && next.job == job && next.now == clock && forall c <- m.sessions :: m.sessions[c] in next.todo
    case Pruning(job, todo, now) =>
      next == if todo == [] then LookingUp(job, now)
              else if Busy(m, todo[0]) then Pruning(job, todo[1..], now) else PruneIdle(job, todo, now)
    case PruneIdle(job, todo, now) =>
      todo != []
      && (|| (next == Pruning(job, todo[1..], now) && InUseLately(o, m, todo[0], now))
          || (next == Invalidating(todo[0], PruneNext(job, todo[1..], now)) && IdleTooLong(o, m, todo[0], now)))
    case LookingUp(job, now) =>
      next == if job.conn in m.sessions then Found(job, m.sessions[job.conn], now) else Connecting(job, false)
    case Found(job, h, now) =>
      || (next == Using(job, h, false) && InUseLately(o, m, h, now) && h.signature == job.signature)
      || (next == Invalidating(h, ThenConnect(job)) && (IdleTooLong(o, m, h, now) || h.signature != job.signature))
    case Timer(h) =>
      next == if Busy(m, h) then Done else TimerIdle(h)
    case TimerIdle(h) =>
      || (next == Invalidating(h, ThenEnd) && IdleTooLong(o, m, h, clock))
      || (next == Done && InUseLately(o, m, h, clock))
    case _ => true
  }

  lemma SearchJudgesIdle(o: Options, m: Shared, pc: Pc, e: Env)
    requires Search(o, m, pc, e).Some?
    ensures JudgesIdle(o, m, pc, Search(o, m, pc, e).value.pc, e.now)
  {
  }

  lemma StepJudgesIdle(o: Options, m: Shared, t: Tid, pc: Pc, e: Env)
    requires TaskStep(o, m, t, pc, e).Some?
    ensures JudgesIdle(o, m, pc, TaskStep(o, m, t, pc, e).value.pc, e.now)
  {
    if Searches(pc) {
      SearchJudgesIdle(o, m, pc, e);
    }
    hide Search, Provide, Use;
  }

  /** Every step of every run does so, unless the task is dropped. */
  lemma OnlyIdleSessionsGo(o: Options, ss: seq<State>, drops: bool, i: nat, t: Tid) returns (clock: nat)
    requires Run(o, ss, drops) && 0 < i < |ss| && t in ss[i - 1].tasks && t in ss[i].tasks
    requires ss[i].tasks[t] != ss[i - 1].tasks[t] && (drops ==> !ss[i].tasks[t].Done?)
    ensures JudgesIdle(o, ss[i - 1].shared, ss[i - 1].tasks[t], ss[i].tasks[t], clock)
  {
    hide TaskStep, InWindow, JudgesIdle, Drop;
    assert StepAt(o, ss, i, drops);
    var u: Tid, e: Env :| AdvancesTo(o, ss[i - 1], u, e, ss[i]);
    StepJudgesIdle(o, ss[i - 1].shared, u, ss[i - 1].tasks[u], e);
    clock := e.now;
  }

  // ----- timers -----

  /** A call that has used its session leaves a timer for it, unless sessions never become idle. */
  predicate LeavesTimer(o: Options, pc: Pc) {
    o.idleTimeout != 0 && ((pc.Using? && pc.job.warm) || (pc.Ran? && pc.ok))
  }

  lemma StepLeavesTimer(o: Options, m: Shared, t: Tid, pc: Pc, e: Env)
    requires TaskStep(o, m, t, pc, e).Some?
    ensures TaskStep(o, m, t, pc, e).value.timer == if LeavesTimer(o, pc) then Some(pc.handle) else None
  {
    hide Search, Provide, Evict;
  }

  /** In every run, and nothing else brings a timer about. */
  lemma UseLeavesTimer(o: Options, ss: seq<State>, i: nat, t: Tid)
    requires Run(o, ss, false) && 0 < i < |ss| && t in ss[i - 1].tasks && t in ss[i].tasks
    requires ss[i].tasks[t] != ss[i - 1].tasks[t]
    ensures if LeavesTimer(o, ss[i - 1].tasks[t]) then
              exists u: Tid :: u !in ss[i - 1].tasks && u in ss[i].tasks && ss[i].tasks[u] == Timer(ss[i - 1].tasks[t].handle)
            else ss[i].tasks.Keys == ss[i - 1].tasks.Keys
  {
    hide TaskStep, InWindow, LeavesTimer;
    assert StepAt(o, ss, i, false);
    var u: Tid, e: Env :| AdvancesTo(o, ss[i - 1], u, e, ss[i]);
    StepLeavesTimer(o, ss[i - 1].shared, t, ss[i - 1].tasks[t], e);
    if LeavesTimer(o, ss[i - 1].tasks[t]) {
      assert e.tid !in ss[i - 1].tasks && e.tid in ss[i].tasks;
    }
  }
}
