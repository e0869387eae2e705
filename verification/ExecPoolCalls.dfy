/** What one call does, however the steps of others come between its own. */
module ExecPoolCalls {
  import opened Wrappers
  import opened ExecPool
  import opened ExecPoolSafety

  // ----- how often a call runs its exec -----

  /** How a task began. */
  ghost function Origin(ss: seq<State>, t: Tid, i: nat): Pc
    requires i < |ss| && t in ss[i].tasks
  {
    if i > 0 && t in ss[i - 1].tasks then Origin(ss, t, i - 1) else ss[i].tasks[t]
  }

  /** Task `t` has an exec fail at step `i`. */
  predicate FailsAt(ss: seq<State>, t: Tid, i: nat)
    requires i < |ss|
  {
    && i > 0 && t in ss[i - 1].tasks && t in ss[i].tasks
    && ss[i - 1].tasks[t].Executing? && ss[i].tasks[t].Ran? && !ss[i].tasks[t].ok
  }

  /** How many execs of task `t` have failed. */
  function Failures(ss: seq<State>, t: Tid, i: nat): nat
    requires i < |ss|
  {
    (if i > 0 then Failures(ss, t, i - 1) else 0) + if FailsAt(ss, t, i) then 1 else 0
  }

  /** A call tries again after one failure, if it was asked to and does not stream. */
  predicate Attempt(job: Job, second: bool, failed: nat) {
    if second then failed == 1 && job.retry && !job.streaming else failed == 0
  }

  predicate TellsAfter(job: Job, after: After, failed: nat) {
    match after
    case PruneNext(j, _, _) => j == job && failed == 0
    case ThenConnect(j) => j == job && failed == 0
    case ThenStore(j, _, _, second) => j == job && Attempt(job, second, failed)
    case ThenUse(j, _, second) => j == job && Attempt(job, second, failed)
    case ThenRetry(j) => j == job && Attempt(job, true, failed)
    case ThenRelease(_) => job.streaming && failed == 1
    case ThenEnd => !job.streaming && failed == if job.retry then 2 else 1
  }

  /** Where a call is, by how many of its execs have failed. */
  predicate Tells(job: Job, pc: Pc, failed: nat) {
    match pc
    case Start(j) => j == job && failed == 0
    case Pruning(j, _, _) => j == job && failed == 0
    case PruneIdle(j, _, _) => j == job && failed == 0
    case LookingUp(j, _) => j == job && failed == 0
    case Found(j, _, _) => j == job && failed == 0
    case Connecting(j, second) => j == job && Attempt(job, second, failed)
    case Connected(j, _, second) => j == job && Attempt(job, second, failed)
    case Storing(j, _, _, second) => j == job && Attempt(job, second, failed)
    case Using(j, _, second) => j == job && Attempt(job, second, failed)
    case Waiting(j, _, second) => j == job && !job.warm && Attempt(job, second, failed)
    case Executing(j, _, second) => j == job && !job.warm && Attempt(job, second, failed)
    case Ran(j, _, second, ok) => j == job && !job.warm && (ok || failed > 0) && Attempt(job, second, if ok then failed else failed - 1)
    case Releasing(_) => job.streaming && failed <= 1
    case Invalidating(_, after) => TellsAfter(job, after, failed)
    case Closing(_, after) => TellsAfter(job, after, failed)
    case ClosingLocked(_, after) => TellsAfter(job, after, failed)
    case Done => failed <= if job.retry && !job.streaming then 2 else 1
    case _ => false
  }

  /** A timer, or a request to drop a connection. */
  predicate TidiesUp(pc: Pc) {
    match pc
    case Timer(_) => true
    case TimerIdle(_) => true
    case Evicting(_) => true
    case Invalidating(_, after) => after.ThenEnd?
    case Closing(_, after) => after.ThenEnd?
    case ClosingLocked(_, after) => after.ThenEnd?
    case Done => true
    case _ => false
  }

  predicate Goes(origin: Pc, pc: Pc, failed: nat) {
    if origin.Start? then Tells(origin.job, pc, failed) else TidiesUp(pc) && failed == 0
  }

  lemma SearchTells(o: Options, m: Shared, pc: Pc, e: Env, job: Job, failed: nat)
    requires Tells(job, pc, failed) && Search(o, m, pc, e).Some?
    ensures Tells(job, Search(o, m, pc, e).value.pc, failed)
  {
    hide CanReuse;
  }

  lemma ProvideTells(o: Options, m: Shared, t: Tid, pc: Pc, e: Env, job: Job, failed: nat)
    requires Tells(job, pc, failed) && Provide(o, m, t, pc, e).Some?
    ensures Tells(job, Provide(o, m, t, pc, e).value.pc, failed)
  {
    hide AreVictims, Picked, Connect, MakeRoom, Insert;
  }

  lemma UseTells(o: Options, m: Shared, t: Tid, pc: Pc, e: Env, job: Job, failed: nat)
    requires Tells(job, pc, failed) && Use(o, m, t, pc, e).Some?
    ensures var next := Use(o, m, t, pc, e).value.pc;
            Tells(job, next, failed + if pc.Executing? && next.Ran? && !next.ok then 1 else 0)
  {
  }

  lemma ResumeTells(job: Job, after: After, failed: nat)
    requires TellsAfter(job, after, failed)
    ensures Tells(job, Resume(after), failed)
  {
  }

  lemma EvictTells(o: Options, m: Shared, t: Tid, pc: Pc, e: Env, job: Job, failed: nat)
    requires Tells(job, pc, failed) && Evict(o, m, t, pc, e).Some?
    ensures Tells(job, Evict(o, m, t, pc, e).value.pc, failed)
  {
    hide TellsAfter, Resume, TakeOut;
    if pc.Invalidating? || pc.Closing? || pc.ClosingLocked? {
      ResumeTells(job, pc.after, failed);
    }
  }

  lemma StepTells(o: Options, m: Shared, t: Tid, pc: Pc, e: Env, job: Job, failed: nat)
    requires Tells(job, pc, failed) && TaskStep(o, m, t, pc, e).Some?
    ensures var next := TaskStep(o, m, t, pc, e).value.pc;
            Tells(job, next, failed + if pc.Executing? && next.Ran? && !next.ok then 1 else 0)
  {
    hide Tells, Search, Provide, Use, Evict;
    if Searches(pc) {
      SearchTells(o, m, pc, e, job, failed);
    } else if Provides(pc) {
      ProvideTells(o, m, t, pc, e, job, failed);
    } else if Uses(pc) {
      UseTells(o, m, t, pc, e, job, failed);
    } else {
      EvictTells(o, m, t, pc, e, job, failed);
    }
  }

  lemma StepTidies(o: Options, m: Shared, t: Tid, pc: Pc, e: Env)
    requires TidiesUp(pc) && TaskStep(o, m, t, pc, e).Some?
    ensures TidiesUp(TaskStep(o, m, t, pc, e).value.pc)
  {
    hide TakeOut;
  }

  lemma DroppedGoes(origin: Pc, pc: Pc, failed: nat)
    requires Goes(origin, pc, failed)
    ensures Goes(origin, Done, failed)
  {
  }

  lemma {:induction false} NotYetFailed(o: Options, ss: seq<State>, drops: bool, i: nat, t: Tid)
    requires Run(o, ss, drops) && i < |ss| && t !in ss[i].tasks
    ensures Failures(ss, t, i) == 0
  {
    if i > 0 {
      hide TaskStep, InWindow, Drop;
      assert StepAt(o, ss, i, drops);
      NotYetFailed(o, ss, drops, i - 1, t);
    }
  }

  /** A task that is there after a step was there before, as it is now or one step back, or has just begun. */
  lemma TaskMoves(o: Options, s: State, s': State, t: Tid) returns (e: Env)
    requires (Step(o, s, s') || DropStep(s, s')) && t in s'.tasks
    ensures if t !in s.tasks then s'.tasks[t].Start? || s'.tasks[t].Evicting? || s'.tasks[t].Timer?
            else s'.tasks[t] == s.tasks[t] || s'.tasks[t] == Done
                 || (TaskStep(o, s.shared, t, s.tasks[t], e).Some? && TaskStep(o, s.shared, t, s.tasks[t], e).value.pc == s'.tasks[t])
  {
    hide TaskStep, InWindow, Drop;
    e := Env(0, 0, 0, true, [], []);
    if Advances(o, s, s') {
      var u: Tid, e': Env :| AdvancesTo(o, s, u, e', s');
      e := e';
    }
  }

  /** In every run a call runs its exec again only after it has failed, once, and if it was asked to; and it ends
      with a failure only when it has run it as often as that. */
  lemma {:induction false} CallsTryAgainOnce(o: Options, ss: seq<State>, drops: bool, i: nat, t: Tid)
    requires Run(o, ss, drops) && i < |ss| && t in ss[i].tasks
    ensures Goes(Origin(ss, t, i), ss[i].tasks[t], Failures(ss, t, i))
  {
    hide TaskStep, Goes, Step, DropStep, Tells, TidiesUp;
    assert StepAt(o, ss, i, drops);
    var e := TaskMoves(o, ss[i - 1], ss[i], t);
    if t !in ss[i - 1].tasks {
      NotYetFailed(o, ss, drops, i - 1, t);
      BeginGoes(ss[i].tasks[t]);
    } else {
      CallsTryAgainOnce(o, ss, drops, i - 1, t);
      var pc, next, origin, failed := ss[i - 1].tasks[t], ss[i].tasks[t], Origin(ss, t, i - 1), Failures(ss, t, i - 1);
      if next == Done {
        DroppedGoes(origin, pc, failed);
      } else if next != pc {
        StepGoes(o, ss[i - 1].shared, t, pc, e, origin, failed);
      }
    }
  }

  lemma StepGoes(o: Options, m: Shared, t: Tid, pc: Pc, e: Env, origin: Pc, failed: nat)
    requires Goes(origin, pc, failed) && TaskStep(o, m, t, pc, e).Some?
    ensures var next := TaskStep(o, m, t, pc, e).value.pc;
            Goes(origin, next, failed + if pc.Executing? && next.Ran? && !next.ok then 1 else 0)
  {
    hide Tells, TaskStep;
    if origin.Start? {
      StepTells(o, m, t, pc, e, origin.job, failed);
    } else {
      StepTidies(o, m, t, pc, e);
    }
  }

  lemma BeginGoes(pc: Pc)
    requires pc.Start? || pc.Evicting? || pc.Timer?
    ensures Goes(pc, pc, 0)
  {
  }

  // ----- how a call goes on and ends -----

  /** A call that stores its session goes on with the one that is cached now; one whose exec has failed drops the
      session it ran on. */
  predicate KeepsTo(m': Shared, pc: Pc, next: Pc) {
    match pc
    case Storing(job, _, stale, _) =>
      stale == [] ==>
        job.conn in m'.sessions
        && ((next.Using? && next.handle == m'.sessions[job.conn])
            || (next.Closing? && next.after.ThenUse? && next.after.handle == m'.sessions[job.conn]))
    case Ran(job, h, _, ok) =>
      if ok then next == (if job.streaming then Releasing(h) else Done) else next.Invalidating? && next.handle == h
    case _ => true
  }

  /** A call ends when it cannot connect, has warmed its session up, or has run its exec: with success, or on the last
      attempt. */
  predicate Ends(pc: Pc) {
    match pc
    case Connecting(_, _) => true
    case Using(job, _, _) => job.warm
    case Ran(job, _, _, ok) => ok && !job.streaming
    case Releasing(_) => true
    case Invalidating(_, after) => after.ThenEnd?
    case ClosingLocked(_, after) => after.ThenEnd?
    case _ => TidiesUp(pc)
  }

  /** The times of use change only for a session just connected and for one just used, to the clock reading. */
  predicate TimesOfUse(m: Shared, m': Shared, pc: Pc, next: Pc, now: nat) {
    match pc
    case Connecting(_, _) => m'.lastUsed == if next.Connected? then m.lastUsed[next.session.sid := now] else m.lastUsed
    case Using(job, h, _) => m'.lastUsed == if job.warm then m.lastUsed[h.sid := now] else m.lastUsed
    case Ran(_, h, _, ok) => m'.lastUsed == if ok then m.lastUsed[h.sid := now] else m.lastUsed
    case _ => m'.lastUsed == m.lastUsed
  }

  lemma ProvideKeepsTo(o: Options, m: Shared, t: Tid, pc: Pc, e: Env)
    requires Provides(pc) && Provide(o, m, t, pc, e).Some? && (pc.Storing? ==> pc.session.conn == pc.job.conn)
    ensures var r := Provide(o, m, t, pc, e).value;
            KeepsTo(r.shared, pc, r.pc) && (r.pc == Done ==> Ends(pc)) && TimesOfUse(m, r.shared, pc, r.pc, e.now)
  {
    hide AreVictims, Picked;
  }

  lemma SearchKeepsTo(o: Options, m: Shared, pc: Pc, e: Env)
    requires Searches(pc) && Search(o, m, pc, e).Some?
    ensures var r := Search(o, m, pc, e).value;
            KeepsTo(r.shared, pc, r.pc) && (r.pc == Done ==> Ends(pc)) && TimesOfUse(m, r.shared, pc, r.pc, e.now)
  {
    hide CanReuse;
  }

  lemma UseKeepsTo(o: Options, m: Shared, t: Tid, pc: Pc, e: Env)
    requires Uses(pc) && Use(o, m, t, pc, e).Some?
    ensures var r := Use(o, m, t, pc, e).value;
            KeepsTo(r.shared, pc, r.pc) && (r.pc == Done ==> Ends(pc)) && TimesOfUse(m, r.shared, pc, r.pc, e.now)
  {
  }

  lemma EvictKeepsTo(o: Options, m: Shared, t: Tid, pc: Pc, e: Env)
    requires !Searches(pc) && !Provides(pc) && !Uses(pc) && Evict(o, m, t, pc, e).Some?
    ensures var r := Evict(o, m, t, pc, e).value;
            KeepsTo(r.shared, pc, r.pc) && (r.pc == Done ==> Ends(pc)) && TimesOfUse(m, r.shared, pc, r.pc, e.now)
  {
  }

  lemma StepKeepsTo(o: Options, m: Shared, t: Tid, pc: Pc, e: Env)
    requires TaskStep(o, m, t, pc, e).Some? && (pc.Storing? ==> pc.session.conn == pc.job.conn)
    ensures var r := TaskStep(o, m, t, pc, e).value;
            KeepsTo(r.shared, pc, r.pc) && (r.pc == Done ==> Ends(pc)) && TimesOfUse(m, r.shared, pc, r.pc, e.now)
  {
    hide Search, Provide, Use, Evict, KeepsTo, Ends, TimesOfUse;
    if Searches(pc) {
      SearchKeepsTo(o, m, pc, e);
    } else if Provides(pc) {
      ProvideKeepsTo(o, m, t, pc, e);
    } else if Uses(pc) {
      UseKeepsTo(o, m, t, pc, e);
    } else {
      EvictKeepsTo(o, m, t, pc, e);
    }
  }

  lemma StoresUnderItsOwn(o: Options, ss: seq<State>, i: nat, t: Tid)
    requires Run(o, ss, false) && i < |ss| && t in ss[i].tasks
    ensures var pc := ss[i].tasks[t]; pc.Storing? ==> pc.session.conn == pc.job.conn
  {
    hide Run, Inv;
    RunKeeps(o, ss, false, i);
    TaskHandles(ss[i].shared, ss[i].tasks, t);
  }

  /** Every step of every run does so, unless the task is dropped. */
  lemma CallsKeepTo(o: Options, ss: seq<State>, i: nat, t: Tid) returns (now: nat)
    requires Run(o, ss, false) && 0 < i < |ss| && t in ss[i - 1].tasks && t in ss[i].tasks && ss[i].tasks[t] != ss[i - 1].tasks[t]
    ensures KeepsTo(ss[i].shared, ss[i - 1].tasks[t], ss[i].tasks[t])
    ensures ss[i].tasks[t] == Done ==> Ends(ss[i - 1].tasks[t])
    ensures TimesOfUse(ss[i - 1].shared, ss[i].shared, ss[i - 1].tasks[t], ss[i].tasks[t], now)
  {
    hide TaskStep, InWindow, KeepsTo, Ends, TimesOfUse;
    StoresUnderItsOwn(o, ss, i - 1, t);
    assert StepAt(o, ss, i, false);
    var u: Tid, e: Env :| AdvancesTo(o, ss[i - 1], u, e, ss[i]);
    StepKeepsTo(o, ss[i - 1].shared, t, ss[i - 1].tasks[t], e);
    now := e.now;
  }
}
