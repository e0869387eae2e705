/** Making room for a session, and why no task of the pool is ever stuck. */
module ExecPoolProgress {
  import opened Wrappers
  import opened ExecPool
  import opened ExecPoolSafety
  import opened ExecPoolBound

  // ----- making room -----

  /** `a` and `b` are the same up to position `n`, and there `a` ends or has the smaller character. */
  predicate DiffersAt(a: string, b: string, n: nat) {
    n <= |a| && n < |b| && a[..n] == b[..n] && (n == |a| || a[n] < b[n])
  }

  ghost predicate ComesBefore(a: string, b: string) {
    exists n: nat :: DiffersAt(a, b, n)
  }

  lemma PrecedesIff(a: string, b: string)
    ensures Precedes(a, b) <==> ComesBefore(a, b)
  {
    if Precedes(a, b) {
      var n := FirstDifference(a, b);
    } else if n: nat :| DiffersAt(a, b, n) {
      DifferencePrecedes(a, b, n);
    }
  }

  lemma {:induction false} FirstDifference(a: string, b: string) returns (n: nat)
    requires Precedes(a, b)
    ensures DiffersAt(a, b, n)
  {
    if a == [] || a[0] < b[0] {
      n := 0;
    } else {
      n := FirstDifference(a[1..], b[1..]);
      n := n + 1;
      assert a == [a[0]] + a[1..] && b == [b[0]] + b[1..];
      assert a[..n] == [a[0]] + a[1..][..n - 1] && b[..n] == [b[0]] + b[1..][..n - 1];
    }
  }

  lemma {:induction false} DifferencePrecedes(a: string, b: string, n: nat)
    requires DiffersAt(a, b, n)
    ensures Precedes(a, b)
  {
    if n > 0 {
      assert a[0] == a[..n][0] && b[0] == b[..n][0];
      assert a[1..][..n - 1] == a[..n][1..] && b[1..][..n - 1] == b[..n][1..];
      DifferencePrecedes(a[1..], b[1..], n - 1);
    }
  }

  /** Below the limit nothing leaves.  At it or above, sessions of other connections leave, those with the first
      ids, until there is a free place or no other is left, and no more than that. */
  ghost predicate MadeRoom(o: Options, before: map<ConnId, Handle>, active: ConnId, after: map<ConnId, Handle>) {
    && (forall c <- after :: c in before && after[c] == before[c])
    && (active in before ==> active in after)
    && (o.maxCached == 0 || |before| < o.maxCached ==> after == before)
    && (0 < o.maxCached <= |before| ==> |after| == o.maxCached - 1 || (|after| >= o.maxCached && after.Keys == {active}))
    && forall c <- after, v <- before :: c != active && v !in after ==> ComesBefore(v, c)
  }

  lemma VictimsLeave(o: Options, m: Shared, t: Tid, active: ConnId, victims: seq<ConnId>)
    requires AreVictims(o, m.sessions, active, victims)
    ensures MadeRoom(o, m.sessions, active, MakeRoom(m, t, victims).sessions)
  {
    assert MakeRoom(m, t, victims).sessions == Without(m.sessions, victims);
    hide AreVictims, MadeRoom, MakeRoom;
    WithoutVictims(o, m.sessions, active, victims);
  }

  lemma WithoutVictims(o: Options, sessions: map<ConnId, Handle>, active: ConnId, victims: seq<ConnId>)
    requires AreVictims(o, sessions, active, victims)
    ensures MadeRoom(o, sessions, active, Without(sessions, victims))
  {
    var gone := GoneCount(o, sessions, active, victims);
    FirstLeave(o, sessions, active, victims);
    hide AreVictims, ComesBefore;
  }

  lemma GoneCount(o: Options, sessions: map<ConnId, Handle>, active: ConnId, victims: seq<ConnId>) returns (gone: nat)
    requires AreVictims(o, sessions, active, victims)
    ensures gone == |victims| && |Without(sessions, victims)| == |sessions| - gone
    ensures gone == 0 ==> Without(sessions, victims) == sessions
    ensures gone == 0 <==> o.maxCached == 0 || |sessions| < o.maxCached || sessions.Keys <= {active}
    ensures gone > 0 ==> |sessions| - gone == o.maxCached - 1 || (|sessions| - gone >= o.maxCached && Without(sessions, victims).Keys == {active})
  {
    hide Precedes, Without;
    assert forall i, j :: 0 <= i < j < |victims| ==> victims[i] != victims[j];
    LeftCount(sessions, active, victims);
    gone := |victims|;
  }

  lemma LeftCount(sessions: map<ConnId, Handle>, active: ConnId, victims: seq<ConnId>)
    requires forall i, j :: 0 <= i < j < |victims| ==> victims[i] != victims[j]
    requires forall c <- victims :: c in sessions.Keys - {active}
    ensures |Without(sessions, victims)| == |sessions| - |victims|
    ensures victims == [] ==> Without(sessions, victims) == sessions
    ensures |sessions.Keys - {active}| == |sessions| - (if active in sessions then 1 else 0)
    ensures |sessions.Keys - {active}| == 0 <==> sessions.Keys <= {active}
    ensures |victims| == |sessions.Keys - {active}| ==> Without(sessions, victims).Keys <= {active}
    ensures active in sessions ==> active in Without(sessions, victims)
  {
    var left := set c | c in victims;
    DistinctCard(victims);
    assert Without(sessions, victims).Keys == sessions.Keys - left;
    LeftBehind(sessions.Keys, active, sessions.Keys - {active}, left);
    assert |Without(sessions, victims)| == |Without(sessions, victims).Keys| && |sessions| == |sessions.Keys|;
  }

  lemma FirstLeave(o: Options, sessions: map<ConnId, Handle>, active: ConnId, victims: seq<ConnId>)
    requires AreVictims(o, sessions, active, victims)
    ensures forall c <- sessions, v <- sessions :: c !in victims && c != active && v in victims ==> ComesBefore(v, c)
    ensures active !in victims
  {
    hide Precedes, ComesBefore, Surplus;
    forall c <- sessions, v <- sessions | c !in victims && c != active && v in victims ensures ComesBefore(v, c) {
      PrecedesIff(v, c);
    }
  }

  lemma LeftBehind(all: set<ConnId>, active: ConnId, others: set<ConnId>, gone: set<ConnId>)
    requires others == all - {active} && gone <= others
    ensures |all - gone| == |all| - |gone|
    ensures |others| == |all| - (if active in all then 1 else 0)
    ensures |gone| == |others| ==> all - gone <= {active}
  {
    assert all == (all - gone) + gone;
    assert all == others + (if active in all then {active} else {});
    assert others == (others - gone) + gone;
  }

  /** Whenever a call makes room, in any run. */
  lemma RoomIsMade(o: Options, ss: seq<State>, drops: bool, i: nat, t: Tid)
    requires Run(o, ss, drops) && 0 < i < |ss| && t in ss[i - 1].tasks && t in ss[i].tasks
    requires ss[i - 1].tasks[t].Connected? && ss[i].tasks[t].Storing?
    ensures MadeRoom(o, ss[i - 1].shared.sessions, ss[i - 1].tasks[t].job.conn, ss[i].shared.sessions)
  {
    hide InWindow, MadeRoom, AreVictims, MakeRoom, Picked, Drop, Connect, Store, Search, Use, Evict;
    assert StepAt(o, ss, i, drops);
    var u: Tid, e: Env :| AdvancesTo(o, ss[i - 1], u, e, ss[i]);
    VictimsLeave(o, ss[i - 1].shared, t, ss[i - 1].tasks[t].job.conn, e.victims);
  }

  // ----- sorting the victims -----

  lemma {:induction false} NotBeforeItself(a: string)
    ensures !Precedes(a, a)
  {
    if a != [] {
      NotBeforeItself(a[1..]);
    }
  }

  lemma {:induction false} OneIsBefore(a: string, b: string)
    requires a != b
    ensures Precedes(a, b) || Precedes(b, a)
  {
    if a != [] && b != [] && a[0] == b[0] {
      assert a == [a[0]] + a[1..] && b == [b[0]] + b[1..];
      OneIsBefore(a[1..], b[1..]);
    }
  }

  lemma {:induction false} BeforeGoesOn(a: string, b: string, c: string)
    requires Precedes(a, b) && Precedes(b, c)
    ensures Precedes(a, c)
  {
    if a != [] && a[0] == b[0] == c[0] {
      BeforeGoesOn(a[1..], b[1..], c[1..]);
    }
  }

  lemma {:induction false} Least(ids: set<ConnId>) returns (least: ConnId)
    requires ids != {}
    ensures least in ids && forall c <- ids :: c != least ==> Precedes(least, c)
    decreases |ids|
  {
    hide Precedes;
    var c :| c in ids;
    if ids == {c} {
      least := c;
    } else {
      var rest := Least(ids - {c});
      OneIsBefore(c, rest);
      least := if Precedes(c, rest) then c else rest;
      forall d <- ids | d != least ensures Precedes(least, d) {
        if least == c && d != rest {
          BeforeGoesOn(c, rest, d);
        }
      }
    }
  }

  ghost predicate Ascending(ids: seq<ConnId>) {
    forall i, j :: 0 <= i < j < |ids| ==> Precedes(ids[i], ids[j])
  }

  lemma {:induction false} Sort(ids: set<ConnId>) returns (sorted: seq<ConnId>)
    ensures |sorted| == |ids| && Ascending(sorted) && forall c :: c in sorted <==> c in ids
    decreases |ids|
  {
    hide Precedes;
    if ids == {} {
      sorted := [];
    } else {
      var least := Least(ids);
      var rest := Sort(ids - {least});
      sorted := [least] + rest;
      assert forall j :: 0 < j < |sorted| ==> sorted[j] == rest[j - 1] && rest[j - 1] in rest;
    }
  }

  lemma VictimsExist(o: Options, sessions: map<ConnId, Handle>, active: ConnId) returns (victims: seq<ConnId>)
    ensures AreVictims(o, sessions, active, victims)
  {
    hide Precedes, Surplus;
    var others := sessions.Keys - {active};
    var sorted := Sort(others);
    var n := if Surplus(o, sessions) <= |others| then Surplus(o, sessions) else |others|;
    victims := sorted[..n];
    forall i, j | 0 <= i < j < n ensures victims[i] != victims[j] {
      NotBeforeItself(victims[i]);
    }
    assert forall j :: 0 <= j < n ==> sorted[j] == victims[j];
    forall c <- others, v <- victims | c !in victims ensures Precedes(v, c) {
      var i :| 0 <= i < n && victims[i] == v;
      var j :| 0 <= j < |sorted| && sorted[j] == c;
    }
  }

  // ----- no task is stuck -----

  lemma {:induction false} InOrder(sessions: map<ConnId, Handle>, todo: set<ConnId>) returns (order: seq<Handle>)
    requires todo <= sessions.Keys
    ensures (forall h <- order :: h in sessions.Values) && forall c <- todo :: sessions[c] in order
    decreases |todo|
  {
    if todo == {} {
      order := [];
    } else {
      var c :| c in todo;
      var rest := InOrder(sessions, todo - {c});
      order := [sessions[c]] + rest;
      assert c in sessions.Keys;
    }
  }

  /** A task that looks at a session's time has one to look at. */
  ghost predicate Looks(tasks: map<Tid, Pc>) {
    forall t <- tasks :: tasks[t].PruneIdle? ==> tasks[t].todo != []
  }

  lemma StepLooks(o: Options, m: Shared, t: Tid, pc: Pc, e: Env)
    requires TaskStep(o, m, t, pc, e).Some? && TaskStep(o, m, t, pc, e).value.pc.PruneIdle?
    ensures TaskStep(o, m, t, pc, e).value.pc.todo != []
  {
    hide AreVictims, Picked;
  }

  lemma {:induction false} RunLooks(o: Options, ss: seq<State>, drops: bool, i: nat)
    requires Run(o, ss, drops) && i < |ss|
    ensures Looks(ss[i].tasks)
  {
    if i > 0 {
      hide TaskStep, InWindow, Drop;
      RunLooks(o, ss, drops, i - 1);
      assert StepAt(o, ss, i, drops);
      if Advances(o, ss[i - 1], ss[i]) {
        var t: Tid, e: Env :| AdvancesTo(o, ss[i - 1], t, e, ss[i]);
        if TaskStep(o, ss[i - 1].shared, t, ss[i - 1].tasks[t], e).value.pc.PruneIdle? {
          StepLooks(o, ss[i - 1].shared, t, ss[i - 1].tasks[t], e);
        }
      }
    }
  }

  /** The task wants to run on a session, or to close it, while another task runs on it or closes it. */
  predicate WaitsFor(m: Shared, tasks: map<Tid, Pc>, pc: Pc) {
    var sid := if pc.Waiting? then Some(pc.handle.sid) else if pc.Closing? then Some(pc.session.sid) else None;
    && sid.Some? && sid.value in m.lock && m.lock[sid.value] in tasks
    && match tasks[m.lock[sid.value]]
       case Executing(_, h, _) => h.sid == sid.value
       case ClosingLocked(session, _) => session.sid == sid.value
       case _ => false
  }

  ghost predicate CanStep(o: Options, m: Shared, t: Tid, pc: Pc) {
    exists e: Env :: TaskStep(o, m, t, pc, e).Some?
  }

  lemma StartMoves(o: Options, m: Shared, job: Job) returns (e: Env)
    ensures Search(o, m, Start(job), e).Some?
  {
    var order := InOrder(m.sessions, m.sessions.Keys);
    e := Env(0, 0, 0, true, order, []);
  }

  lemma SearchMoves(o: Options, m: Shared, tasks: map<Tid, Pc>, t: Tid) returns (e: Env)
    requires Inv(m, tasks) && Looks(tasks) && t in tasks && Searches(tasks[t])
    ensures Search(o, m, tasks[t], e).Some?
  {
    TaskHandles(m, tasks, t);
    InvCells(m, tasks);
    hide Inv, CanReuse, Looks;
    if tasks[t].Start? {
      e := StartMoves(o, m, tasks[t].job);
    } else {
      e := Env(0, 0, 0, true, [], []);
      if tasks[t].PruneIdle? {
        HasOne(tasks, t);
        assert tasks[t].todo[0] in Handles(tasks[t]);
      } else if tasks[t].Found? {
        assert tasks[t].handle in Handles(tasks[t]);
      }
    }
  }

  lemma HasOne(tasks: map<Tid, Pc>, t: Tid)
    requires Looks(tasks) && t in tasks && tasks[t].PruneIdle?
    ensures tasks[t].todo != []
  {
  }

  lemma ProvideMoves(o: Options, m: Shared, t: Tid, pc: Pc) returns (e: Env)
    requires Provides(pc)
    ensures Provide(o, m, t, pc, e).Some?
  {
    hide AreVictims, Picked, Store, MakeRoom;
    e := Env(0, 0, 0, false, [], []);
    if pc.Connected? {
      var victims := VictimsExist(o, m.sessions, pc.job.conn);
      e := e.(victims := victims);
    }
    StoreMoves(m, t, pc);
  }

  lemma StoreMoves(m: Shared, t: Tid, pc: Pc)
    ensures pc.Storing? ==> Store(m, t, pc.job, pc.session, pc.second).Some?
  {
  }

  lemma UseMoves(o: Options, m: Shared, tasks: map<Tid, Pc>, t: Tid) returns (e: Env)
    requires Inv(m, tasks) && t in tasks && Uses(tasks[t]) && !WaitsFor(m, tasks, tasks[t])
    ensures Use(o, m, t, tasks[t], e).Some?
  {
    e := Env(0, 0, 0, true, [], []);
    TaskHandles(m, tasks, t);
    InvCells(m, tasks);
    InvLocks(m, tasks);
    hide Inv, Locks, Guards;
    assert tasks[t].handle in Handles(tasks[t]);
    if tasks[t].Executing? || tasks[t].Releasing? {
      GuardCounted(m, tasks, t);
    }
    LockHolder(m, tasks, tasks[t].handle.sid);
  }

  lemma InvLocks(m: Shared, tasks: map<Tid, Pc>)
    requires Inv(m, tasks)
    ensures Locks(tasks, m.lock) && Guards(tasks, m.inFlight)
  {
  }

  lemma GuardCounted(m: Shared, tasks: map<Tid, Pc>, t: Tid)
    requires Guards(tasks, m.inFlight) && t in tasks && GuardOf(tasks[t]).Some? && GuardOf(tasks[t]).value in m.inFlight
    ensures m.inFlight[GuardOf(tasks[t]).value] > 0
  {
    assert t in GuardsOn(tasks, GuardOf(tasks[t]).value);
  }

  lemma LockHolder(m: Shared, tasks: map<Tid, Pc>, sid: Sid)
    requires Locks(tasks, m.lock)
    ensures sid in m.lock ==>
              m.lock[sid] in tasks
              && match tasks[m.lock[sid]]
                 case Executing(_, h, _) => h.sid == sid
                 case ClosingLocked(session, _) => session.sid == sid
                 case _ => false
  {
  }

  lemma EvictGoes(o: Options, m: Shared, t: Tid, pc: Pc, e: Env)
    requires !Searches(pc) && !Provides(pc) && !Uses(pc) && !pc.Done?
    requires pc.Closing? ==> pc.session.sid !in m.lock
    requires pc.ClosingLocked? ==> pc.session.sid in m.closes
    requires pc.TimerIdle? ==> pc.handle.sid in m.lastUsed
    ensures Evict(o, m, t, pc, e).Some?
  {
    hide Resume, TakeOut;
  }

  lemma EvictMoves(o: Options, m: Shared, tasks: map<Tid, Pc>, t: Tid) returns (e: Env)
    requires Inv(m, tasks) && t in tasks && !Searches(tasks[t]) && !Provides(tasks[t]) && !Uses(tasks[t]) && !tasks[t].Done?
    requires !WaitsFor(m, tasks, tasks[t])
    ensures Evict(o, m, t, tasks[t], e).Some?
  {
    e := Env(0, 0, 0, true, [], []);
    TaskHandles(m, tasks, t);
    InvCells(m, tasks);
    InvLocks(m, tasks);
    hide Inv, Locks, Guards, Evict;
    if tasks[t].Closing? {
      LockHolder(m, tasks, tasks[t].session.sid);
    } else if tasks[t].ClosingLocked? {
      assert tasks[t].session in Handles(tasks[t]);
    } else if tasks[t].TimerIdle? {
      assert tasks[t].handle in Handles(tasks[t]);
    }
    EvictGoes(o, m, t, tasks[t], e);
  }

  /** In every state of every run a task that is not done can go on, or waits for a task that runs on, or closes, the
      session it wants. */
  lemma OnlyLocksBlock(o: Options, ss: seq<State>, drops: bool, i: nat, t: Tid)
    requires Run(o, ss, drops) && i < |ss| && t in ss[i].tasks && !ss[i].tasks[t].Done?
    ensures CanStep(o, ss[i].shared, t, ss[i].tasks[t]) || WaitsFor(ss[i].shared, ss[i].tasks, ss[i].tasks[t])
  {
    hide Run, Inv, Looks, Search, Provide, Use, Evict, WaitsFor;
    RunKeeps(o, ss, drops, i);
    RunLooks(o, ss, drops, i);
    var m, tasks := ss[i].shared, ss[i].tasks;
    if !WaitsFor(m, tasks, tasks[t]) {
      var e: Env;
      if Searches(tasks[t]) {
        e := SearchMoves(o, m, tasks, t);
      } else if Provides(tasks[t]) {
        e := ProvideMoves(o, m, t, tasks[t]);
      } else if Uses(tasks[t]) {
        e := UseMoves(o, m, tasks, t);
      } else {
        e := EvictMoves(o, m, tasks, t);
      }
      assert TaskStep(o, m, t, tasks[t], e).Some?;
    }
  }

  /** The tasks never block each other for good: while one is not done, some task can go on. */
  lemma SomeTaskMoves(o: Options, ss: seq<State>, drops: bool, i: nat, t: Tid) returns (u: Tid)
    requires Run(o, ss, drops) && i < |ss| && t in ss[i].tasks && !ss[i].tasks[t].Done?
    ensures u in ss[i].tasks && CanStep(o, ss[i].shared, u, ss[i].tasks[u])
  {
    OnlyLocksBlock(o, ss, drops, i, t);
    hide CanStep, Run;
    u := t;
    if !CanStep(o, ss[i].shared, t, ss[i].tasks[t]) {
      var pc := ss[i].tasks[t];
      u := ss[i].shared.lock[if pc.Waiting? then pc.handle.sid else pc.session.sid];
      OnlyLocksBlock(o, ss, drops, i, u);
    }
  }
}
