/** What every interleaving of the pool's tasks keeps. */
module ExecPoolSafety {
  import opened Wrappers
  import opened ExecPool

  // ----- the invariant -----

  predicate Distinct<T(==)>(s: seq<T>) {
    forall i, j :: 0 <= i < j < |s| ==> s[i] != s[j]
  }

  /** Every connected session has its cells. */
  ghost predicate Cells(m: Shared) {
    m.lastUsed.Keys == m.place.Keys && m.inFlight.Keys == m.place.Keys && m.closes.Keys == m.place.Keys
  }

  /** Every handle that is cached or cloned is of a connected session. */
  ghost predicate Refs(sessions: map<ConnId, Handle>, tasks: map<Tid, Pc>, place: map<Sid, Place>) {
    && (forall c <- sessions :: sessions[c].conn == c && sessions[c].sid in place)
    && (forall t <- tasks :: HandlesKnown(place, tasks[t]))
  }

  ghost predicate HandlesKnown(place: map<Sid, Place>, pc: Pc) {
    && Shaped(pc)
    && (forall h <- Handles(pc) :: h.sid in place)
  }

  /** A connector stores its session under the id it was connected for. */
  predicate Shaped(pc: Pc) {
    match pc
    case Connected(job, session, _) => session.conn == job.conn
    case Storing(job, session, _, _) => session.conn == job.conn
    case Closing(_, after) => ShapedAfter(after)
    case ClosingLocked(_, after) => ShapedAfter(after)
    case Invalidating(_, after) => OwnedAfter(after) == []
    case _ => true
  }

  predicate ShapedAfter(after: After) {
    after.ThenStore? ==> after.session.conn == after.job.conn
  }

  /** A lock is held by exactly the task whose program counter says so. */
  ghost predicate Locks(tasks: map<Tid, Pc>, lock: map<Sid, Tid>) {
    && (forall sid <- lock :: lock[sid] in tasks && LockOf(tasks[lock[sid]]) == Some(sid))
    && (forall t <- tasks :: LockOf(tasks[t]).Some? ==> LockOf(tasks[t]).value in lock && lock[LockOf(tasks[t]).value] == t)
  }

  ghost function GuardsOn(tasks: map<Tid, Pc>, sid: Sid): set<Tid> {
    set t | t in tasks && GuardOf(tasks[t]) == Some(sid)
  }

  /** The use counter of a session is the number of live guards on it. */
  ghost predicate Guards(tasks: map<Tid, Pc>, inFlight: map<Sid, nat>) {
    forall sid <- inFlight :: inFlight[sid] == |GuardsOn(tasks, sid)|
  }

  /** The sessions in the map are the cached ones. */
  ghost predicate CachedPlaces(sessions: map<ConnId, Handle>, place: map<Sid, Place>) {
    && (forall c <- sessions :: sessions[c].sid in place && place[sessions[c].sid] == Cached(c))
    && (forall sid <- place :: place[sid].Cached? ==> place[sid].conn in sessions && sessions[place[sid].conn].sid == sid)
  }

  /** What one task owns is what is placed with it, each session once. */
  ghost predicate Owns(place: map<Sid, Place>, t: Tid, pc: Pc) {
    && Distinct(Owned(pc))
    && (forall sid <- Owned(pc) :: sid in place)
    && (forall sid <- place :: place[sid] == Held(t) <==> sid in Owned(pc))
  }

  ghost predicate HeldPlaces(tasks: map<Tid, Pc>, place: map<Sid, Place>) {
    && (forall t <- tasks :: Owns(place, t, tasks[t]))
    && (forall sid <- place :: place[sid].Held? ==> place[sid].task in tasks)
  }

  /** A session is closed once it is placed as closed and never before. */
  ghost predicate ClosedPlaces(place: map<Sid, Place>, closes: map<Sid, nat>) {
    forall sid <- place :: sid in closes && closes[sid] == if place[sid] == Closed then 1 else 0
  }

  ghost predicate Inv(m: Shared, tasks: map<Tid, Pc>) {
    && Cells(m) && Refs(m.sessions, tasks, m.place) && Locks(tasks, m.lock) && Guards(tasks, m.inFlight)
    && CachedPlaces(m.sessions, m.place) && HeldPlaces(tasks, m.place) && ClosedPlaces(m.place, m.closes)
  }

  // ----- locks and guards under a change of one task -----

  lemma LockFrame(tasks: map<Tid, Pc>, lock: map<Sid, Tid>, t: Tid, pc: Pc)
    requires Locks(tasks, lock)
    requires LockOf(pc) == if t in tasks then LockOf(tasks[t]) else None
    ensures Locks(tasks[t := pc], lock)
  {
  }

  lemma LockTaken(tasks: map<Tid, Pc>, lock: map<Sid, Tid>, t: Tid, pc: Pc, sid: Sid)
    requires Locks(tasks, lock) && sid !in lock
    requires t in tasks && LockOf(tasks[t]) == None && LockOf(pc) == Some(sid)
    ensures Locks(tasks[t := pc], lock[sid := t])
  {
  }

  lemma LockReleased(tasks: map<Tid, Pc>, lock: map<Sid, Tid>, t: Tid, pc: Pc, sid: Sid)
    requires Locks(tasks, lock)
    requires t in tasks && LockOf(tasks[t]) == Some(sid) && LockOf(pc) == None
    ensures Locks(tasks[t := pc], lock - {sid})
  {
  }

  lemma GuardFrame(tasks: map<Tid, Pc>, inFlight: map<Sid, nat>, t: Tid, pc: Pc)
    requires Guards(tasks, inFlight)
    requires GuardOf(pc) == if t in tasks then GuardOf(tasks[t]) else None
    ensures Guards(tasks[t := pc], inFlight)
  {
    forall sid <- inFlight ensures GuardsOn(tasks[t := pc], sid) == GuardsOn(tasks, sid) {}
  }

  lemma GuardBegun(tasks: map<Tid, Pc>, inFlight: map<Sid, nat>, t: Tid, pc: Pc, sid: Sid)
    requires Guards(tasks, inFlight) && sid in inFlight
    requires t in tasks && GuardOf(tasks[t]) == None && GuardOf(pc) == Some(sid)
    ensures Guards(tasks[t := pc], inFlight[sid := inFlight[sid] + 1])
  {
    var tasks' := tasks[t := pc];
    assert GuardsOn(tasks', sid) == GuardsOn(tasks, sid) + {t};
    forall x <- inFlight | x != sid ensures GuardsOn(tasks', x) == GuardsOn(tasks, x) {}
  }

  lemma GuardEnded(tasks: map<Tid, Pc>, inFlight: map<Sid, nat>, t: Tid, pc: Pc, sid: Sid)
    requires Guards(tasks, inFlight) && sid in inFlight
    requires t in tasks && GuardOf(tasks[t]) == Some(sid) && GuardOf(pc) == None
    ensures inFlight[sid] > 0
    ensures Guards(tasks[t := pc], inFlight[sid := inFlight[sid] - 1])
  {
    assert t in GuardsOn(tasks, sid);
    var tasks' := tasks[t := pc];
    assert GuardsOn(tasks', sid) == GuardsOn(tasks, sid) - {t};
    forall x <- inFlight | x != sid ensures GuardsOn(tasks', x) == GuardsOn(tasks, x) {}
  }

  lemma NewSessionUnguarded(tasks: map<Tid, Pc>, inFlight: map<Sid, nat>, sid: Sid)
    requires Guards(tasks, inFlight)
    requires forall t <- tasks :: GuardOf(tasks[t]) != Some(sid)
    ensures Guards(tasks, inFlight[sid := 0])
  {
    assert GuardsOn(tasks, sid) == {};
  }

  // ----- handles and places under a change of one task -----

  lemma RefsMove(sessions: map<ConnId, Handle>, tasks: map<Tid, Pc>, place: map<Sid, Place>,
                 sessions': map<ConnId, Handle>, place': map<Sid, Place>, t: Tid, pc: Pc)
    requires Refs(sessions, tasks, place) && place.Keys <= place'.Keys
    requires forall c <- sessions' :: sessions'[c].conn == c && sessions'[c].sid in place'
    requires HandlesKnown(place', pc)
    ensures Refs(sessions', tasks[t := pc], place')
  {
    forall u <- tasks ensures HandlesKnown(place', tasks[u]) {
      assert HandlesKnown(place, tasks[u]);
    }
  }

  lemma SessionsKnown(sessions: map<ConnId, Handle>, tasks: map<Tid, Pc>, place: map<Sid, Place>,
          place': map<Sid, Place>)
    requires Refs(sessions, tasks, place) && place.Keys <= place'.Keys
    ensures forall c <- sessions :: sessions[c].conn == c && sessions[c].sid in place'
  {
  }

  lemma RefsStay(sessions: map<ConnId, Handle>, tasks: map<Tid, Pc>, place: map<Sid, Place>, t: Tid, pc: Pc)
    requires Refs(sessions, tasks, place) && HandlesKnown(place, pc)
    ensures Refs(sessions, tasks[t := pc], place)
  {
    RefsMove(sessions, tasks, place, sessions, place, t, pc);
  }

  lemma TaskHandles(m: Shared, tasks: map<Tid, Pc>, t: Tid)
    requires Inv(m, tasks) && t in tasks
    ensures HandlesKnown(m.place, tasks[t])
  {
    hide Locks, Guards, CachedPlaces, HeldPlaces, ClosedPlaces;
  }

  lemma OwnsNow(tasks: map<Tid, Pc>, place: map<Sid, Place>, t: Tid)
    requires HeldPlaces(tasks, place) && t in tasks
    ensures Owns(place, t, tasks[t])
  {
  }

  /** Between the two placements only task `t` gains or loses sessions. */
  ghost predicate OthersKeep(place: map<Sid, Place>, place': map<Sid, Place>, t: Tid) {
    && place.Keys <= place'.Keys
    && (forall sid <- place' :: place'[sid].Held? && place'[sid].task != t ==> sid in place && place[sid] == place'[sid])
    && (forall sid <- place :: place[sid].Held? && place[sid].task != t ==> place'[sid] == place[sid])
  }

  lemma HeldMoves(tasks: map<Tid, Pc>, place: map<Sid, Place>, place': map<Sid, Place>, t: Tid, pc: Pc)
    requires HeldPlaces(tasks, place) && OthersKeep(place, place', t)
    requires Owns(place', t, pc)
    ensures HeldPlaces(tasks[t := pc], place')
  {
    var tasks' := tasks[t := pc];
    forall u <- tasks' ensures Owns(place', u, tasks'[u]) {
      if u != t {
        assert Owns(place, u, tasks[u]);
      }
    }
  }

  lemma HeldStay(tasks: map<Tid, Pc>, place: map<Sid, Place>, t: Tid, pc: Pc)
    requires HeldPlaces(tasks, place)
    requires Owned(pc) == if t in tasks then Owned(tasks[t]) else []
    ensures HeldPlaces(tasks[t := pc], place)
  {
    if t in tasks {
      OwnsNow(tasks, place, t);
    }
    HeldMoves(tasks, place, place, t, pc);
  }

  // ----- steps that move no session -----

  /** A step of `t` that leaves the shared state, ownership, locks and guards alone. */
  lemma MoveKeeps(m: Shared, tasks: map<Tid, Pc>, t: Tid, pc: Pc)
    requires Inv(m, tasks) && HandlesKnown(m.place, pc)
    requires t in tasks ==> Owned(pc) == Owned(tasks[t]) && LockOf(pc) == LockOf(tasks[t]) && GuardOf(pc) == GuardOf(tasks[t])
    requires t !in tasks ==> Owned(pc) == [] && LockOf(pc) == None && GuardOf(pc) == None
    ensures Inv(m, tasks[t := pc])
  {
    hide Refs, Locks, Guards, CachedPlaces, HeldPlaces, ClosedPlaces, HandlesKnown;
    LockFrame(tasks, m.lock, t, pc);
    GuardFrame(tasks, m.inFlight, t, pc);
    HeldStay(tasks, m.place, t, pc);
    RefsStay(m.sessions, tasks, m.place, t, pc);
  }

  lemma TouchKeeps(m: Shared, tasks: map<Tid, Pc>, sid: Sid, now: nat)
    requires Inv(m, tasks) && sid in m.place
    ensures Inv(Touch(m, sid, now), tasks)
  {
    hide Refs, Locks, Guards, CachedPlaces, HeldPlaces, ClosedPlaces;
    assert Touch(m, sid, now).lastUsed.Keys == m.lastUsed.Keys;
  }

  lemma BeginUseKeeps(m: Shared, tasks: map<Tid, Pc>, t: Tid, pc: Pc, sid: Sid)
    requires Inv(m, tasks) && HandlesKnown(m.place, pc) && t in tasks && sid in m.inFlight
    requires Owned(pc) == Owned(tasks[t]) && LockOf(pc) == LockOf(tasks[t]) && GuardOf(tasks[t]) == None && GuardOf(pc) == Some(sid)
    ensures Inv(BeginUse(m, sid), tasks[t := pc])
  {
    hide Refs, Locks, Guards, CachedPlaces, HeldPlaces, ClosedPlaces, HandlesKnown;
    LockFrame(tasks, m.lock, t, pc);
    GuardBegun(tasks, m.inFlight, t, pc, sid);
    HeldStay(tasks, m.place, t, pc);
    RefsStay(m.sessions, tasks, m.place, t, pc);
    assert BeginUse(m, sid).inFlight.Keys == m.inFlight.Keys;
  }

  lemma LockKeeps(m: Shared, tasks: map<Tid, Pc>, t: Tid, pc: Pc, sid: Sid)
    requires Inv(m, tasks) && HandlesKnown(m.place, pc) && t in tasks && sid !in m.lock
    requires Owned(pc) == Owned(tasks[t]) && GuardOf(pc) == GuardOf(tasks[t]) && LockOf(tasks[t]) == None && LockOf(pc) == Some(sid)
    ensures Inv(TakeLock(m, t, sid), tasks[t := pc])
  {
    hide Refs, Locks, Guards, CachedPlaces, HeldPlaces, ClosedPlaces, HandlesKnown;
    LockTaken(tasks, m.lock, t, pc, sid);
    GuardFrame(tasks, m.inFlight, t, pc);
    HeldStay(tasks, m.place, t, pc);
    RefsStay(m.sessions, tasks, m.place, t, pc);
  }

  lemma EndUseKeeps(m: Shared, tasks: map<Tid, Pc>, t: Tid, pc: Pc, sid: Sid)
    requires Inv(m, tasks) && HandlesKnown(m.place, pc) && t in tasks && sid in m.inFlight && m.inFlight[sid] > 0
    requires Owned(pc) == Owned(tasks[t]) && GuardOf(tasks[t]) == Some(sid) == LockOf(tasks[t]) && GuardOf(pc) == None == LockOf(pc)
    ensures Inv(EndUse(Unlock(m, sid), sid), tasks[t := pc])
  {
    hide Refs, Locks, Guards, CachedPlaces, HeldPlaces, ClosedPlaces, HandlesKnown;
    LockReleased(tasks, m.lock, t, pc, sid);
    GuardEnded(tasks, m.inFlight, t, pc, sid);
    HeldStay(tasks, m.place, t, pc);
    RefsStay(m.sessions, tasks, m.place, t, pc);
    assert EndUse(Unlock(m, sid), sid).inFlight.Keys == m.inFlight.Keys;
  }

  /** A streaming call has run and keeps its guard. */
  lemma UnlockKeeps(m: Shared, tasks: map<Tid, Pc>, t: Tid, pc: Pc, sid: Sid)
    requires Inv(m, tasks) && HandlesKnown(m.place, pc) && t in tasks
    requires Owned(pc) == Owned(tasks[t]) && GuardOf(pc) == GuardOf(tasks[t]) && LockOf(tasks[t]) == Some(sid) && LockOf(pc) == None
    ensures Inv(Unlock(m, sid), tasks[t := pc])
  {
    hide Refs, Locks, Guards, CachedPlaces, HeldPlaces, ClosedPlaces, HandlesKnown;
    LockReleased(tasks, m.lock, t, pc, sid);
    GuardFrame(tasks, m.inFlight, t, pc);
    HeldStay(tasks, m.place, t, pc);
    RefsStay(m.sessions, tasks, m.place, t, pc);
  }

  /** And gives it back when it returns. */
  lemma ReleaseKeeps(m: Shared, tasks: map<Tid, Pc>, t: Tid, sid: Sid)
    requires Inv(m, tasks) && t in tasks && tasks[t].Releasing? && tasks[t].handle.sid == sid
    requires sid in m.inFlight && m.inFlight[sid] > 0
    ensures Inv(EndUse(m, sid), tasks[t := Done])
  {
    hide Refs, Locks, Guards, CachedPlaces, HeldPlaces, ClosedPlaces;
    LockFrame(tasks, m.lock, t, Done);
    GuardEnded(tasks, m.inFlight, t, Done, sid);
    HeldStay(tasks, m.place, t, Done);
    RefsStay(m.sessions, tasks, m.place, t, Done);
    assert EndUse(m, sid).inFlight.Keys == m.inFlight.Keys;
  }

  // ----- steps that move a session -----

  ghost predicate Placed(m: Shared, tasks: map<Tid, Pc>) {
    HeldPlaces(tasks, m.place) && CachedPlaces(m.sessions, m.place) && ClosedPlaces(m.place, m.closes)
  }

  /** Once the places are right the rest of the invariant follows, if locks and guards stay as they are. */
  lemma PlacedKeeps(m: Shared, tasks: map<Tid, Pc>, m': Shared, t: Tid, pc: Pc)
    requires Inv(m, tasks) && HandlesKnown(m'.place, pc) && t in tasks
    requires LockOf(pc) == LockOf(tasks[t]) && GuardOf(pc) == GuardOf(tasks[t])
    requires m'.lock == m.lock && m'.inFlight == m.inFlight && m'.lastUsed == m.lastUsed && m'.closes == m.closes
    requires m'.place.Keys == m.place.Keys
    requires forall c <- m'.sessions :: m'.sessions[c].conn == c && m'.sessions[c].sid in m'.place
    requires Placed(m', tasks[t := pc])
    ensures Inv(m', tasks[t := pc])
  {
    hide Refs, Locks, Guards, CachedPlaces, HeldPlaces, ClosedPlaces, HandlesKnown;
    LockFrame(tasks, m.lock, t, pc);
    GuardFrame(tasks, m.inFlight, t, pc);
    RefsMove(m.sessions, tasks, m.place, m'.sessions, m'.place, t, pc);
  }

  lemma ConnectPlaces(m: Shared, tasks: map<Tid, Pc>, t: Tid, pc: Pc, sid: Sid, now: nat)
    requires Placed(m, tasks) && t in tasks && Owned(tasks[t]) == [] && Owned(pc) == [sid] && sid !in m.place
    ensures Placed(Connect(m, t, sid, now), tasks[t := pc])
  {
    OwnsNow(tasks, m.place, t);
    HeldMoves(tasks, m.place, m.place[sid := Held(t)], t, pc);
  }

  lemma GuardHandle(pc: Pc)
    requires GuardOf(pc).Some?
    ensures exists h <- Handles(pc) :: h.sid == GuardOf(pc).value
  {
    match pc {
      case Waiting(_, h, _) => assert h in Handles(pc);
      case Executing(_, h, _) => assert h in Handles(pc);
      case Ran(_, h, _, _) => assert h in Handles(pc);
      case Releasing(h) => assert h in Handles(pc);
      case Invalidating(_, after) => assert after.handle in HandlesAfter(after) && after.handle in Handles(pc);
      case Closing(_, after) => assert after.handle in HandlesAfter(after) && after.handle in Handles(pc);
      case ClosingLocked(_, after) => assert after.handle in HandlesAfter(after) && after.handle in Handles(pc);
    }
  }

  lemma NoGuardOnNew(m: Shared, tasks: map<Tid, Pc>, sid: Sid)
    requires Refs(m.sessions, tasks, m.place) && sid !in m.place
    ensures forall u <- tasks :: GuardOf(tasks[u]) != Some(sid)
  {
    forall u <- tasks ensures GuardOf(tasks[u]) != Some(sid) {
      assert HandlesKnown(m.place, tasks[u]);
      if GuardOf(tasks[u]).Some? {
        GuardHandle(tasks[u]);
      }
    }
  }

  lemma ConnectKeeps(m: Shared, tasks: map<Tid, Pc>, t: Tid, job: Job, second: bool, sid: Sid, now: nat)
    requires Inv(m, tasks) && t in tasks && tasks[t] == Connecting(job, second) && sid !in m.place
    ensures Inv(Connect(m, t, sid, now), tasks[t := Connected(job, Handle(job.conn, job.signature, sid), second)])
  {
    hide Refs, Locks, Guards, CachedPlaces, HeldPlaces, ClosedPlaces;
    var pc := Connected(job, Handle(job.conn, job.signature, sid), second);
    var place := m.place[sid := Held(t)];
    LockFrame(tasks, m.lock, t, pc);
    NoGuardOnNew(m, tasks, sid);
    NewSessionUnguarded(tasks, m.inFlight, sid);
    GuardFrame(tasks, m.inFlight[sid := 0], t, pc);
    ConnectPlaces(m, tasks, t, pc, sid, now);
    SessionsKnown(m.sessions, tasks, m.place, place);
    RefsMove(m.sessions, tasks, m.place, m.sessions, place, t, pc);
  }

  lemma TakeOutOwns(m: Shared, tasks: map<Tid, Pc>, t: Tid, sid: Sid, pc: Pc)
    requires HeldPlaces(tasks, m.place) && t in tasks && sid in m.place && m.place[sid].Cached?
    requires Owned(tasks[t]) == [] && Owned(pc) == [sid]
    ensures HeldPlaces(tasks[t := pc], m.place[sid := Held(t)])
  {
    OwnsNow(tasks, m.place, t);
    HeldMoves(tasks, m.place, m.place[sid := Held(t)], t, pc);
  }

  lemma TakeOutPlaces(m: Shared, tasks: map<Tid, Pc>, t: Tid, c: ConnId, pc: Pc)
    requires Placed(m, tasks) && t in tasks && c in m.sessions && Owned(tasks[t]) == [] && Owned(pc) == [m.sessions[c].sid]
    ensures Placed(TakeOut(m, t, c), tasks[t := pc]) && TakeOut(m, t, c).place.Keys == m.place.Keys
  {
    hide HeldPlaces;
    TakeOutOwns(m, tasks, t, m.sessions[c].sid, pc);
  }

  /** A cached session becomes what task `t` has to close. */
  lemma TakeOutKeeps(m: Shared, tasks: map<Tid, Pc>, t: Tid, c: ConnId, after: After)
    requires Inv(m, tasks) && t in tasks && c in m.sessions
    requires Owned(tasks[t]) == [] && LockOf(tasks[t]) == None && GuardOf(tasks[t]) == GuardAfter(after)
    requires OwnedAfter(after) == [] && (forall h <- HandlesAfter(after) :: h.sid in m.place)
    ensures Inv(TakeOut(m, t, c), tasks[t := Closing(m.sessions[c], after)])
  {
    hide Refs, Locks, Guards, CachedPlaces, HeldPlaces, ClosedPlaces;
    var pc := Closing(m.sessions[c], after);
    TakeOutPlaces(m, tasks, t, c, pc);
    SessionsKnown(m.sessions, tasks, m.place, m.place);
    PlacedKeeps(m, tasks, TakeOut(m, t, c), t, pc);
  }

  /** What a task holds after it has closed the head of what it had to close. */
  lemma ResumeHolds(after: After)
    ensures Owned(Resume(after)) == OwnedAfter(after)
    ensures Handles(Resume(after)) == HandlesAfter(after)
    ensures LockOf(Resume(after)) == None && GuardOf(Resume(after)) == GuardAfter(after)
    ensures ShapedAfter(after) ==> Shaped(Resume(after))
  {
  }

  lemma InvalidateKeeps(m: Shared, tasks: map<Tid, Pc>, t: Tid, h: Handle, after: After)
    requires Inv(m, tasks) && t in tasks && tasks[t] == Invalidating(h, after)
    ensures Inv(Invalidate(m, t, h, after).value.shared, tasks[t := Invalidate(m, t, h, after).value.pc])
  {
    hide Inv;
    TaskHandles(m, tasks, t);
    if h.conn in m.sessions && m.sessions[h.conn].sid == h.sid {
      TakeOutKeeps(m, tasks, t, h.conn, after);
    } else {
      ResumeHolds(after);
      MoveKeeps(m, tasks, t, Resume(after));
    }
  }

  lemma InsertOwns(m: Shared, tasks: map<Tid, Pc>, t: Tid, session: Handle, pc: Pc)
    requires Placed(m, tasks) && t in tasks && Owned(tasks[t]) == [session.sid]
    requires Owned(pc) == if session.conn in m.sessions then [m.sessions[session.conn].sid] else []
    ensures session.sid in m.place && m.place[session.sid] == Held(t)
    ensures HeldPlaces(tasks[t := pc], Insert(m, t, session).place)
  {
    OwnsNow(tasks, m.place, t);
    assert session.sid in Owned(tasks[t]);
    var place := Insert(m, t, session).place;
    assert place.Keys == m.place.Keys;
    assert Owns(place, t, pc);
    HeldMoves(tasks, m.place, place, t, pc);
  }

  lemma InsertPlaces(m: Shared, tasks: map<Tid, Pc>, t: Tid, session: Handle, pc: Pc)
    requires Placed(m, tasks) && t in tasks && Owned(tasks[t]) == [session.sid]
    requires Owned(pc) == if session.conn in m.sessions then [m.sessions[session.conn].sid] else []
    ensures Placed(Insert(m, t, session), tasks[t := pc])
    ensures Insert(m, t, session).place.Keys == m.place.Keys && session.sid in m.place
  {
    hide HeldPlaces, CachedPlaces, ClosedPlaces, Owned;
    InsertOwns(m, tasks, t, session, pc);
    InsertCached(m, t, session);
    InsertClosed(m, t, session);
  }

  lemma InsertCached(m: Shared, t: Tid, session: Handle)
    requires CachedPlaces(m.sessions, m.place) && session.sid in m.place && m.place[session.sid] == Held(t)
    ensures var m' := Insert(m, t, session); CachedPlaces(m'.sessions, m'.place) && m'.place.Keys == m.place.Keys
  {
  }

  lemma InsertClosed(m: Shared, t: Tid, session: Handle)
    requires ClosedPlaces(m.place, m.closes) && CachedPlaces(m.sessions, m.place)
    requires session.sid in m.place && m.place[session.sid] == Held(t)
    ensures ClosedPlaces(Insert(m, t, session).place, m.closes)
  {
  }

  /** The session task `t` has connected goes into the map; the one it replaces is its to close. */
  lemma InsertKeeps(m: Shared, tasks: map<Tid, Pc>, t: Tid, job: Job, session: Handle, second: bool, pc: Pc)
    requires Inv(m, tasks) && t in tasks && tasks[t] == Storing(job, session, [], second)
    requires pc == if session.conn in m.sessions then Closing(m.sessions[session.conn], ThenUse(job, session, second)) else Using(job, session, second)
    ensures Inv(Insert(m, t, session), tasks[t := pc])
  {
    hide Refs, Locks, Guards, CachedPlaces, HeldPlaces, ClosedPlaces;
    assert Owned(tasks[t]) == [session.sid];
    InsertPlaces(m, tasks, t, session, pc);
    SessionsKnown(m.sessions, tasks, m.place, m.place);
    PlacedKeeps(m, tasks, Insert(m, t, session), t, pc);
  }

  lemma StoreKeeps(m: Shared, tasks: map<Tid, Pc>, t: Tid, job: Job, session: Handle, second: bool)
    requires Inv(m, tasks) && t in tasks && tasks[t] == Storing(job, session, [], second)
    ensures Inv(Store(m, t, job, session, second).value.shared, tasks[t := Store(m, t, job, session, second).value.pc])
  {
    hide Inv;
    if session.conn in m.sessions && m.sessions[session.conn].signature == session.signature {
      CachedKnown(m, tasks, session.conn);
      TaskHandles(m, tasks, t);
      assert session in Handles(tasks[t]) && Owned(tasks[t]) == [session.sid];
      MoveKeeps(m, tasks, t, Closing(session, ThenUse(job, m.sessions[session.conn], second)));
    } else {
      InsertKeeps(m, tasks, t, job, session, second, Store(m, t, job, session, second).value.pc);
    }
  }

  lemma CachedKnown(m: Shared, tasks: map<Tid, Pc>, c: ConnId)
    requires Inv(m, tasks) && c in m.sessions
    ensures m.sessions[c].conn == c && m.sessions[c].sid in m.place
  {
    hide Locks, Guards, CachedPlaces, HeldPlaces, ClosedPlaces;
  }

  lemma PickedDistinct(m: Shared, victims: seq<ConnId>)
    requires CachedPlaces(m.sessions, m.place) && Distinct(victims) && (forall c <- victims :: c in m.sessions)
    ensures Distinct(Sids(Picked(m.sessions, victims)))
    ensures forall sid <- Sids(Picked(m.sessions, victims)) :: sid in m.place && m.place[sid].Cached? && m.place[sid].conn in victims
    ensures forall c <- victims :: m.sessions[c].sid in Sids(Picked(m.sessions, victims))
  {
    var sids := Sids(Picked(m.sessions, victims));
    forall i, j | 0 <= i < j < |sids| ensures sids[i] != sids[j] {
      assert victims[i] != victims[j];
      assert m.place[sids[i]] == Cached(victims[i]) && m.place[sids[j]] == Cached(victims[j]);
    }
    forall c <- victims ensures m.sessions[c].sid in sids {
      var i :| 0 <= i < |victims| && victims[i] == c;
      assert sids[i] == m.sessions[c].sid;
    }
  }

  lemma MakeRoomOwns(place: map<Sid, Place>, t: Tid, session: Handle, stale: seq<Handle>, pc: Pc)
    requires pc.Storing? && pc.session == session && pc.stale == stale
    requires forall sid <- place :: place[sid] == Held(t) <==> sid == session.sid
    requires session.sid in place
    requires Distinct(Sids(stale)) && (forall sid <- Sids(stale) :: sid in place && place[sid].Cached?)
    ensures Owns(HeldBy(place, Sids(stale), t), t, pc)
  {
    assert Owned(pc) == [session.sid] + Sids(stale);
    assert place[session.sid] == Held(t);
  }

  lemma MakeRoomPlaces(m: Shared, tasks: map<Tid, Pc>, t: Tid, job: Job, session: Handle, second: bool,
          victims: seq<ConnId>)
    requires Placed(m, tasks) && t in tasks && tasks[t] == Connected(job, session, second)
    requires Distinct(victims) && (forall c <- victims :: c in m.sessions)
    ensures Placed(MakeRoom(m, t, victims), tasks[t := Storing(job, session, Picked(m.sessions, victims), second)])
    ensures MakeRoom(m, t, victims).place.Keys == m.place.Keys
  {
    PickedDistinct(m, victims);
    OwnsNow(tasks, m.place, t);
    assert session.sid in Owned(tasks[t]);
    var stale := Picked(m.sessions, victims);
    var pc := Storing(job, session, stale, second);
    var place := MakeRoom(m, t, victims).place;
    MakeRoomOwns(m.place, t, session, stale, pc);
    HeldMoves(tasks, m.place, place, t, pc);
    assert forall c <- victims :: place[m.sessions[c].sid] == Held(t);
  }

  lemma MakeRoomKeeps(m: Shared, tasks: map<Tid, Pc>, t: Tid, job: Job, session: Handle, second: bool,
          victims: seq<ConnId>)
    requires Inv(m, tasks) && t in tasks && tasks[t] == Connected(job, session, second)
    requires Distinct(victims) && (forall c <- victims :: c in m.sessions)
    ensures Inv(MakeRoom(m, t, victims), tasks[t := Storing(job, session, Picked(m.sessions, victims), second)])
  {
    hide Refs, Locks, Guards, CachedPlaces, HeldPlaces, ClosedPlaces, Distinct;
    var pc := Storing(job, session, Picked(m.sessions, victims), second);
    TaskHandles(m, tasks, t);
    assert session in Handles(tasks[t]);
    MakeRoomPlaces(m, tasks, t, job, session, second, victims);
    SessionsKnown(m.sessions, tasks, m.place, m.place);
    PlacedKeeps(m, tasks, MakeRoom(m, t, victims), t, pc);
  }

  lemma TailOwns(place: map<Sid, Place>, t: Tid, pc: Pc, pc': Pc, sid: Sid)
    requires Owns(place, t, pc) && Owned(pc) == [sid] + Owned(pc')
    ensures sid in place && place[sid] == Held(t)
    ensures Owns(place[sid := Closed], t, pc')
  {
    hide Owned;
    var owned, rest := Owned(pc), Owned(pc');
    assert forall i :: 0 <= i < |rest| ==> rest[i] == owned[i + 1];
    assert sid == owned[0] && sid in owned;
    assert forall j :: 0 < j < |owned| ==> owned[0] != owned[j];
    assert sid !in rest;
    assert Distinct(rest);
    forall x <- place[sid := Closed] ensures place[sid := Closed][x] == Held(t) <==> x in rest {
      assert x != sid ==> (x in owned <==> x in rest);
    }
  }

  lemma ClosePlaces(m: Shared, tasks: map<Tid, Pc>, t: Tid, session: Handle, after: After)
    requires Placed(m, tasks) && t in tasks && tasks[t] == ClosingLocked(session, after) && session.sid in m.closes
    ensures m.closes[session.sid] == 0 && session.sid in m.place
    ensures Placed(Close(m, session.sid), tasks[t := Resume(after)])
  {
    OwnsNow(tasks, m.place, t);
    ResumeHolds(after);
    TailOwns(m.place, t, tasks[t], Resume(after), session.sid);
    HeldMoves(tasks, m.place, m.place[session.sid := Closed], t, Resume(after));
  }

  lemma CloseKeeps(m: Shared, tasks: map<Tid, Pc>, t: Tid, session: Handle, after: After)
    requires Inv(m, tasks) && t in tasks && tasks[t] == ClosingLocked(session, after) && session.sid in m.closes
    ensures m.closes[session.sid] == 0
    ensures Inv(Unlock(Close(m, session.sid), session.sid), tasks[t := Resume(after)])
  {
    hide Refs, Locks, Guards, CachedPlaces, HeldPlaces, ClosedPlaces;
    var pc := Resume(after);
    var m' := Close(m, session.sid);
    TaskHandles(m, tasks, t);
    ResumeHolds(after);
    ClosePlaces(m, tasks, t, session, after);
    LockReleased(tasks, m.lock, t, pc, session.sid);
    GuardFrame(tasks, m.inFlight, t, pc);
    assert m'.place.Keys == m.place.Keys && m'.closes.Keys == m.closes.Keys;
    assert HandlesKnown(m'.place, pc);
    SessionsKnown(m.sessions, tasks, m.place, m'.place);
    RefsMove(m.sessions, tasks, m.place, m.sessions, m'.place, t, pc);
  }

  lemma SwapOwns(place: map<Sid, Place>, t: Tid, pc: Pc, pc': Pc, a: Sid, b: Sid, rest: seq<Sid>)
    requires Owns(place, t, pc) && Owned(pc) == [a, b] + rest && Owned(pc') == [b, a] + rest
    ensures Owns(place, t, pc')
  {
    var before, after := Owned(pc), Owned(pc');
    forall i, j | 0 <= i < j < |after| ensures after[i] != after[j] {
      var p := if i == 0 then 1 else if i == 1 then 0 else i;
      var q := if j == 0 then 1 else if j == 1 then 0 else j;
      assert after[i] == before[p] && after[j] == before[q];
    }
    assert forall x :: x in before <==> x in after;
  }

  /** The next stale session to close moves to the head of what the connector holds. */
  lemma CloseNextKeeps(m: Shared, tasks: map<Tid, Pc>, t: Tid, job: Job, session: Handle, stale: seq<Handle>,
          second: bool)
    requires Inv(m, tasks) && t in tasks && tasks[t] == Storing(job, session, stale, second) && stale != []
    ensures Inv(m, tasks[t := Closing(stale[0], ThenStore(job, session, stale[1..], second))])
  {
    hide Refs, Locks, Guards, CachedPlaces, HeldPlaces, ClosedPlaces;
    var pc := Closing(stale[0], ThenStore(job, session, stale[1..], second));
    var rest := Sids(stale[1..]);
    NextStale(job, session, stale, second);
    OwnsNow(tasks, m.place, t);
    SwapOwns(m.place, t, tasks[t], pc, session.sid, stale[0].sid, rest);
    HeldMoves(tasks, m.place, m.place, t, pc);
    TaskHandles(m, tasks, t);
    SessionsKnown(m.sessions, tasks, m.place, m.place);
    PlacedKeeps(m, tasks, m, t, pc);
  }

  lemma NextStale(job: Job, session: Handle, stale: seq<Handle>, second: bool)
    requires stale != []
    ensures var pc, pc' := Storing(job, session, stale, second), Closing(stale[0], ThenStore(job, session, stale[1..], second));
            var rest := Sids(stale[1..]);
            && Owned(pc) == [session.sid, stale[0].sid] + rest && Owned(pc') == [stale[0].sid, session.sid] + rest
            && (forall h <- Handles(pc') :: h in Handles(pc))
  {
    hide Owned, Handles;
    NextStaleOwned(job, session, stale, second);
    NextStaleHandles(job, session, stale, second);
  }

  lemma NextStaleOwned(job: Job, session: Handle, stale: seq<Handle>, second: bool)
    requires stale != []
    ensures var rest := Sids(stale[1..]);
            && Owned(Storing(job, session, stale, second)) == [session.sid, stale[0].sid] + rest
            && Owned(Closing(stale[0], ThenStore(job, session, stale[1..], second))) == [stale[0].sid, session.sid] + rest
  {
    var a, b, rest := session.sid, stale[0].sid, Sids(stale[1..]);
    SidsOfFirst(stale);
    assert Owned(Storing(job, session, stale, second)) == [a] + Sids(stale);
    assert Owned(Closing(stale[0], ThenStore(job, session, stale[1..], second))) == [b] + ([a] + rest);
    hide *;
    TwoFirst(a, b, rest);
    TwoFirst(b, a, rest);
  }

  lemma TwoFirst(a: Sid, b: Sid, rest: seq<Sid>)
    ensures [a] + ([b] + rest) == [a, b] + rest
  {
  }

  lemma SidsOfFirst(hs: seq<Handle>)
    requires hs != []
    ensures Sids(hs) == [hs[0].sid] + Sids(hs[1..])
  {
  }

  lemma NextStaleHandles(job: Job, session: Handle, stale: seq<Handle>, second: bool)
    requires stale != []
    ensures var pc, pc' := Storing(job, session, stale, second), Closing(stale[0], ThenStore(job, session, stale[1..], second));
            forall h <- Handles(pc') :: h in Handles(pc)
  {
    assert Handles(Storing(job, session, stale, second)) == [session] + stale;
    assert Handles(Closing(stale[0], ThenStore(job, session, stale[1..], second))) == [stale[0]] + ([session] + stale[1..]);
  }

  // ----- every step -----

  /** A step after which a task only holds handles it had. */
  lemma KeepsHandles(m: Shared, tasks: map<Tid, Pc>, t: Tid, pc: Pc)
    requires Inv(m, tasks) && t in tasks
    requires Owned(pc) == Owned(tasks[t]) && LockOf(pc) == LockOf(tasks[t]) && GuardOf(pc) == GuardOf(tasks[t])
    requires (forall h <- Handles(pc) :: h in Handles(tasks[t])) && (Shaped(tasks[t]) ==> Shaped(pc))
    ensures Inv(m, tasks[t := pc])
  {
    hide Inv;
    TaskHandles(m, tasks, t);
    MoveKeeps(m, tasks, t, pc);
  }

  /** A step that picks up handles from the map. */
  lemma PicksUp(m: Shared, tasks: map<Tid, Pc>, t: Tid, pc: Pc)
    requires Inv(m, tasks) && t in tasks
    requires Owned(tasks[t]) == [] == Owned(pc)
    requires LockOf(tasks[t]) == None == LockOf(pc) && GuardOf(tasks[t]) == None == GuardOf(pc) && Shaped(pc)
    requires forall h <- Handles(pc) :: h in m.sessions.Values
    ensures Inv(m, tasks[t := pc])
  {
    hide Inv;
    forall h <- Handles(pc) ensures h.sid in m.place {
      var c :| c in m.sessions && m.sessions[c] == h;
      CachedKnown(m, tasks, c);
    }
    MoveKeeps(m, tasks, t, pc);
  }

  ghost predicate EffectKeeps(tasks: map<Tid, Pc>, t: Tid, r: Option<Effect>) {
    r.Some? ==>
      && Inv(r.value.shared, tasks[t := r.value.pc])
      && (r.value.timer.Some? ==> r.value.timer.value.sid in r.value.shared.place)
  }

  lemma SearchKeeps(o: Options, m: Shared, tasks: map<Tid, Pc>, t: Tid, e: Env)
    requires Inv(m, tasks) && t in tasks && Searches(tasks[t])
    ensures EffectKeeps(tasks, t, Search(o, m, tasks[t], e))
  {
    hide Inv, CanReuse;
    match tasks[t] {
      case Start(job) =>
        if Search(o, m, tasks[t], e).Some? {
          PicksUp(m, tasks, t, Pruning(job, e.order, e.now));
        }
      case Pruning(job, todo, now) =>
        if todo == [] {
          KeepsHandles(m, tasks, t, LookingUp(job, now));
        } else {
          KeepsHandles(m, tasks, t, Pruning(job, todo[1..], now));
          KeepsHandles(m, tasks, t, PruneIdle(job, todo, now));
        }
      case PruneIdle(job, todo, now) =>
        if todo != [] {
          KeepsHandles(m, tasks, t, Pruning(job, todo[1..], now));
          KeepsHandles(m, tasks, t, Invalidating(todo[0], PruneNext(job, todo[1..], now)));
        }
      case LookingUp(job, now) =>
        if job.conn in m.sessions {
          PicksUp(m, tasks, t, Found(job, m.sessions[job.conn], now));
        } else {
          KeepsHandles(m, tasks, t, Connecting(job, false));
        }
      case Found(job, h, now) =>
        KeepsHandles(m, tasks, t, Using(job, h, false));
        KeepsHandles(m, tasks, t, Invalidating(h, ThenConnect(job)));
    }
  }

  lemma ProvideKeeps(o: Options, m: Shared, tasks: map<Tid, Pc>, t: Tid, e: Env)
    requires Inv(m, tasks) && t in tasks && Provides(tasks[t])
    ensures EffectKeeps(tasks, t, Provide(o, m, t, tasks[t], e))
  {
    hide Inv, Store, MakeRoom, Connect;
    match tasks[t] {
      case Connecting(job, second) =>
        if !e.ok {
          KeepsHandles(m, tasks, t, Done);
        } else if e.sid !in m.place {
          ConnectKeeps(m, tasks, t, job, second, e.sid, e.now);
        }
      case Connected(job, session, second) =>
        if AreVictims(o, m.sessions, job.conn, e.victims) {
          MakeRoomKeeps(m, tasks, t, job, session, second, e.victims);
        }
      case Storing(job, session, stale, second) =>
        if stale == [] {
          StoreKeeps(m, tasks, t, job, session, second);
        } else {
          CloseNextKeeps(m, tasks, t, job, session, stale, second);
        }
    }
  }

  lemma MarkUsedKeeps(o: Options, m: Shared, tasks: map<Tid, Pc>, t: Tid, h: Handle, now: nat, pc: Pc)
    requires Inv(m, tasks) && t in tasks && h in Handles(tasks[t])
    requires Owned(tasks[t]) == [] && LockOf(tasks[t]) == None && GuardOf(tasks[t]) == GuardOf(pc)
    requires pc == Done || pc == Releasing(h)
    ensures EffectKeeps(tasks, t, MarkUsed(o, m, h, now, pc))
  {
    hide Inv;
    TaskHandles(m, tasks, t);
    TouchKeeps(m, tasks, h.sid, now);
    MoveKeeps(Touch(m, h.sid, now), tasks, t, pc);
  }

  lemma UseKeeps(o: Options, m: Shared, tasks: map<Tid, Pc>, t: Tid, e: Env)
    requires Inv(m, tasks) && t in tasks && Uses(tasks[t])
    ensures EffectKeeps(tasks, t, Use(o, m, t, tasks[t], e))
  {
    hide Inv, BeginUse, EndUse, TakeLock, Unlock, MarkUsed;
    TaskHandles(m, tasks, t);
    match tasks[t] {
      case Using(job, h, second) =>
        if job.warm {
          MarkUsedKeeps(o, m, tasks, t, h, e.now, Done);
        } else if h.sid in m.inFlight {
          BeginUseKeeps(m, tasks, t, Waiting(job, h, second), h.sid);
        }
      case Waiting(job, h, second) =>
        if h.sid !in m.lock {
          LockKeeps(m, tasks, t, Executing(job, h, second), h.sid);
        }
      case Executing(job, h, second) =>
        if h.sid in m.inFlight && m.inFlight[h.sid] > 0 {
          if job.streaming {
            UnlockKeeps(m, tasks, t, Ran(job, h, second, e.ok), h.sid);
          } else {
            EndUseKeeps(m, tasks, t, Ran(job, h, second, e.ok), h.sid);
          }
        }
      case Ran(job, h, second, ok) =>
        if ok {
          MarkUsedKeeps(o, m, tasks, t, h, e.now, if job.streaming then Releasing(h) else Done);
        } else {
          KeepsHandles(m, tasks, t, Invalidating(h, AfterFailure(job, h, second)));
        }
      case Releasing(h) =>
        if h.sid in m.inFlight && m.inFlight[h.sid] > 0 {
          ReleaseKeeps(m, tasks, t, h.sid);
        }
    }
  }

  lemma TimerKeeps(m: Shared, tasks: map<Tid, Pc>, t: Tid, h: Handle)
    requires Inv(m, tasks) && t in tasks && (tasks[t] == Timer(h) || tasks[t] == TimerIdle(h))
    ensures Inv(m, tasks[t := TimerIdle(h)]) && Inv(m, tasks[t := Done]) && Inv(m, tasks[t := Invalidating(h, ThenEnd)])
  {
    hide Inv;
    KeepsHandles(m, tasks, t, TimerIdle(h));
    KeepsHandles(m, tasks, t, Done);
    KeepsHandles(m, tasks, t, Invalidating(h, ThenEnd));
  }

  lemma ClosingKeeps(o: Options, m: Shared, tasks: map<Tid, Pc>, t: Tid, e: Env)
    requires Inv(m, tasks) && t in tasks && (tasks[t].Invalidating? || tasks[t].Closing? || tasks[t].ClosingLocked?)
    ensures EffectKeeps(tasks, t, Evict(o, m, t, tasks[t], e))
  {
    hide Inv, Invalidate, TakeOut, Close, Unlock, TakeLock, Resume;
    match tasks[t] {
      case Invalidating(h, after) =>
        InvalidateKeeps(m, tasks, t, h, after);
      case Closing(session, after) =>
        if session.sid !in m.lock {
          TaskHandles(m, tasks, t);
          LockKeeps(m, tasks, t, ClosingLocked(session, after), session.sid);
        }
      case ClosingLocked(session, after) =>
        if session.sid in m.closes {
          CloseKeeps(m, tasks, t, session, after);
        }
    }
  }

  lemma WakingKeeps(o: Options, m: Shared, tasks: map<Tid, Pc>, t: Tid, e: Env)
    requires Inv(m, tasks) && t in tasks && (tasks[t].Timer? || tasks[t].TimerIdle? || tasks[t].Evicting?)
    ensures EffectKeeps(tasks, t, Evict(o, m, t, tasks[t], e))
  {
    hide Inv, TakeOut;
    match tasks[t] {
      case Timer(h) =>
        TimerKeeps(m, tasks, t, h);
      case TimerIdle(h) =>
        TimerKeeps(m, tasks, t, h);
      case Evicting(conn) =>
        if conn in m.sessions {
          TakeOutKeeps(m, tasks, t, conn, ThenEnd);
        } else {
          KeepsHandles(m, tasks, t, Done);
        }
    }
  }

  predicate Evicts(pc: Pc) {
    pc.Invalidating? || pc.Closing? || pc.ClosingLocked? || pc.Timer? || pc.TimerIdle? || pc.Evicting?
  }

  lemma OthersDoNotEvict(o: Options, m: Shared, t: Tid, pc: Pc, e: Env)
    ensures !Evicts(pc) ==> Evict(o, m, t, pc, e) == None
  {
  }

  lemma EvictKeeps(o: Options, m: Shared, tasks: map<Tid, Pc>, t: Tid, e: Env)
    requires Inv(m, tasks) && t in tasks
    ensures EffectKeeps(tasks, t, Evict(o, m, t, tasks[t], e))
  {
    OthersDoNotEvict(o, m, t, tasks[t], e);
    hide Evict, Inv;
    if tasks[t].Invalidating? || tasks[t].Closing? || tasks[t].ClosingLocked? {
      hide EffectKeeps;
      ClosingKeeps(o, m, tasks, t, e);
    } else if tasks[t].Timer? || tasks[t].TimerIdle? || tasks[t].Evicting? {
      hide EffectKeeps;
      WakingKeeps(o, m, tasks, t, e);
    }
  }

  lemma TaskStepKeeps(o: Options, m: Shared, tasks: map<Tid, Pc>, t: Tid, e: Env)
    requires Inv(m, tasks) && t in tasks
    ensures EffectKeeps(tasks, t, TaskStep(o, m, t, tasks[t], e))
  {
    hide Inv, EffectKeeps, Search, Provide, Use, Evict;
    if Searches(tasks[t]) {
      SearchKeeps(o, m, tasks, t, e);
    } else if Provides(tasks[t]) {
      ProvideKeeps(o, m, tasks, t, e);
    } else if Uses(tasks[t]) {
      UseKeeps(o, m, tasks, t, e);
    } else {
      EvictKeeps(o, m, tasks, t, e);
    }
  }

  // ----- dropping a task -----

  lemma DropLocks(m: Shared, tasks: map<Tid, Pc>, t: Tid)
    requires Locks(tasks, m.lock) && t in tasks
    ensures Locks(tasks[t := Done], Drop(m, tasks[t]).lock)
  {
    if LockOf(tasks[t]).Some? {
      LockReleased(tasks, m.lock, t, Done, LockOf(tasks[t]).value);
    } else {
      LockFrame(tasks, m.lock, t, Done);
    }
  }

  lemma DropGuards(m: Shared, tasks: map<Tid, Pc>, t: Tid)
    requires Guards(tasks, m.inFlight) && t in tasks
    requires GuardOf(tasks[t]).Some? ==> GuardOf(tasks[t]).value in m.inFlight
    ensures Guards(tasks[t := Done], Drop(m, tasks[t]).inFlight) && Drop(m, tasks[t]).inFlight.Keys == m.inFlight.Keys
  {
    if GuardOf(tasks[t]).Some? {
      GuardEnded(tasks, m.inFlight, t, Done, GuardOf(tasks[t]).value);
    } else {
      GuardFrame(tasks, m.inFlight, t, Done);
    }
  }

  lemma DropPlaces(m: Shared, tasks: map<Tid, Pc>, t: Tid)
    requires Placed(m, tasks) && t in tasks
    ensures Placed(Drop(m, tasks[t]), tasks[t := Done]) && Drop(m, tasks[t]).place.Keys == m.place.Keys
  {
    OwnsNow(tasks, m.place, t);
    HeldMoves(tasks, m.place, Drop(m, tasks[t]).place, t, Done);
  }

  lemma DropKeeps(m: Shared, tasks: map<Tid, Pc>, t: Tid)
    requires Inv(m, tasks) && t in tasks
    ensures Inv(Drop(m, tasks[t]), tasks[t := Done])
  {
    hide Refs, Locks, Guards, CachedPlaces, HeldPlaces, ClosedPlaces;
    DropLocks(m, tasks, t);
    TaskHandles(m, tasks, t);
    if GuardOf(tasks[t]).Some? {
      GuardHandle(tasks[t]);
    }
    DropGuards(m, tasks, t);
    DropPlaces(m, tasks, t);
    SessionsKnown(m.sessions, tasks, m.place, m.place);
    RefsMove(m.sessions, tasks, m.place, m.sessions, Drop(m, tasks[t]).place, t, Done);
  }

  lemma SpawnKeeps(s: State, s': State)
    requires Inv(s.shared, s.tasks) && Spawns(s, s')
    ensures Inv(s'.shared, s'.tasks)
  {
    hide Inv, InWindow;
    var t: Tid, pc: Pc :| t !in s.tasks && (pc.Start? || pc.Evicting?) && s' == WithTasks(s, s.shared, s.tasks[t := pc]);
    MoveKeeps(s.shared, s.tasks, t, pc);
  }

  lemma AdvanceKeeps(o: Options, s: State, s': State)
    requires Inv(s.shared, s.tasks) && Advances(o, s, s')
    ensures Inv(s'.shared, s'.tasks)
  {
    hide Inv, InWindow, TaskStep;
    var t: Tid, e: Env :| AdvancesTo(o, s, t, e, s');
    TaskStepKeeps(o, s.shared, s.tasks, t, e);
    var r := TaskStep(o, s.shared, t, s.tasks[t], e);
    if r.value.timer.Some? {
      MoveKeeps(r.value.shared, s.tasks[t := r.value.pc], e.tid, Timer(r.value.timer.value));
    }
  }

  lemma StepKeeps(o: Options, s: State, s': State)
    requires Inv(s.shared, s.tasks) && (Step(o, s, s') || DropStep(s, s'))
    ensures Inv(s'.shared, s'.tasks)
  {
    hide Inv, Spawns, Advances, Drop, InWindow;
    if Spawns(s, s') {
      SpawnKeeps(s, s');
    } else if Advances(o, s, s') {
      AdvanceKeeps(o, s, s');
    } else {
      var t: Tid :| t in s.tasks && Droppable(s.tasks[t]) && s' == WithTasks(s, Drop(s.shared, s.tasks[t]), s.tasks[t := Done]);
      DropKeeps(s.shared, s.tasks, t);
    }
  }

  // ----- runs -----

  /** Any interleaving, starting with an empty pool; `drops` says whether tasks may be dropped. */
  ghost predicate Run(o: Options, ss: seq<State>, drops: bool) {
    && ss != [] && ss[0] == EMPTY
    && forall i :: 0 < i < |ss| ==> StepAt(o, ss, i, drops)
  }

  ghost predicate StepAt(o: Options, ss: seq<State>, i: nat, drops: bool)
    requires 0 < i < |ss|
  {
    Step(o, ss[i - 1], ss[i]) || (drops && DropStep(ss[i - 1], ss[i]))
  }

  lemma {:induction false} RunKeeps(o: Options, ss: seq<State>, drops: bool, i: nat)
    requires Run(o, ss, drops) && i < |ss|
    ensures Inv(ss[i].shared, ss[i].tasks)
  {
    if i > 0 {
      hide Inv, Step, DropStep;
      RunKeeps(o, ss, drops, i - 1);
      assert StepAt(o, ss, i, drops);
      StepKeeps(o, ss[i - 1], ss[i]);
    }
  }

  ghost function Slots(m: Shared, sid: Sid): set<ConnId> {
    set c | c in m.sessions && m.sessions[c].sid == sid
  }

  ghost function Owners(tasks: map<Tid, Pc>, sid: Sid): set<Tid> {
    set t | t in tasks && sid in Owned(tasks[t])
  }

  /** How often a session is accounted for: once per map entry, owner and close. */
  ghost function Accounted(m: Shared, tasks: map<Tid, Pc>, sid: Sid): nat
    requires sid in m.closes
  {
    |Slots(m, sid)| + |Owners(tasks, sid)| + m.closes[sid]
  }

  lemma AccountedByPlace(m: Shared, tasks: map<Tid, Pc>, sid: Sid)
    requires Inv(m, tasks) && sid in m.closes
    ensures Accounted(m, tasks, sid) == if m.place[sid] == Abandoned then 0 else 1
  {
    hide Refs, Locks, Guards, HandlesKnown;
    match m.place[sid] {
      case Cached(c) =>
        assert Slots(m, sid) == {c};
        forall t <- tasks ensures sid !in Owned(tasks[t]) { OwnsNow(tasks, m.place, t); }
        assert Owners(tasks, sid) == {};
      case Held(t) =>
        assert Slots(m, sid) == {};
        forall u <- tasks ensures sid in Owned(tasks[u]) <==> u == t { OwnsNow(tasks, m.place, u); }
        assert Owners(tasks, sid) == {t};
      case _ =>
        assert Slots(m, sid) == {};
        forall t <- tasks ensures sid !in Owned(tasks[t]) { OwnsNow(tasks, m.place, t); }
        assert Owners(tasks, sid) == {};
    }
  }

  lemma StepAbandonsNothing(o: Options, m: Shared, t: Tid, pc: Pc, e: Env)
    requires TaskStep(o, m, t, pc, e).Some?
    ensures AbandonsNothing(m.place, TaskStep(o, m, t, pc, e).value.shared.place)
  {
    hide Search, Provide, Use, Evict;
  }

  lemma {:induction false} NothingAbandoned(o: Options, ss: seq<State>, i: nat)
    requires Run(o, ss, false) && i < |ss|
    ensures forall sid <- ss[i].shared.place :: ss[i].shared.place[sid] != Abandoned
  {
    hide TaskStep, InWindow;
    if i > 0 {
      NothingAbandoned(o, ss, i - 1);
      assert StepAt(o, ss, i, false);
      if Advances(o, ss[i - 1], ss[i]) {
        var t: Tid, e: Env :| AdvancesTo(o, ss[i - 1], t, e, ss[i]);
        StepAbandonsNothing(o, ss[i - 1].shared, t, ss[i - 1].tasks[t], e);
      }
    }
  }

  // ----- the theorems -----

  /** In every interleaving without dropped tasks each connected session is, at every moment, in exactly
      one place: one map entry, one task that must close or store it (which lists it once), or closed
      once. */
  lemma EverySessionAccounted(o: Options, ss: seq<State>, i: nat, sid: Sid)
    requires Run(o, ss, false) && i < |ss| && sid in ss[i].shared.closes
    ensures Accounted(ss[i].shared, ss[i].tasks, sid) == 1
    ensures forall t <- ss[i].tasks :: Distinct(Owned(ss[i].tasks[t]))
  {
    hide Locks, Guards, Refs, CachedPlaces, ClosedPlaces;
    RunKeeps(o, ss, false, i);
    NothingAbandoned(o, ss, i);
    AccountedByPlace(ss[i].shared, ss[i].tasks, sid);
    forall t <- ss[i].tasks ensures Distinct(Owned(ss[i].tasks[t])) {
      OwnsNow(ss[i].tasks, ss[i].shared.place, t);
    }
  }

  /** Dropping a task loses exactly the sessions it owned: they are in no map, with no task, and never
      closed. */
  lemma DropLosesOwned(o: Options, ss: seq<State>, t: Tid, sid: Sid)
    requires Run(o, ss, true)
    requires var s := ss[|ss| - 1]; t in s.tasks && Droppable(s.tasks[t]) && sid in s.shared.closes
    ensures var s := ss[|ss| - 1];
            Accounted(Drop(s.shared, s.tasks[t]), s.tasks[t := Done], sid) == 0
            <==> Accounted(s.shared, s.tasks, sid) == 0 || sid in Owned(s.tasks[t])
  {
    hide Inv;
    var s := ss[|ss| - 1];
    RunKeeps(o, ss, true, |ss| - 1);
    DropKeeps(s.shared, s.tasks, t);
    InvCells(s.shared, s.tasks);
    AccountedByPlace(s.shared, s.tasks, sid);
    AccountedByPlace(Drop(s.shared, s.tasks[t]), s.tasks[t := Done], sid);
  }

  lemma InvCells(m: Shared, tasks: map<Tid, Pc>)
    requires Inv(m, tasks)
    ensures Cells(m)
  {
  }

  /** A session is closed only under its lock, so never while an exec runs on it, and never twice. */
  lemma CloseExcludesExec(o: Options, ss: seq<State>, drops: bool, i: nat, t: Tid, u: Tid)
    requires Run(o, ss, drops) && i < |ss|
    requires t in ss[i].tasks && u in ss[i].tasks
    requires ss[i].tasks[t].ClosingLocked? && ss[i].tasks[u].Executing?
    ensures ss[i].tasks[t].session.sid != ss[i].tasks[u].handle.sid
    ensures var sid := ss[i].tasks[t].session.sid; sid in ss[i].shared.closes && ss[i].shared.closes[sid] == 0
  {
    hide Step, DropStep, Guards, CachedPlaces, Refs;
    RunKeeps(o, ss, drops, i);
    var s := ss[i];
    OwnsNow(s.tasks, s.shared.place, t);
    assert Owned(s.tasks[t])[0] == s.tasks[t].session.sid;
  }

  /** The use counter of a session is the number of tasks with a live guard on it. */
  lemma CounterCountsGuards(o: Options, ss: seq<State>, drops: bool, i: nat, sid: Sid)
    requires Run(o, ss, drops) && i < |ss| && sid in ss[i].shared.inFlight
    ensures ss[i].shared.inFlight[sid] == |GuardsOn(ss[i].tasks, sid)|
  {
    RunKeeps(o, ss, drops, i);
  }
}
