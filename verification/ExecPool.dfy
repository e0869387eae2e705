/** The pool of cached SSH exec sessions, shared by concurrent tasks.

    Each region under the pool's lock is one step, and so is each single access to a session's
    own cells; between steps any other task may run.  A task's program counter holds the handles
    it has cloned (which it may only use) and the sessions it has taken out of the map or has
    just connected (which it must close or store). */
module ExecPool {
  import opened Wrappers

  type ConnId = string
  type Sid = nat
  type Tid = nat

  /** A cloned reference to one session.  `sid` stands for the identity of the session object. */
  datatype Handle = Handle(conn: ConnId, signature: string, sid: Sid)

  datatype Options = Options(idleTimeout: nat, maxCached: nat)

  /** One call into the pool: an exec that may reconnect once, a streaming exec, which keeps its use
      guard until it returns, or a warm-up. */
  datatype Job = Job(conn: ConnId, signature: string, retry: bool, warm: bool, streaming: bool)

  /** What a task goes on with once a session is closed. */
  datatype After =
    | PruneNext(job: Job, todo: seq<Handle>, now: nat)
    | ThenConnect(job: Job)
    | ThenStore(job: Job, session: Handle, stale: seq<Handle>, second: bool)
    | ThenUse(job: Job, handle: Handle, second: bool)
    | ThenRetry(job: Job)
    | ThenRelease(handle: Handle)
    | ThenEnd

  datatype Pc =
    | Start(job: Job)
    | Pruning(job: Job, todo: seq<Handle>, now: nat)
    | PruneIdle(job: Job, todo: seq<Handle>, now: nat)
    | LookingUp(job: Job, now: nat)
    | Found(job: Job, handle: Handle, now: nat)
    | Connecting(job: Job, second: bool)
    | Connected(job: Job, session: Handle, second: bool)
    | Storing(job: Job, session: Handle, stale: seq<Handle>, second: bool)
    | Using(job: Job, handle: Handle, second: bool)
    | Waiting(job: Job, handle: Handle, second: bool)
    | Executing(job: Job, handle: Handle, second: bool)
    | Ran(job: Job, handle: Handle, second: bool, ok: bool)
    | Releasing(handle: Handle)
    | Invalidating(handle: Handle, after: After)
    | Closing(session: Handle, after: After)
    | ClosingLocked(session: Handle, after: After)
    | Timer(handle: Handle)
    | TimerIdle(handle: Handle)
    | Evicting(conn: ConnId)
    | Done

  /** Where a connected session is: history, read by no step. */
  datatype Place = Cached(conn: ConnId) | Held(task: Tid) | Closed | Abandoned

  /** What the tasks share: the map, and the cells of every connected session. */
  datatype Shared = Shared(
    sessions: map<ConnId, Handle>,
    lastUsed: map<Sid, nat>,
    inFlight: map<Sid, nat>,
    lock: map<Sid, Tid>,
    // history
    place: map<Sid, Place>,
    closes: map<Sid, nat>)

  /** `peak` is history: the largest number of connectors ever inside their window. */
  datatype State = State(shared: Shared, tasks: map<Tid, Pc>, peak: nat)

  const EMPTY := State(Shared(map[], map[], map[], map[], map[], map[]), map[], 0)

  /** What the outside world contributes to a step: the clock, a new session, a new task number,
      whether the network did its part, an iteration order of the map, and a sorted choice. */
  datatype Env = Env(now: nat, sid: Sid, tid: Tid, ok: bool, order: seq<Handle>, victims: seq<ConnId>)

  predicate CanReuse(lastUsed: nat, cachedSignature: string, signature: string, idleTimeout: nat, now: nat) {
    cachedSignature == signature && (if now >= lastUsed then now - lastUsed else 0) <= idleTimeout
  }

  function Resume(after: After): Pc {
    match after
    case PruneNext(job, todo, now) => Pruning(job, todo, now)
    case ThenConnect(job) => Connecting(job, false)
    case ThenStore(job, session, stale, second) => Storing(job, session, stale, second)
    case ThenUse(job, handle, second) => Using(job, handle, second)
    case ThenRetry(job) => Connecting(job, true)
    case ThenRelease(handle) => Releasing(handle)
    case ThenEnd => Done
  }

  // ----- what a program counter holds -----

  function Sids(hs: seq<Handle>): (r: seq<Sid>)
    ensures |r| == |hs| && forall i :: 0 <= i < |hs| ==> r[i] == hs[i].sid
  {
    seq(|hs|, i requires 0 <= i < |hs| => hs[i].sid)
  }

  function OwnedAfter(after: After): seq<Sid> {
    match after
    case ThenStore(_, session, stale, _) => [session.sid] + Sids(stale)
    case _ => []
  }

  /** The sessions a task has to close or store. */
  function Owned(pc: Pc): seq<Sid> {
    match pc
    case Connected(_, session, _) => [session.sid]
    case Storing(_, session, stale, _) => [session.sid] + Sids(stale)
    case Closing(session, after) => [session.sid] + OwnedAfter(after)
    case ClosingLocked(session, after) => [session.sid] + OwnedAfter(after)
    case _ => []
  }

  /** The session whose lock a task holds. */
  function LockOf(pc: Pc): Option<Sid> {
    match pc
    case Executing(_, handle, _) => Some(handle.sid)
    case ClosingLocked(session, _) => Some(session.sid)
    case _ => None
  }

  /** The session a task's live use guard counts for. */
  function GuardOf(pc: Pc): Option<Sid> {
    match pc
    case Waiting(_, handle, _) => Some(handle.sid)
    case Executing(_, handle, _) => Some(handle.sid)
    case Ran(job, handle, _, _) => if job.streaming then Some(handle.sid) else None
    case Releasing(handle) => Some(handle.sid)
    case Invalidating(_, after) => GuardAfter(after)
    case Closing(_, after) => GuardAfter(after)
    case ClosingLocked(_, after) => GuardAfter(after)
    case _ => None
  }

  function GuardAfter(after: After): Option<Sid> {
    if after.ThenRelease? then Some(after.handle.sid) else None
  }

  /** A connector between making room in the map and storing its session. */
  function WindowOf(pc: Pc): Option<ConnId> {
    match pc
    case Storing(job, _, _, _) => Some(job.conn)
    case Closing(_, after) => WindowAfter(after)
    case ClosingLocked(_, after) => WindowAfter(after)
    case _ => None
  }

  function WindowAfter(after: After): Option<ConnId> {
    if after.ThenStore? then Some(after.job.conn) else None
  }

  function HandlesAfter(after: After): seq<Handle> {
    match after
    case PruneNext(_, todo, _) => todo
    case ThenStore(_, session, stale, _) => [session] + stale
    case ThenUse(_, handle, _) => [handle]
    case ThenRelease(handle) => [handle]
    case _ => []
  }

  function Handles(pc: Pc): seq<Handle> {
    match pc
    case Pruning(_, todo, _) => todo
    case PruneIdle(_, todo, _) => todo
    case Found(_, handle, _) => [handle]
    case Connected(_, session, _) => [session]
    case Storing(_, session, stale, _) => [session] + stale
    case Using(_, handle, _) => [handle]
    case Waiting(_, handle, _) => [handle]
    case Executing(_, handle, _) => [handle]
    case Ran(_, handle, _, _) => [handle]
    case Releasing(handle) => [handle]
    case Invalidating(handle, after) => [handle] + HandlesAfter(after)
    case Closing(session, after) => [session] + HandlesAfter(after)
    case ClosingLocked(session, after) => [session] + HandlesAfter(after)
    case Timer(handle) => [handle]
    case TimerIdle(handle) => [handle]
    case _ => []
  }

  /** The connectors between making room and storing. */
  function InWindow(tasks: map<Tid, Pc>): set<Tid> {
    set t | t in tasks && WindowOf(tasks[t]).Some?
  }

  // ----- the lock regions -----

  /** Strings in byte order. */
  predicate Precedes(a: string, b: string) {
    b != [] && (a == [] || a[0] < b[0] || (a[0] == b[0] && Precedes(a[1..], b[1..])))
  }

  /** How many sessions `prune_extra_sessions` wants gone. */
  function Surplus(o: Options, sessions: map<ConnId, Handle>): nat {
    if o.maxCached == 0 || |sessions| < o.maxCached then 0 else |sessions| - (o.maxCached - 1)
  }

  /** The first ids in order, other than the active one, as many as the surplus if there are that many. */
  predicate AreVictims(o: Options, sessions: map<ConnId, Handle>, active: ConnId, victims: seq<ConnId>) {
    var others := sessions.Keys - {active};
    && (forall i, j :: 0 <= i < j < |victims| ==> Precedes(victims[i], victims[j]) && victims[i] != victims[j])
    && (forall c <- victims :: c in others)
    && (forall c <- others, v <- victims :: c !in victims ==> Precedes(v, c))
    && |victims| == if Surplus(o, sessions) <= |others| then Surplus(o, sessions) else |others|
  }

  function Picked(sessions: map<ConnId, Handle>, victims: seq<ConnId>): (r: seq<Handle>)
    requires forall c <- victims :: c in sessions
    ensures |r| == |victims| && forall i :: 0 <= i < |victims| ==> r[i] == sessions[victims[i]]
  {
    seq(|victims|, i requires 0 <= i < |victims| => sessions[victims[i]])
  }

  function Without<T>(sessions: map<ConnId, T>, victims: seq<ConnId>): map<ConnId, T> {
    map c | c in sessions && c !in victims :: sessions[c]
  }

  function HeldBy(place: map<Sid, Place>, sids: seq<Sid>, t: Tid): map<Sid, Place> {
    map sid | sid in place :: if sid in sids then Held(t) else place[sid]
  }

  /** A session placed as abandoned was so before. */
  predicate AbandonsNothing(place: map<Sid, Place>, place': map<Sid, Place>) {
    forall sid <- place' :: place'[sid] == Abandoned ==> sid in place && place[sid] == Abandoned
  }

  /** What one step of a task does: to the shared state, to itself, and the timer it may leave behind. */
  datatype Effect = Effect(shared: Shared, pc: Pc, timer: Option<Handle>)

  function Goto(m: Shared, pc: Pc): Option<Effect> {
    Some(Effect(m, pc, None))
  }

  /** The session of `c` leaves the map; the task goes on to close it. */
  function TakeOut(m: Shared, t: Tid, c: ConnId): Shared
    requires c in m.sessions
  {
    m.(sessions := m.sessions - {c}, place := m.place[m.sessions[c].sid := Held(t)])
  }

  /** `invalidate_handle`: removes the session only if the map still holds this very one. */
  function Invalidate(m: Shared, t: Tid, h: Handle, after: After): Option<Effect> {
    if h.conn in m.sessions && m.sessions[h.conn].sid == h.sid then
      Goto(TakeOut(m, t, h.conn), Closing(m.sessions[h.conn], after))
    else
      Goto(m, Resume(after))
  }

  function Connect(m: Shared, t: Tid, sid: Sid, now: nat): Shared {
    m.(lastUsed := m.lastUsed[sid := now], inFlight := m.inFlight[sid := 0],
       place := m.place[sid := Held(t)], closes := m.closes[sid := 0])
  }

  /** `prune_extra_sessions`. */
  function MakeRoom(m: Shared, t: Tid, victims: seq<ConnId>): Shared
    requires forall c <- victims :: c in m.sessions
  {
    m.(sessions := Without(m.sessions, victims), place := HeldBy(m.place, Sids(Picked(m.sessions, victims)), t))
  }

  /** The session enters the map; one it replaces goes to the task. */
  function Insert(m: Shared, t: Tid, session: Handle): Shared {
    var cached := m.place[session.sid := Cached(session.conn)];
    m.(sessions := m.sessions[session.conn := session],
       place := if session.conn in m.sessions then cached[m.sessions[session.conn].sid := Held(t)] else cached)
  }

  /** The storing region of `connect_and_store`. */
  function Store(m: Shared, t: Tid, job: Job, session: Handle, second: bool): Option<Effect> {
    if session.conn !in m.sessions then
      Goto(Insert(m, t, session), Using(job, session, second))
    else
      var existing := m.sessions[session.conn];
      if existing.signature == session.signature then
        Goto(m, Closing(session, ThenUse(job, existing, second)))
      else
        Goto(Insert(m, t, session), Closing(existing, ThenUse(job, session, second)))
  }

  /** `begin_handle_use` and the end of the guard it returns. */
  function BeginUse(m: Shared, sid: Sid): Shared
    requires sid in m.inFlight
  {
    m.(inFlight := m.inFlight[sid := m.inFlight[sid] + 1])
  }

  function EndUse(m: Shared, sid: Sid): Shared
    requires sid in m.inFlight && m.inFlight[sid] > 0
  {
    m.(inFlight := m.inFlight[sid := m.inFlight[sid] - 1])
  }

  function TakeLock(m: Shared, t: Tid, sid: Sid): Shared {
    m.(lock := m.lock[sid := t])
  }

  function Unlock(m: Shared, sid: Sid): Shared {
    m.(lock := m.lock - {sid})
  }

  /** The close itself, under the lock. */
  function Close(m: Shared, sid: Sid): Shared
    requires sid in m.closes
  {
    m.(closes := m.closes[sid := m.closes[sid] + 1], place := m.place[sid := Closed])
  }

  function Touch(m: Shared, sid: Sid, now: nat): Shared {
    m.(lastUsed := m.lastUsed[sid := now])
  }

  /** `mark_handle_used`: sets the time and leaves a timer behind. */
  function MarkUsed(o: Options, m: Shared, h: Handle, now: nat, pc: Pc): Option<Effect> {
    Some(Effect(Touch(m, h.sid, now), pc, if o.idleTimeout == 0 then None else Some(h)))
  }

  /** Before a session is found: pruning what is idle, then the lookup. */
  function Search(o: Options, m: Shared, pc: Pc, e: Env): (r: Option<Effect>)
    ensures r.Some? ==> r.value.shared == m && r.value.timer == None && WindowOf(r.value.pc) == None
  {
    match pc
    case Start(job) =>
      if (forall h <- e.order :: h in m.sessions.Values) && (forall c <- m.sessions :: m.sessions[c] in e.order)
      then Goto(m, Pruning(job, e.order, e.now)) else None
    case Pruning(job, todo, now) =>
      if todo == [] then Goto(m, LookingUp(job, now))
      else if todo[0].sid in m.inFlight && m.inFlight[todo[0].sid] > 0 then Goto(m, Pruning(job, todo[1..], now))
      else Goto(m, PruneIdle(job, todo, now))
    case PruneIdle(job, todo, now) =>
      if todo == [] || todo[0].sid !in m.lastUsed then None
      else if CanReuse(m.lastUsed[todo[0].sid], todo[0].signature, todo[0].signature, o.idleTimeout, now) then
        Goto(m, Pruning(job, todo[1..], now))
      else Goto(m, Invalidating(todo[0], PruneNext(job, todo[1..], now)))
    case LookingUp(job, now) =>
      if job.conn in m.sessions then Goto(m, Found(job, m.sessions[job.conn], now)) else Goto(m, Connecting(job, false))
    case Found(job, h, now) =>
      if h.sid !in m.lastUsed then None
      else if CanReuse(m.lastUsed[h.sid], h.signature, job.signature, o.idleTimeout, now) then Goto(m, Using(job, h, false))
      else Goto(m, Invalidating(h, ThenConnect(job)))
    case _ => None
  }

  /** Connecting, making room, storing. */
  function Provide(o: Options, m: Shared, t: Tid, pc: Pc, e: Env): (r: Option<Effect>)
    ensures r.Some? ==> r.value.timer == None && AbandonsNothing(m.place, r.value.shared.place)
  {
    match pc
    case Connecting(job, second) =>
      if !e.ok then Goto(m, Done)
      else if e.sid in m.place then None
      else Goto(Connect(m, t, e.sid, e.now), Connected(job, Handle(job.conn, job.signature, e.sid), second))
    case Connected(job, session, second) =>
      if AreVictims(o, m.sessions, job.conn, e.victims) then
        Goto(MakeRoom(m, t, e.victims), Storing(job, session, Picked(m.sessions, e.victims), second))
      else None
    case Storing(job, session, stale, second) =>
      if stale != [] then Goto(m, Closing(stale[0], ThenStore(job, session, stale[1..], second)))
      else Store(m, t, job, session, second)
    case _ => None
  }

  function AfterFailure(job: Job, h: Handle, second: bool): After {
    if job.streaming then ThenRelease(h) else if job.retry && !second then ThenRetry(job) else ThenEnd
  }

  /** Using a session: the guard, the lock, the exec, and what follows it. */
  function Use(o: Options, m: Shared, t: Tid, pc: Pc, e: Env): (r: Option<Effect>)
    ensures r.Some? ==> r.value.shared.sessions == m.sessions && r.value.shared.place == m.place && WindowOf(r.value.pc) == None
  {
    match pc
    case Using(job, h, second) =>
      if job.warm then MarkUsed(o, m, h, e.now, Done)
      else if h.sid !in m.inFlight then None
      else Goto(BeginUse(m, h.sid), Waiting(job, h, second))
    case Waiting(job, h, second) =>
      if h.sid in m.lock then None else Goto(TakeLock(m, t, h.sid), Executing(job, h, second))
    case Executing(job, h, second) =>
      if h.sid !in m.inFlight || m.inFlight[h.sid] == 0 then None
      else Goto(if job.streaming then Unlock(m, h.sid) else EndUse(Unlock(m, h.sid), h.sid), Ran(job, h, second, e.ok))
    case Ran(job, h, second, ok) =>
      if ok then MarkUsed(o, m, h, e.now, if job.streaming then Releasing(h) else Done)
      else Goto(m, Invalidating(h, AfterFailure(job, h, second)))
    case Releasing(h) =>
      if h.sid !in m.inFlight || m.inFlight[h.sid] == 0 then None else Goto(EndUse(m, h.sid), Done)
    case _ => None
  }

  /** Taking a session out of the map and closing it, and the idle timer. */
  function Evict(o: Options, m: Shared, t: Tid, pc: Pc, e: Env): (r: Option<Effect>)
    ensures r.Some? ==> r.value.timer == None && r.value.shared.sessions.Keys <= m.sessions.Keys
    ensures r.Some? ==> AbandonsNothing(m.place, r.value.shared.place)
  {
    match pc
    case Invalidating(h, after) =>
      Invalidate(m, t, h, after)
    case Closing(session, after) =>
      if session.sid in m.lock then None else Goto(TakeLock(m, t, session.sid), ClosingLocked(session, after))
    case ClosingLocked(session, after) =>
      if session.sid !in m.closes then None else Goto(Unlock(Close(m, session.sid), session.sid), Resume(after))
    case Timer(h) =>
      if h.sid in m.inFlight && m.inFlight[h.sid] > 0 then Goto(m, Done) else Goto(m, TimerIdle(h))
    case TimerIdle(h) =>
      if h.sid !in m.lastUsed then None
      else if (if e.now >= m.lastUsed[h.sid] then e.now - m.lastUsed[h.sid] else 0) > o.idleTimeout then Goto(m, Invalidating(h, ThenEnd))
      else Goto(m, Done)
    case Evicting(conn) =>
      if conn in m.sessions then Goto(TakeOut(m, t, conn), Closing(m.sessions[conn], ThenEnd)) else Goto(m, Done)
    case _ => None
  }

  predicate Searches(pc: Pc) { pc.Start? || pc.Pruning? || pc.PruneIdle? || pc.LookingUp? || pc.Found? }
  predicate Provides(pc: Pc) { pc.Connecting? || pc.Connected? || pc.Storing? }
  predicate Uses(pc: Pc) { pc.Using? || pc.Waiting? || pc.Executing? || pc.Ran? || pc.Releasing? }

  /** One step of a task, or none while it is blocked, finished, or the environment does not fit. */
  function TaskStep(o: Options, m: Shared, t: Tid, pc: Pc, e: Env): Option<Effect> {
    if Searches(pc) then Search(o, m, pc, e)
    else if Provides(pc) then Provide(o, m, t, pc, e)
    else if Uses(pc) then Use(o, m, t, pc, e)
    else Evict(o, m, t, pc, e)
  }

  function Max(a: nat, b: nat): nat { if a < b then b else a }

  function WithTasks(s: State, m: Shared, tasks: map<Tid, Pc>): State {
    State(m, tasks, Max(s.peak, |InWindow(tasks)|))
  }

  /** A task can be dropped wherever it stands: by an abort, a timeout or a cancelled wait. */
  predicate Droppable(pc: Pc) {
    !pc.Done?
  }

  /** Dropping a task: its lock and its guard are released, what it owned is nobody's. */
  function Drop(m: Shared, pc: Pc): Shared {
    var owned := Owned(pc);
    m.(lock := if LockOf(pc).Some? then m.lock - {LockOf(pc).value} else m.lock,
       inFlight := if GuardOf(pc).Some? && GuardOf(pc).value in m.inFlight && m.inFlight[GuardOf(pc).value] > 0
                   then m.inFlight[GuardOf(pc).value := m.inFlight[GuardOf(pc).value] - 1] else m.inFlight,
       place := map sid | sid in m.place :: if sid in owned then Abandoned else m.place[sid])
  }

  // ----- steps of the whole pool -----

  /** A new call into the pool, or a request to drop a connection. */
  ghost predicate Spawns(s: State, s': State) {
    exists t: Tid, pc: Pc :: t !in s.tasks && (pc.Start? || pc.Evicting?) && s' == WithTasks(s, s.shared, s.tasks[t := pc])
  }

  /** Task `t` takes a step; a timer it leaves behind is a new task. */
  ghost predicate AdvancesTo(o: Options, s: State, t: Tid, e: Env, s': State) {
    && t in s.tasks
    && var r := TaskStep(o, s.shared, t, s.tasks[t], e);
    && r.Some?
    && var tasks := s.tasks[t := r.value.pc];
    && (r.value.timer.Some? ==> e.tid !in tasks)
    && s' == WithTasks(s, r.value.shared, if r.value.timer.Some? then tasks[e.tid := Timer(r.value.timer.value)] else tasks)
  }

  ghost predicate Advances(o: Options, s: State, s': State) {
    exists t: Tid, e: Env :: AdvancesTo(o, s, t, e, s')
  }

  ghost predicate Step(o: Options, s: State, s': State) {
    Spawns(s, s') || Advances(o, s, s')
  }

  /** A task is dropped between two of its steps. */
  ghost predicate DropStep(s: State, s': State) {
    exists t: Tid :: t in s.tasks && Droppable(s.tasks[t]) && s' == WithTasks(s, Drop(s.shared, s.tasks[t]), s.tasks[t := Done])
  }
}
