/**
 * The RDP session manager as a transition system: client calls and runtime tasks interleave, one step
 * per lock region. A call first acquires the lock its next region needs; the region's step does its
 * work and releases it. Only the input calls keep the `sessions` lock while they wait for a channel slot.
 */
module RdpManager {
  import opened Basics

  type SessionId = nat
  type ProfileId = nat
  type CallId = nat

  /** Slots of a session's command channel. */
  const CAPACITY := 32

  datatype Call =
    | CheckIndex(profile: ProfileId)                       // connect: read profile_index
    | CheckSession(profile: ProfileId, existing: SessionId) // connect: look the session up
    | DropStale(profile: ProfileId, stale: SessionId)      // connect: remove a session whose channel closed
    | DropStaleIndex(profile: ProfileId)                   // connect: and its index entry
    | Spawn(profile: ProfileId)                            // connect: start the runtime
    | InsertSession(profile: ProfileId, created: SessionId)
    | InsertIndex(profile: ProfileId, created: SessionId)
    | Connected(profile: ProfileId, session: SessionId)    // connect returned this session
    | TakeOne(target: SessionId)                           // disconnect: remove from sessions
    | CancelOne(target: SessionId)                         // disconnect: cancel the token
    | SendOne(target: SessionId)                           // disconnect: queue Disconnect
    | UnindexOne(target: SessionId)                        // disconnect: remove the index entry
    | TakeAll                                              // disconnect_all: drain sessions
    | CancelNext(todo: set<SessionId>)                     // disconnect_all: cancel one of the drained
    | SendNext(target: SessionId, todo: set<SessionId>)    // disconnect_all: queue Disconnect
    | ClearIndex                                           // disconnect_all: clear the index
    | SendInput(target: SessionId)                         // send_*: queue input, holding sessions
    | Returned

  /** A runtime: running, then its receiver dropped and two removals to do, then gone. */
  datatype Phase = Running | RemoveSession | RemoveIndex | Gone

  datatype Task = Task(profile: ProfileId, phase: Phase, queued: nat, cancelled: bool)

  datatype Actor = CallActor(call: CallId) | TaskActor(task: SessionId)

  datatype Lock = NoLock | SessionsLock | IndexLock

  datatype State = State(
    sessions: map<SessionId, ProfileId>,
    index: map<ProfileId, SessionId>,
    tasks: map<SessionId, Task>,
    calls: map<CallId, Call>,
    sessionsOwner: Option<Actor>,
    indexOwner: Option<Actor>)

  datatype Action =
    | Begin(id: CallId, first: Call)
    | Acquire(actor: Actor)
    | Act(actor: Actor, choice: SessionId)
    | Receive(task: SessionId)
    | Finish(task: SessionId)

  predicate Starts(c: Call) {
    c.CheckIndex? || c.TakeOne? || c.TakeAll? || c.SendInput?
  }

  function LockOf(s: State, a: Actor): Lock {
    match a
    case CallActor(id) =>
      if id !in s.calls then NoLock else
        (match s.calls[id]
         case CheckSession(_, _) => SessionsLock
         case DropStale(_, _) => SessionsLock
         case InsertSession(_, _) => SessionsLock
         case TakeOne(_) => SessionsLock
         case TakeAll => SessionsLock
         case SendInput(_) => SessionsLock
         case CheckIndex(_) => IndexLock
         case DropStaleIndex(_) => IndexLock
         case InsertIndex(_, _) => IndexLock
         case UnindexOne(_) => IndexLock
         case ClearIndex => IndexLock
         case _ => NoLock)
    case TaskActor(t) =>
      if t !in s.tasks then NoLock
      else if s.tasks[t].phase.RemoveSession? then SessionsLock
      else if s.tasks[t].phase.RemoveIndex? then IndexLock
      else NoLock
  }

  predicate Holds(s: State, a: Actor, lock: Lock) {
    match lock
    case NoLock => true
    case SessionsLock => s.sessionsOwner == Some(a)
    case IndexLock => s.indexOwner == Some(a)
  }

  /** The receiver is dropped: a send fails at once. */
  predicate Closed(s: State, t: SessionId) {
    t !in s.tasks || !s.tasks[t].phase.Running?
  }

  predicate CanSend(s: State, t: SessionId) {
    Closed(s, t) || s.tasks[t].queued < CAPACITY
  }

  function Queue(tasks: map<SessionId, Task>, t: SessionId): map<SessionId, Task> {
    if t in tasks && tasks[t].phase.Running? then tasks[t := tasks[t].(queued := tasks[t].queued + 1)] else tasks
  }

  function Cancel(tasks: map<SessionId, Task>, t: SessionId): map<SessionId, Task> {
    if t in tasks then tasks[t := tasks[t].(cancelled := true)] else tasks
  }

  function SetCall(s: State, id: CallId, c: Call): State {
    s.(calls := s.calls[id := c])
  }

  function Release(s: State, lock: Lock): State {
    match lock
    case NoLock => s
    case SessionsLock => s.(sessionsOwner := None)
    case IndexLock => s.(indexOwner := None)
  }

  /**
   * Where a call goes after its next region, or None when the region cannot finish now. `choice` is
   * the fresh session id, or which of the drained sessions is next.
   */
  function NextCall(s: State, c: Call, choice: SessionId): Option<Call> {
    match c
    case CheckIndex(p) => Some(if p in s.index then CheckSession(p, s.index[p]) else Spawn(p))
    case CheckSession(p, e) =>
      Some(if e !in s.sessions then Spawn(p) else if Closed(s, e) then DropStale(p, e) else Connected(p, e))
    case DropStale(p, _) => Some(DropStaleIndex(p))
    case DropStaleIndex(p) => Some(Spawn(p))
    case Spawn(p) => if choice in s.tasks then None else Some(InsertSession(p, choice))
    case InsertSession(p, n) => Some(InsertIndex(p, n))
    case InsertIndex(p, n) => Some(Connected(p, n))
    case TakeOne(t) => Some(if t in s.sessions then CancelOne(t) else Returned)
    case CancelOne(t) => Some(SendOne(t))
    case SendOne(t) => if CanSend(s, t) then Some(UnindexOne(t)) else None
    case UnindexOne(_) => Some(Returned)
    case TakeAll => Some(CancelNext(s.sessions.Keys))
    case CancelNext(todo) =>
      if todo == {} then Some(ClearIndex)
      else if choice in todo then Some(SendNext(choice, todo - {choice}))
      else None
    case SendNext(t, todo) => if CanSend(s, t) then Some(CancelNext(todo)) else None
    case ClearIndex => Some(Returned)
    case SendInput(t) => if t !in s.sessions || CanSend(s, t) then Some(Returned) else None
    case Connected(_, _) => None
    case Returned => None
  }

  function SessionsAfter(s: State, c: Call): map<SessionId, ProfileId> {
    match c
    case DropStale(_, e) => s.sessions - {e}
    case InsertSession(p, n) => s.sessions[n := p]
    case TakeOne(t) => s.sessions - {t}
    case TakeAll => map[]
    case _ => s.sessions
  }

  function IndexAfter(s: State, c: Call): map<ProfileId, SessionId> {
    match c
    case DropStaleIndex(p) => s.index - {p}
    case InsertIndex(p, n) => s.index[p := n]
    case UnindexOne(t) => if t in s.tasks then s.index - {s.tasks[t].profile} else s.index
    case ClearIndex => map[]
    case _ => s.index
  }

  function TasksAfter(s: State, c: Call, choice: SessionId): map<SessionId, Task> {
    match c
    case Spawn(p) => s.tasks[choice := Task(p, Running, 0, false)]
    case CancelOne(t) => Cancel(s.tasks, t)
    case CancelNext(todo) => if todo == {} then s.tasks else Cancel(s.tasks, choice)
    case SendOne(t) => Queue(s.tasks, t)
    case SendNext(t, _) => Queue(s.tasks, t)
    case SendInput(t) => if t in s.sessions then Queue(s.tasks, t) else s.tasks
    case _ => s.tasks
  }

  function CallBody(s: State, id: CallId, choice: SessionId): Option<State>
    requires id in s.calls
  {
    var c := s.calls[id];
    match NextCall(s, c, choice)
    case None => None
    case Some(next) =>
      Some(s.(sessions := SessionsAfter(s, c), index := IndexAfter(s, c), tasks := TasksAfter(s, c, choice),
              calls := s.calls[id := next]))
  }

  function TaskBody(s: State, t: SessionId): Option<State>
    requires t in s.tasks
  {
    var task := s.tasks[t];
    match task.phase
    case RemoveSession => Some(s.(sessions := s.sessions - {t}, tasks := s.tasks[t := task.(phase := RemoveIndex)]))
    case RemoveIndex => Some(s.(index := s.index - {task.profile}, tasks := s.tasks[t := task.(phase := Gone)]))
    case Running => None
    case Gone => None
  }

  function Body(s: State, a: Actor, choice: SessionId): Option<State> {
    match a
    case CallActor(id) => if id in s.calls then CallBody(s, id, choice) else None
    case TaskActor(t) => if t in s.tasks then TaskBody(s, t) else None
  }

  /** One step, or None when the action is not possible in this state. */
  function Next(s: State, action: Action): Option<State> {
    match action
    case Begin(id, first) =>
      if id !in s.calls && Starts(first) then Some(SetCall(s, id, first)) else None
    case Acquire(a) =>
      (match LockOf(s, a)
       case NoLock => None
       case SessionsLock => if s.sessionsOwner.None? then Some(s.(sessionsOwner := Some(a))) else None
       case IndexLock => if s.indexOwner.None? then Some(s.(indexOwner := Some(a))) else None)
    case Act(a, choice) =>
      var lock := LockOf(s, a);
      if !Holds(s, a, lock) then None
      else
        (match Body(s, a, choice)
         case None => None
         case Some(next) => Some(Release(next, lock)))
    case Receive(t) =>
      if t in s.tasks && s.tasks[t].phase.Running? && s.tasks[t].queued > 0
      then Some(s.(tasks := s.tasks[t := s.tasks[t].(queued := s.tasks[t].queued - 1)]))
      else None
    case Finish(t) =>
      if t in s.tasks && s.tasks[t].phase.Running?
      then Some(s.(tasks := s.tasks[t := s.tasks[t].(phase := RemoveSession)]))
      else None
  }

  const INITIAL := State(map[], map[], map[], map[], None, None)

  /** `states` is a run of the manager from its creation, under the given actions. */
  ghost predicate Run(states: seq<State>, actions: seq<Action>) {
    |states| == |actions| + 1 && states[0] == INITIAL
    && forall i | 0 <= i < |actions| :: Next(states[i], actions[i]) == Some(states[i + 1])
  }

  // ----- No runtime escapes -----

  /** Some call is about to cancel this runtime, having taken it out of `sessions`. */
  ghost predicate AboutToCancel(s: State, t: SessionId) {
    exists id | id in s.calls :: WillCancel(s.calls[id], t)
  }

  predicate WillCancel(c: Call, t: SessionId) {
    (c.CancelOne? && c.target == t) || (c.CancelNext? && t in c.todo) || (c.SendNext? && t in c.todo)
  }

  /** Its connect has not put it into `sessions` yet. */
  ghost predicate BeingInserted(s: State, t: SessionId) {
    exists id | id in s.calls :: s.calls[id].InsertSession? && s.calls[id].created == t
  }

  ghost predicate Reachable(s: State, t: SessionId)
    requires t in s.tasks
  {
    t in s.sessions || s.tasks[t].cancelled || AboutToCancel(s, t) || BeingInserted(s, t)
  }

  ghost predicate NoEscape(s: State) {
    forall t | t in s.tasks && s.tasks[t].phase.Running? :: Reachable(s, t)
  }

  /** Sessions, index entries and calls all name runtimes of the right profile. */
  ghost predicate Consistent(s: State) {
    && (forall t | t in s.sessions :: OfProfile(s, t, s.sessions[t]))
    && (forall p | p in s.index :: OfProfile(s, s.index[p], p))
    && (forall id | id in s.calls :: CallConsistent(s, s.calls[id]))
  }

  predicate CallConsistent(s: State, c: Call) {
    match c
    case CheckSession(p, e) => OfProfile(s, e, p)
    case DropStale(p, e) => OfProfile(s, e, p) && Closed(s, e)
    case InsertSession(p, n) => OfProfile(s, n, p)
    case InsertIndex(p, n) => OfProfile(s, n, p)
    case Connected(p, n) => OfProfile(s, n, p)
    case _ => true
  }

  predicate OfProfile(s: State, t: SessionId, p: ProfileId) {
    t in s.tasks && s.tasks[t].profile == p
  }

  /** A lock is held only by an actor whose next region needs it. */
  ghost predicate LocksMatch(s: State) {
    (s.sessionsOwner.Some? ==> LockOf(s, s.sessionsOwner.value) == SessionsLock)
    && (s.indexOwner.Some? ==> LockOf(s, s.indexOwner.value) == IndexLock)
  }

  ghost predicate Invariant(s: State) {
    Consistent(s) && NoEscape(s) && LocksMatch(s)
  }

  /** Runtimes never change profile, never come back to life and never lose a cancellation. */
  ghost predicate TasksAdvance(s: State, s': State) {
    forall t | t in s.tasks ::
      t in s'.tasks && s'.tasks[t].profile == s.tasks[t].profile
      && (s'.tasks[t].phase.Running? ==> s.tasks[t].phase.Running?)
      && (s.tasks[t].cancelled ==> s'.tasks[t].cancelled)
  }

  lemma CallKeepsTasks(s: State, id: CallId, choice: SessionId, s': State)
    requires id in s.calls && CallBody(s, id, choice) == Some(s')
    ensures TasksAdvance(s, s') && PhasesKept(s, s')
  {
  }

  lemma CallKeepsOthers(s: State, id: CallId, choice: SessionId, s': State)
    requires id in s.calls && CallBody(s, id, choice) == Some(s')
    ensures s'.calls == s.calls[id := s'.calls[id]]
    ensures s'.sessionsOwner == s.sessionsOwner && s'.indexOwner == s.indexOwner
  {
  }

  lemma CallAdvances(s: State, id: CallId, choice: SessionId, s': State)
    requires id in s.calls && CallBody(s, id, choice) == Some(s')
    ensures TasksAdvance(s, s') && PhasesKept(s, s')
    ensures s'.calls.Keys == s.calls.Keys
    ensures forall other | other in s.calls && other != id :: s'.calls[other] == s.calls[other]
    ensures s'.sessionsOwner == s.sessionsOwner && s'.indexOwner == s.indexOwner
  {
    CallKeepsTasks(s, id, choice, s');
    CallKeepsOthers(s, id, choice, s');
  }

  /** No runtime changes phase. */
  ghost predicate PhasesKept(s: State, s': State) {
    forall t | t in s.tasks :: t in s'.tasks && s'.tasks[t].phase == s.tasks[t].phase
  }

  lemma CallConsistentKept(s: State, s': State, c: Call)
    requires TasksAdvance(s, s') && CallConsistent(s, c)
    ensures CallConsistent(s', c)
  {
  }

  lemma NextCallConsistent(s: State, id: CallId, choice: SessionId, s': State)
    requires Consistent(s) && id in s.calls && CallBody(s, id, choice) == Some(s')
    ensures CallConsistent(s', s'.calls[id])
  {
    assert CallConsistent(s, s.calls[id]);
  }

  lemma CallKeepsMaps(s: State, id: CallId, choice: SessionId, s': State)
    requires Consistent(s) && id in s.calls && CallBody(s, id, choice) == Some(s')
    ensures forall t | t in s'.sessions :: OfProfile(s', t, s'.sessions[t])
    ensures forall p | p in s'.index :: OfProfile(s', s'.index[p], p)
  {
    CallKeepsTasks(s, id, choice, s');
    assert CallConsistent(s, s.calls[id]);
  }

  lemma CallKeepsConsistent(s: State, id: CallId, choice: SessionId, s': State)
    requires Consistent(s) && id in s.calls && CallBody(s, id, choice) == Some(s')
    ensures Consistent(s')
  {
    CallAdvances(s, id, choice, s');
    forall other | other in s'.calls ensures CallConsistent(s', s'.calls[other]) {
      if other != id {
        CallConsistentKept(s, s', s.calls[other]);
      } else {
        NextCallConsistent(s, id, choice, s');
      }
    }
    CallKeepsMaps(s, id, choice, s');
  }

  /** A witness in another call, or one this call still is, survives the step. */
  lemma ReachableKept(s: State, id: CallId, s': State, t: SessionId)
    requires t in s.tasks && Reachable(s, t) && TasksAdvance(s, s')
    requires id in s.calls && id in s'.calls
    requires forall other | other in s.calls && other != id :: other in s'.calls && s'.calls[other] == s.calls[other]
    requires t in s.sessions ==> t in s'.sessions || WillCancel(s'.calls[id], t)
    requires WillCancel(s.calls[id], t) ==> WillCancel(s'.calls[id], t) || s'.tasks[t].cancelled
    requires s.calls[id].InsertSession? && s.calls[id].created == t ==> t in s'.sessions
    ensures Reachable(s', t)
  {
    if AboutToCancel(s, t) {
      var w :| w in s.calls && WillCancel(s.calls[w], t);
      if w != id { assert WillCancel(s'.calls[w], t); }
    }
    if BeingInserted(s, t) {
      var w :| w in s.calls && s.calls[w].InsertSession? && s.calls[w].created == t;
      if w != id { assert s'.calls[w].InsertSession? && s'.calls[w].created == t; }
    }
  }

  lemma CallKeepsNoEscape(s: State, id: CallId, choice: SessionId, s': State)
    requires Consistent(s) && NoEscape(s) && id in s.calls && CallBody(s, id, choice) == Some(s')
    ensures NoEscape(s')
  {
    CallAdvances(s, id, choice, s');
    assert CallConsistent(s, s.calls[id]);
    forall t | t in s'.tasks && s'.tasks[t].phase.Running? ensures Reachable(s', t) {
      if t in s.tasks {
        ReachableKept(s, id, s', t);
      } else {
        assert s'.calls[id].InsertSession? && s'.calls[id].created == t;
      }
    }
  }

  lemma TaskKeeps(s: State, t: SessionId, s': State)
    requires Consistent(s) && NoEscape(s) && t in s.tasks && TaskBody(s, t) == Some(s')
    ensures Consistent(s') && NoEscape(s')
  {
    assert TasksAdvance(s, s');
    forall id | id in s'.calls ensures CallConsistent(s', s'.calls[id]) {
      CallConsistentKept(s, s', s.calls[id]);
    }
    forall u | u in s'.tasks && s'.tasks[u].phase.Running? ensures Reachable(s', u) {
      assert Reachable(s, u);
    }
  }

  lemma OtherLockKept(s: State, s': State, a: Actor, b: Actor)
    requires a != b && OthersKept(s, a, s') && LockOf(s, b) != NoLock
    ensures LockOf(s', b) == LockOf(s, b)
  {
  }

  lemma ActKeepsLocks(s: State, a: Actor, choice: SessionId, mid: State, s': State)
    requires LocksMatch(s) && Holds(s, a, LockOf(s, a)) && Body(s, a, choice) == Some(mid)
    requires s' == Release(mid, LockOf(s, a))
    ensures LocksMatch(s')
  {
    BodyKeepsOthers(s, a, choice, mid);
    OwnersAfter(s, a, mid, s');
    if s'.sessionsOwner.Some? { OtherLockKept(s, s', a, s'.sessionsOwner.value); }
    if s'.indexOwner.Some? { OtherLockKept(s, s', a, s'.indexOwner.value); }
  }

  /** What a region leaves to everyone else: their calls, their phases, and the locks. */
  ghost predicate OthersKept(s: State, a: Actor, s': State) {
    match a
    case CallActor(call) =>
      PhasesKept(s, s') && forall id | id in s.calls && id != call :: id in s'.calls && s'.calls[id] == s.calls[id]
    case TaskActor(task) =>
      && s'.calls == s.calls
      && forall t | t in s.tasks && t != task :: t in s'.tasks && s'.tasks[t].phase == s.tasks[t].phase
  }

  lemma BodyKeepsOthers(s: State, a: Actor, choice: SessionId, mid: State)
    requires Body(s, a, choice) == Some(mid)
    ensures OthersKept(s, a, mid) && mid.sessionsOwner == s.sessionsOwner && mid.indexOwner == s.indexOwner
  {
    match a {
      case CallActor(call) => CallAdvances(s, call, choice, mid);
      case TaskActor(task) =>
    }
  }

  /** Afterwards the actor holds nothing, and who held something else before holds it still. */
  lemma OwnersAfter(s: State, a: Actor, mid: State, s': State)
    requires LocksMatch(s) && Holds(s, a, LockOf(s, a)) && s' == Release(mid, LockOf(s, a))
    requires mid.sessionsOwner == s.sessionsOwner && mid.indexOwner == s.indexOwner
    ensures s'.sessionsOwner.Some? ==> s'.sessionsOwner == s.sessionsOwner && s'.sessionsOwner.value != a
    ensures s'.indexOwner.Some? ==> s'.indexOwner == s.indexOwner && s'.indexOwner.value != a
    ensures s'.calls == mid.calls && s'.tasks == mid.tasks
  {
  }

  /** Nothing but the locks' owners differs. */
  predicate LocksOnly(s: State, s': State) {
    s' == s.(sessionsOwner := s'.sessionsOwner, indexOwner := s'.indexOwner)
  }

  lemma LocksOnlyKeeps(s: State, s': State)
    requires Consistent(s) && NoEscape(s) && LocksOnly(s, s')
    ensures Consistent(s') && NoEscape(s')
  {
    forall t | t in s'.tasks && s'.tasks[t].phase.Running? ensures Reachable(s', t) {
      assert Reachable(s, t);
    }
    forall id | id in s'.calls ensures CallConsistent(s', s'.calls[id]) {
      assert CallConsistent(s, s.calls[id]);
    }
  }

  lemma StepKeeps(s: State, action: Action, s': State)
    requires Invariant(s) && Next(s, action) == Some(s')
    ensures Invariant(s')
  {
    match action {
      case Begin(id, first) => BeginKeeps(s, id, first, s');
      case Acquire(a) => AcquireKeeps(s, a, s');
      case Act(a, choice) =>
        var mid := Body(s, a, choice).value;
        ActKeepsLocks(s, a, choice, mid, s');
        if a.CallActor? {
          CallKeepsConsistent(s, a.call, choice, mid);
          CallKeepsNoEscape(s, a.call, choice, mid);
        } else {
          TaskKeeps(s, a.task, mid);
        }
        LocksOnlyKeeps(mid, s');
      case Receive(t) => RuntimeKeeps(s, t, s');
      case Finish(t) => RuntimeKeeps(s, t, s');
    }
  }

  lemma BeginKeeps(s: State, id: CallId, first: Call, s': State)
    requires Invariant(s) && id !in s.calls && Starts(first) && s' == SetCall(s, id, first)
    ensures Invariant(s')
  {
    forall t | t in s'.tasks && s'.tasks[t].phase.Running? ensures Reachable(s', t) {
      assert Reachable(s, t);
      if AboutToCancel(s, t) {
        var w :| w in s.calls && WillCancel(s.calls[w], t);
        assert WillCancel(s'.calls[w], t);
      }
      if BeingInserted(s, t) {
        var w :| w in s.calls && s.calls[w].InsertSession? && s.calls[w].created == t;
        assert s'.calls[w].InsertSession?;
      }
    }
    forall other | other in s'.calls ensures CallConsistent(s', s'.calls[other]) {
      if other != id { assert CallConsistent(s, s.calls[other]); }
    }
  }

  lemma AcquireKeeps(s: State, a: Actor, s': State)
    requires Invariant(s) && Next(s, Acquire(a)) == Some(s')
    ensures Invariant(s')
  {
    LocksOnlyKeeps(s, s');
    AcquiredMatches(s, a, s');
  }

  lemma AcquiredMatches(s: State, a: Actor, s': State)
    requires LocksMatch(s) && Next(s, Acquire(a)) == Some(s')
    ensures LocksMatch(s')
  {
    SameLocks(s, s', a);
    if s.sessionsOwner.Some? { SameLocks(s, s', s.sessionsOwner.value); }
    if s.indexOwner.Some? { SameLocks(s, s', s.indexOwner.value); }
  }

  lemma SameLocks(s: State, s': State, a: Actor)
    requires s'.calls == s.calls && s'.tasks == s.tasks
    ensures LockOf(s', a) == LockOf(s, a)
  {
  }

  lemma RuntimeKeeps(s: State, t: SessionId, s': State)
    requires Invariant(s) && t in s.tasks && s.tasks[t].phase.Running? && t in s'.tasks
    requires s' == s.(tasks := s.tasks[t := s'.tasks[t]]) && s'.tasks[t].profile == s.tasks[t].profile
    requires s'.tasks[t].cancelled == s.tasks[t].cancelled
    ensures Invariant(s')
  {
    assert TasksAdvance(s, s');
    forall id | id in s'.calls ensures CallConsistent(s', s'.calls[id]) {
      CallConsistentKept(s, s', s.calls[id]);
    }
    forall u | u in s'.tasks && s'.tasks[u].phase.Running? ensures Reachable(s', u) {
      assert Reachable(s, u);
    }
  }

  lemma {:induction false} InvariantHolds(states: seq<State>, actions: seq<Action>, k: nat)
    requires Run(states, actions) && k < |states|
    ensures Invariant(states[k])
  {
    if k > 0 {
      InvariantHolds(states, actions, k - 1);
      assert Next(states[k - 1], actions[k - 1]) == Some(states[k - 1 + 1]);
      StepKeeps(states[k - 1], actions[k - 1], states[k]);
    }
  }

  /**
   * Under every interleaving: a runtime that still runs is in `sessions`, or is cancelled, or is about
   * to be cancelled by the call that took it out, or its own connect has not inserted it yet.
   */
  lemma NoRuntimeEscapes(states: seq<State>, actions: seq<Action>, k: nat, t: SessionId)
    requires Run(states, actions) && k < |states|
    requires t in states[k].tasks && states[k].tasks[t].phase.Running?
    requires !BeingInserted(states[k], t)
    ensures t in states[k].sessions || states[k].tasks[t].cancelled || AboutToCancel(states[k], t)
  {
    InvariantHolds(states, actions, k);
    assert Reachable(states[k], t);
  }

  /** What connect returns, new or already there, is a session of the requested profile. */
  lemma ConnectReturnsOwnProfile(states: seq<State>, actions: seq<Action>, k: nat, id: CallId)
    requires Run(states, actions) && k < |states| && id in states[k].calls && states[k].calls[id].Connected?
    ensures OfProfile(states[k], states[k].calls[id].session, states[k].calls[id].profile)
  {
    InvariantHolds(states, actions, k);
    assert CallConsistent(states[k], states[k].calls[id]);
  }

  // ----- What connect returns, and when it starts a runtime -----

  /** The call with this id does its next region at step j. */
  predicate ActsAt(actions: seq<Action>, j: nat, id: CallId) {
    j < |actions| && actions[j].Act? && actions[j].actor == CallActor(id)
  }

  /** A call changes only by a step of its own. */
  lemma OnlyOwnSteps(s: State, action: Action, s': State, id: CallId)
    requires Next(s, action) == Some(s') && id in s.calls
    ensures id in s'.calls
    ensures s'.calls[id] != s.calls[id] ==> action.Act? && action.actor == CallActor(id)
  {
  }

  /** What one region of a connect does, told by what it finds. */
  ghost predicate ConnectRegion(s: State, c: Call, c': Call, s': State) {
    match c
    case CheckIndex(p) => c' == if p in s.index then CheckSession(p, s.index[p]) else Spawn(p)
    case CheckSession(p, e) =>
      if e !in s.sessions then c' == Spawn(p)
      else if e in s.tasks && s.tasks[e].phase.Running? then c' == Connected(p, e) && s'.tasks == s.tasks
      else c' == DropStale(p, e)
    case DropStale(p, e) => c' == DropStaleIndex(p) && e !in s'.sessions
    case DropStaleIndex(p) => c' == Spawn(p) && p !in s'.index
    case Spawn(p) =>
      && c'.InsertSession? && c'.profile == p && c'.created !in s.tasks && c'.created in s'.tasks
      && s'.tasks[c'.created] == Task(p, Running, 0, false)
    case InsertSession(p, n) => c' == InsertIndex(p, n) && n in s'.sessions && s'.sessions[n] == p
    case InsertIndex(p, n) => c' == Connected(p, n) && p in s'.index && s'.index[p] == n
    case _ => true
  }

  lemma ConnectRegions(s: State, id: CallId, choice: SessionId, s': State)
    requires Next(s, Act(CallActor(id), choice)) == Some(s')
    ensures id in s.calls && id in s'.calls && ConnectRegion(s, s.calls[id], s'.calls[id], s')
  {
  }

  /** Over every run: a lookup that finds a live session returns it, and starts nothing. */
  lemma LiveSessionIsReused(states: seq<State>, actions: seq<Action>, k: nat, id: CallId)
    requires Run(states, actions) && ActsAt(actions, k, id)
    requires id in states[k].calls && states[k].calls[id].CheckSession?
    requires var e := states[k].calls[id].existing;
      e in states[k].sessions && e in states[k].tasks && states[k].tasks[e].phase.Running?
    ensures id in states[k + 1].calls
    ensures states[k + 1].calls[id] == Connected(states[k].calls[id].profile, states[k].calls[id].existing)
    ensures states[k + 1].tasks == states[k].tasks
  {
    assert Next(states[k], actions[k]) == Some(states[k + 1]);
    ConnectRegions(states[k], id, actions[k].choice, states[k + 1]);
  }

  /**
   * The connect found no live session at step j: no index entry, no session for it, or one whose channel was
   * closed, and then its entries in both maps were taken out, the index entry at this step.
   */
  ghost predicate MissAt(states: seq<State>, actions: seq<Action>, j: nat, id: CallId, p: ProfileId)
    requires |states| == |actions| + 1 && j < |actions|
  {
    && ActsAt(actions, j, id) && id in states[j].calls
    && match states[j].calls[id]
       case CheckIndex(q) => q == p && p !in states[j].index
       case CheckSession(q, e) => q == p && e !in states[j].sessions
       case DropStaleIndex(q) =>
         q == p && p !in states[j + 1].index && exists i | 0 <= i < j :: StaleAt(states, actions, i, id, p)
       case _ => false
  }

  ghost predicate StaleAt(states: seq<State>, actions: seq<Action>, i: nat, id: CallId, p: ProfileId)
    requires |states| == |actions| + 1 && i < |actions|
  {
    && ActsAt(actions, i, id) && id in states[i].calls && states[i].calls[id].DropStale?
    && states[i].calls[id].profile == p && states[i].calls[id].stale !in states[i + 1].sessions
    && Closed(states[i], states[i].calls[id].stale)
  }

  lemma {:induction false} DroppedStale(states: seq<State>, actions: seq<Action>, k: nat, id: CallId) returns (i: nat)
    requires Run(states, actions) && k < |states| && id in states[k].calls && states[k].calls[id].DropStaleIndex?
    ensures i < k && StaleAt(states, actions, i, id, states[k].calls[id].profile)
  {
    var s, action := states[k - 1], actions[k - 1];
    assert Next(s, action) == Some(states[k - 1 + 1]);
    assert id in s.calls;
    OnlyOwnSteps(s, action, states[k], id);
    if states[k].calls[id] == s.calls[id] {
      i := DroppedStale(states, actions, k - 1, id);
    } else {
      i := k - 1;
      ConnectRegions(s, id, action.choice, states[k]);
      InvariantHolds(states, actions, k - 1);
      assert CallConsistent(s, s.calls[id]);
    }
  }

  /** Over every run: a connect is about to start a runtime only after it found no live session of the profile. */
  lemma {:induction false} SpawnOnlyAfterMiss(states: seq<State>, actions: seq<Action>, k: nat, id: CallId)
    returns (j: nat)
    requires Run(states, actions) && k < |states| && id in states[k].calls && states[k].calls[id].Spawn?
    ensures j < k && MissAt(states, actions, j, id, states[k].calls[id].profile)
  {
    var s, action := states[k - 1], actions[k - 1];
    assert Next(s, action) == Some(states[k - 1 + 1]);
    assert id in s.calls;
    OnlyOwnSteps(s, action, states[k], id);
    if states[k].calls[id] == s.calls[id] {
      j := SpawnOnlyAfterMiss(states, actions, k - 1, id);
    } else {
      j := k - 1;
      ConnectRegions(s, id, action.choice, states[k]);
      if s.calls[id].DropStaleIndex? {
        var i := DroppedStale(states, actions, k - 1, id);
      }
    }
  }

  /** And only such a connect starts one. */
  lemma TasksStartBySpawn(s: State, action: Action, s': State, t: SessionId)
    requires Next(s, action) == Some(s') && t in s'.tasks && t !in s.tasks
    ensures action.Act? && action.actor.CallActor? && action.actor.call in s.calls && s.calls[action.actor.call].Spawn?
    ensures s'.tasks[t] == Task(s.calls[action.actor.call].profile, Running, 0, false)
  {
  }

  /** The connect found this session alive at step j, or put it into both maps, into the index at step j. */
  ghost predicate ObtainedAt(states: seq<State>, actions: seq<Action>, j: nat, id: CallId, p: ProfileId, n: SessionId)
    requires |states| == |actions| + 1 && j < |actions|
  {
    && ActsAt(actions, j, id) && id in states[j].calls
    && match states[j].calls[id]
       case CheckSession(q, e) => q == p && e == n && n in states[j].sessions && !Closed(states[j], n)
       case InsertIndex(q, m) =>
         && q == p && m == n && p in states[j + 1].index && states[j + 1].index[p] == n
         && exists i | 0 <= i < j :: InsertedAt(states, i, p, n)
       case _ => false
  }

  ghost predicate InsertedAt(states: seq<State>, i: nat, p: ProfileId, n: SessionId)
    requires i + 1 < |states|
  {
    n !in states[i].sessions && n in states[i + 1].sessions && states[i + 1].sessions[n] == p
  }

  /** A session that its connect has still to insert is in neither map. */
  lemma {:induction false} NotYetListed(states: seq<State>, actions: seq<Action>, k: nat, id: CallId)
    requires Run(states, actions) && k < |states| && id in states[k].calls && states[k].calls[id].InsertSession?
    ensures states[k].calls[id].created !in states[k].sessions
    ensures forall other | other in states[k].calls && other != id ::
      !(states[k].calls[other].InsertSession? && states[k].calls[other].created == states[k].calls[id].created)
  {
    var s, action := states[k - 1], actions[k - 1];
    assert Next(s, action) == Some(states[k - 1 + 1]);
    assert id in s.calls;
    InvariantHolds(states, actions, k - 1);
    OnlyOwnSteps(s, action, states[k], id);
    if states[k].calls[id] == s.calls[id] {
      NotYetListed(states, actions, k - 1, id);
      StaysUnlisted(s, action, states[k], id);
    } else {
      NewIsUnlisted(s, id, action.choice, states[k]);
    }
  }

  lemma StaysUnlisted(s: State, action: Action, s': State, id: CallId)
    requires Consistent(s) && Next(s, action) == Some(s') && id in s.calls && id in s'.calls
    requires s.calls[id].InsertSession?
    requires s'.calls[id] == s.calls[id] && s.calls[id].created !in s.sessions
    requires forall other | other in s.calls && other != id ::
      !(s.calls[other].InsertSession? && s.calls[other].created == s.calls[id].created)
    ensures s.calls[id].created !in s'.sessions
    ensures forall other | other in s'.calls && other != id ::
      !(s'.calls[other].InsertSession? && s'.calls[other].created == s.calls[id].created)
  {
    assert CallConsistent(s, s.calls[id]);
  }

  lemma NewIsUnlisted(s: State, id: CallId, choice: SessionId, s': State)
    requires Consistent(s) && Next(s, Act(CallActor(id), choice)) == Some(s') && id in s.calls
    requires s'.calls[id].InsertSession?
    ensures s'.calls[id].created !in s'.sessions
    ensures forall other | other in s'.calls && other != id ::
      !(s'.calls[other].InsertSession? && s'.calls[other].created == s'.calls[id].created)
  {
    ConnectRegions(s, id, choice, s');
    assert s.calls[id].Spawn?;
    forall other | other in s'.calls && other != id && s'.calls[other].InsertSession?
      ensures s'.calls[other].created != s'.calls[id].created
    {
      assert CallConsistent(s, s.calls[other]);
    }
  }

  lemma {:induction false} InsertedBefore(states: seq<State>, actions: seq<Action>, k: nat, id: CallId) returns (i: nat)
    requires Run(states, actions) && k < |states| && id in states[k].calls && states[k].calls[id].InsertIndex?
    ensures i < k && InsertedAt(states, i, states[k].calls[id].profile, states[k].calls[id].created)
  {
    var s, action := states[k - 1], actions[k - 1];
    assert Next(s, action) == Some(states[k - 1 + 1]);
    assert id in s.calls;
    OnlyOwnSteps(s, action, states[k], id);
    if states[k].calls[id] == s.calls[id] {
      i := InsertedBefore(states, actions, k - 1, id);
    } else {
      i := k - 1;
      ConnectRegions(s, id, action.choice, states[k]);
      NotYetListed(states, actions, k - 1, id);
    }
  }

  /** Over every run: what connect returned it had found alive, or had put into both maps. */
  lemma {:induction false} ConnectedWasObtained(states: seq<State>, actions: seq<Action>, k: nat, id: CallId)
    returns (j: nat)
    requires Run(states, actions) && k < |states| && id in states[k].calls && states[k].calls[id].Connected?
    ensures j < k && ObtainedAt(states, actions, j, id, states[k].calls[id].profile, states[k].calls[id].session)
  {
    var s, action := states[k - 1], actions[k - 1];
    assert Next(s, action) == Some(states[k - 1 + 1]);
    assert id in s.calls;
    OnlyOwnSteps(s, action, states[k], id);
    if states[k].calls[id] == s.calls[id] {
      j := ConnectedWasObtained(states, actions, k - 1, id);
    } else {
      j := k - 1;
      ConnectRegions(s, id, action.choice, states[k]);
      if s.calls[id].InsertIndex? {
        var i := InsertedBefore(states, actions, k - 1, id);
      }
    }
  }

  // ----- What a disconnect leaves behind -----

  /** What one region of a disconnect does. */
  ghost predicate DisconnectRegion(s: State, c: Call, c': Call, s': State) {
    match c
    case TakeOne(t) => t !in s'.sessions && c' == if t in s.sessions then CancelOne(t) else Returned
    case CancelOne(t) => c' == SendOne(t) && (t in s.tasks ==> t in s'.tasks && s'.tasks[t].cancelled)
    case SendOne(t) =>
      && c' == UnindexOne(t)
      && (t in s.tasks && s.tasks[t].phase.Running? ==>
            s.tasks[t].queued < CAPACITY && t in s'.tasks && s'.tasks[t].queued == s.tasks[t].queued + 1)
    case UnindexOne(t) => c' == Returned && (t in s.tasks ==> s.tasks[t].profile !in s'.index)
    case TakeAll => c' == CancelNext(s.sessions.Keys) && s'.sessions == map[]
    case CancelNext(todo) =>
      if todo == {} then c' == ClearIndex
      else
        && c'.SendNext? && c'.target in todo && c'.todo == todo - {c'.target}
        && (c'.target in s.tasks ==> c'.target in s'.tasks && s'.tasks[c'.target].cancelled)
    case SendNext(t, todo) =>
      && c' == CancelNext(todo)
      && (t in s.tasks && s.tasks[t].phase.Running? ==>
            s.tasks[t].queued < CAPACITY && t in s'.tasks && s'.tasks[t].queued == s.tasks[t].queued + 1)
    case ClearIndex => c' == Returned && s'.index == map[]
    case SendInput(t) =>
      && c' == Returned
      && (t in s.sessions && t in s.tasks && s.tasks[t].phase.Running? ==>
            s.tasks[t].queued < CAPACITY && t in s'.tasks && s'.tasks[t].queued == s.tasks[t].queued + 1)
    case _ => true
  }

  lemma DisconnectRegions(s: State, id: CallId, choice: SessionId, s': State)
    requires Next(s, Act(CallActor(id), choice)) == Some(s')
    ensures id in s.calls && id in s'.calls && DisconnectRegion(s, s.calls[id], s'.calls[id], s')
  {
  }

  /** A runtime that receives takes one command off its channel, which has 32 slots. */
  lemma ReceiveTakesOne(s: State, t: SessionId)
    requires t in s.tasks && s.tasks[t].phase.Running?
    ensures s.tasks[t].queued > 0 ==>
      Next(s, Receive(t)) == Some(s.(tasks := s.tasks[t := s.tasks[t].(queued := s.tasks[t].queued - 1)]))
    ensures CanSend(s, t) <==> s.tasks[t].queued < 32
  {
  }

  /** No channel ever holds more than its slots. */
  lemma {:induction false} ChannelsFit(states: seq<State>, actions: seq<Action>, k: nat, t: SessionId)
    requires Run(states, actions) && k < |states| && t in states[k].tasks
    ensures states[k].tasks[t].queued <= CAPACITY
  {
    if k > 0 {
      assert Next(states[k - 1], actions[k - 1]) == Some(states[k - 1 + 1]);
      if t in states[k - 1].tasks {
        ChannelsFit(states, actions, k - 1, t);
        FitsAfter(states[k - 1], actions[k - 1], states[k], t);
      } else {
        TasksStartBySpawn(states[k - 1], actions[k - 1], states[k], t);
      }
    }
  }

  lemma FitsAfter(s: State, action: Action, s': State, t: SessionId)
    requires Next(s, action) == Some(s') && t in s.tasks && s.tasks[t].queued <= CAPACITY
    ensures t in s'.tasks && s'.tasks[t].queued <= CAPACITY
  {
  }

  lemma StepAdvances(s: State, action: Action, s': State)
    requires Next(s, action) == Some(s')
    ensures TasksAdvance(s, s')
  {
    if action.Act? && action.actor.CallActor? {
      var id := action.actor.call;
      CallKeepsTasks(s, id, action.choice, CallBody(s, id, action.choice).value);
    }
  }

  predicate IsCancelled(s: State, t: SessionId) {
    t in s.tasks && s.tasks[t].cancelled
  }

  /** Since it took the session out at step j, the disconnect has got this far. */
  ghost predicate OneSoFar(states: seq<State>, j: nat, k: nat, id: CallId, t: SessionId)
    requires j < k < |states| && id in states[k].calls
  {
    match states[k].calls[id]
    case CancelOne(u) => u == t && t in states[k].tasks
    case SendOne(u) => u == t && IsCancelled(states[k], t)
    case UnindexOne(u) => u == t && IsCancelled(states[k], t)
    case Returned =>
      && IsCancelled(states[k], t)
      && exists i | j < i < k :: t in states[i].tasks && states[i].tasks[t].profile !in states[i + 1].index
    case _ => false
  }

  lemma {:induction false} OneGoesOn(states: seq<State>, actions: seq<Action>, j: nat, k: nat, id: CallId, t: SessionId)
    requires Run(states, actions) && ActsAt(actions, j, id) && j < k < |states|
    requires id in states[j].calls && states[j].calls[id] == TakeOne(t) && t in states[j].sessions
    ensures id in states[k].calls && OneSoFar(states, j, k, id, t)
  {
    var s, action := states[k - 1], actions[k - 1];
    assert Next(s, action) == Some(states[k - 1 + 1]);
    StepAdvances(s, action, states[k]);
    if k == j + 1 {
      InvariantHolds(states, actions, j);
      DisconnectRegions(s, id, action.choice, states[k]);
      assert OfProfile(s, t, s.sessions[t]);
    } else {
      OneGoesOn(states, actions, j, k - 1, id, t);
      OnlyOwnSteps(s, action, states[k], id);
      if states[k].calls[id] != s.calls[id] {
        DisconnectRegions(s, id, action.choice, states[k]);
        assert s.calls[id].UnindexOne? ==> s.tasks[t].profile !in states[k - 1 + 1].index;
      }
    }
  }

  /**
   * Over every run: when a disconnect that found its session returns, the session was taken out of the map, its
   * runtime is cancelled, and the index entry of its profile was taken out after that.
   */
  lemma DisconnectDoesAll(states: seq<State>, actions: seq<Action>, j: nat, k: nat, id: CallId, t: SessionId)
    requires Run(states, actions) && ActsAt(actions, j, id) && j < k < |states|
    requires id in states[j].calls && states[j].calls[id] == TakeOne(t) && t in states[j].sessions
    requires id in states[k].calls && states[k].calls[id].Returned?
    ensures t !in states[j + 1].sessions && IsCancelled(states[k], t)
    ensures exists i | j < i < k :: t in states[i].tasks && states[i].tasks[t].profile !in states[i + 1].index
  {
    assert Next(states[j], actions[j]) == Some(states[j + 1]);
    DisconnectRegions(states[j], id, actions[j].choice, states[j + 1]);
    OneGoesOn(states, actions, j, k, id, t);
  }

  ghost predicate AllCancelled(s: State, ts: set<SessionId>) {
    forall t | t in ts :: IsCancelled(s, t)
  }

  lemma CancelledStays(s: State, s': State, ts: set<SessionId>)
    requires TasksAdvance(s, s') && AllCancelled(s, ts)
    ensures AllCancelled(s', ts)
  {
    forall t | t in ts ensures IsCancelled(s', t) { assert IsCancelled(s, t); }
  }

  /** Since it drained the map, disconnect_all has got this far; `cleared`: the index has been emptied since. */
  ghost predicate AllSoFar(s: State, c: Call, all: set<SessionId>, cleared: bool) {
    && (forall t | t in all :: t in s.tasks)
    && match c
       case CancelNext(todo) => todo <= all && AllCancelled(s, all - todo)
       case SendNext(_, todo) => todo <= all && AllCancelled(s, all - todo)
       case ClearIndex => AllCancelled(s, all)
       case Returned => AllCancelled(s, all) && cleared
       case _ => false
  }

  lemma AllStep(s: State, c: Call, c': Call, s': State, all: set<SessionId>, cleared: bool)
    requires AllSoFar(s, c, all, cleared) && TasksAdvance(s, s') && (c' == c || DisconnectRegion(s, c, c', s'))
    requires c.Returned? ==> c' == c
    ensures AllSoFar(s', c', all, cleared || s'.index == map[])
  {
    match c {
      case CancelNext(todo) =>
        CancelledStays(s, s', all - todo);
        if c' != c {
          if todo == {} {
            assert all - todo == all;
          } else {
            assert all - c'.todo == (all - todo) + {c'.target};
          }
        }
      case SendNext(_, todo) => CancelledStays(s, s', all - todo);
      case ClearIndex => CancelledStays(s, s', all);
      case Returned => CancelledStays(s, s', all);
    }
  }

  /** The index was emptied at some step of these. */
  ghost predicate ClearedIn(states: seq<State>, j: nat, k: nat)
    requires k < |states|
  {
    exists i | j < i <= k :: IndexEmpty(states[i])
  }

  predicate IndexEmpty(s: State) {
    s.index == map[]
  }

  lemma {:induction false} AllGoesOn(states: seq<State>, actions: seq<Action>, j: nat, k: nat, id: CallId)
    requires Run(states, actions) && ActsAt(actions, j, id) && j < k < |states|
    requires id in states[j].calls && states[j].calls[id].TakeAll?
    ensures id in states[k].calls
    ensures AllSoFar(states[k], states[k].calls[id], states[j].sessions.Keys, ClearedIn(states, j, k))
  {
    var s, action, all := states[k - 1], actions[k - 1], states[j].sessions.Keys;
    assert Next(s, action) == Some(states[k - 1 + 1]);
    StepAdvances(s, action, states[k]);
    if k == j + 1 {
      InvariantHolds(states, actions, j);
      DisconnectRegions(s, id, action.choice, states[k]);
      forall t | t in all ensures t in states[k].tasks { assert OfProfile(s, t, s.sessions[t]); }
      assert all - all == {};
    } else {
      AllGoesOn(states, actions, j, k - 1, id);
      OnlyOwnSteps(s, action, states[k], id);
      if states[k].calls[id] != s.calls[id] { DisconnectRegions(s, id, action.choice, states[k]); }
      NothingAfterReturn(s, action, states[k], id);
      AllStep(s, s.calls[id], states[k].calls[id], states[k], all, ClearedIn(states, j, k - 1));
      assert states[k].index == map[] ==> IndexEmpty(states[k]);
    }
  }

  lemma NothingAfterReturn(s: State, action: Action, s': State, id: CallId)
    requires Next(s, action) == Some(s') && id in s.calls
    ensures id in s'.calls && (s.calls[id].Returned? ==> s'.calls[id].Returned?)
  {
  }

  /** Over every run: when disconnect_all returns, every session it found is cancelled, and both maps were emptied. */
  lemma DisconnectAllDoesAll(states: seq<State>, actions: seq<Action>, j: nat, k: nat, id: CallId)
    requires Run(states, actions) && ActsAt(actions, j, id) && j < k < |states|
    requires id in states[j].calls && states[j].calls[id].TakeAll?
    requires id in states[k].calls && states[k].calls[id].Returned?
    ensures states[j + 1].sessions == map[] && ClearedIn(states, j, k)
    ensures AllCancelled(states[k], states[j].sessions.Keys)
  {
    assert Next(states[j], actions[j]) == Some(states[j + 1]);
    DisconnectRegions(states[j], id, actions[j].choice, states[j + 1]);
    AllGoesOn(states, actions, j, k, id);
  }

  /** A runtime that is gone has taken itself out of the map, and the index entry of its profile after that. */
  lemma {:induction false} GoneHasLeft(states: seq<State>, actions: seq<Action>, k: nat, t: SessionId)
    returns (i: nat, j: nat)
    requires Run(states, actions) && k < |states| && t in states[k].tasks && states[k].tasks[t].phase.Gone?
    ensures i < j < k && t !in states[i + 1].sessions && states[k].tasks[t].profile !in states[j + 1].index
  {
    var s, action := states[k - 1], actions[k - 1];
    assert Next(s, action) == Some(states[k - 1 + 1]);
    TaskStays(s, action, states[k], t);
    if s.tasks[t].phase.Gone? {
      i, j := GoneHasLeft(states, actions, k - 1, t);
    } else {
      j := k - 1;
      i := RemovedItself(states, actions, k - 1, t);
    }
  }

  lemma TaskStays(s: State, action: Action, s': State, t: SessionId)
    requires Next(s, action) == Some(s') && t in s'.tasks && !s'.tasks[t].phase.Running?
    ensures t in s.tasks && s'.tasks[t].profile == s.tasks[t].profile
    ensures s'.tasks[t].phase.Gone? ==>
      s.tasks[t].phase.Gone? || (s.tasks[t].phase.RemoveIndex? && s.tasks[t].profile !in s'.index)
    ensures s'.tasks[t].phase.RemoveIndex? ==>
      s.tasks[t].phase.RemoveIndex? || (s.tasks[t].phase.RemoveSession? && t !in s'.sessions)
  {
  }

  lemma {:induction false} RemovedItself(states: seq<State>, actions: seq<Action>, k: nat, t: SessionId)
    returns (i: nat)
    requires Run(states, actions) && k < |states| && t in states[k].tasks && states[k].tasks[t].phase.RemoveIndex?
    ensures i < k && t !in states[i + 1].sessions
  {
    var s, action := states[k - 1], actions[k - 1];
    assert Next(s, action) == Some(states[k - 1 + 1]);
    TaskStays(s, action, states[k], t);
    if s.tasks[t].phase.RemoveIndex? { i := RemovedItself(states, actions, k - 1, t); } else { i := k - 1; }
  }

  // ----- Whose entries a step may touch -----

  /**
   * A region that may change the index entry of profile p: of a call or a task of that profile, or the clearing of all.
   */
  predicate TouchesIndex(s: State, a: Actor, p: ProfileId) {
    match a
    case CallActor(id) =>
      id in s.calls
      && (match s.calls[id]
          case DropStaleIndex(q) => q == p
          case InsertIndex(q, _) => q == p
          case UnindexOne(t) => OfProfile(s, t, p)
          case ClearIndex => true
          case _ => false)
    case TaskActor(t) => OfProfile(s, t, p)
  }

  /** No call and no task of another profile changes the index entry of a profile. */
  lemma OtherEntriesStay(s: State, action: Action, s': State, p: ProfileId)
    requires Next(s, action) == Some(s') && !(action.Act? && TouchesIndex(s, action.actor, p))
    ensures p in s'.index <==> p in s.index
    ensures p in s.index ==> s'.index[p] == s.index[p]
  {
    if action.Act? { BodyKeepsEntry(s, action.actor, action.choice, Body(s, action.actor, action.choice).value, p); }
  }

  lemma BodyKeepsEntry(s: State, a: Actor, choice: SessionId, s': State, p: ProfileId)
    requires Body(s, a, choice) == Some(s') && !TouchesIndex(s, a, p)
    ensures p in s'.index <==> p in s.index
    ensures p in s.index ==> s'.index[p] == s.index[p]
  {
  }

  /** A region that may change the entry of session t. */
  predicate TouchesSession(s: State, a: Actor, t: SessionId) {
    match a
    case CallActor(id) =>
      id in s.calls
      && (match s.calls[id]
          case DropStale(_, e) => e == t
          case InsertSession(_, n) => n == t
          case TakeOne(u) => u == t
          case TakeAll => true
          case _ => false)
    case TaskActor(u) => u == t
  }

  lemma OtherSessionsStay(s: State, action: Action, s': State, t: SessionId)
    requires Next(s, action) == Some(s') && !(action.Act? && TouchesSession(s, action.actor, t))
    ensures t in s'.sessions <==> t in s.sessions
    ensures t in s.sessions ==> s'.sessions[t] == s.sessions[t]
  {
  }

  /** A runtime is cancelled only by a disconnect of its own session or by disconnect_all. */
  lemma OnlyItsOwnIsCancelled(s: State, action: Action, s': State, t: SessionId)
    requires Next(s, action) == Some(s') && IsCancelled(s', t) && !IsCancelled(s, t)
    ensures action.Act? && action.actor.CallActor? && action.actor.call in s.calls
    ensures WillCancel(s.calls[action.actor.call], t)
  {
    if action.Act? { BodyCancels(s, action.actor, action.choice, Body(s, action.actor, action.choice).value, t); }
  }

  lemma BodyCancels(s: State, a: Actor, choice: SessionId, s': State, t: SessionId)
    requires Body(s, a, choice) == Some(s') && IsCancelled(s', t) && !IsCancelled(s, t)
    ensures a.CallActor? && a.call in s.calls && WillCancel(s.calls[a.call], t)
  {
  }

  // ----- What the locks protect -----

  /** Whoever does not own the index lock neither reads nor changes the index, whatever is in it. */
  lemma IndexUnderItsLock(s: State, action: Action, index: map<ProfileId, SessionId>)
    requires action.Act? ==> s.indexOwner != Some(action.actor)
    ensures match Next(s, action)
            case None => Next(s.(index := index), action) == None
            case Some(s') => s'.index == s.index && Next(s.(index := index), action) == Some(s'.(index := index))
  {
    if action.Act? && LockOf(s, action.actor) != IndexLock {
      BodyWithoutIndex(s, action.actor, action.choice, index);
    }
  }

  lemma BodyWithoutIndex(s: State, a: Actor, choice: SessionId, index: map<ProfileId, SessionId>)
    requires LockOf(s, a) != IndexLock
    ensures match Body(s, a, choice)
            case None => Body(s.(index := index), a, choice) == None
            case Some(s') => s'.index == s.index && Body(s.(index := index), a, choice) == Some(s'.(index := index))
  {
  }

  /** And the same of the session map. */
  lemma SessionsUnderItsLock(s: State, action: Action, sessions: map<SessionId, ProfileId>)
    requires action.Act? ==> s.sessionsOwner != Some(action.actor)
    ensures match Next(s, action)
            case None => Next(s.(sessions := sessions), action) == None
            case Some(s') =>
              s'.sessions == s.sessions && Next(s.(sessions := sessions), action) == Some(s'.(sessions := sessions))
  {
    if action.Act? && LockOf(s, action.actor) != SessionsLock {
      BodyWithoutSessions(s, action.actor, action.choice, sessions);
    }
  }

  lemma BodyWithoutSessions(s: State, a: Actor, choice: SessionId, sessions: map<SessionId, ProfileId>)
    requires LockOf(s, a) != SessionsLock
    ensures match Body(s, a, choice)
            case None => Body(s.(sessions := sessions), a, choice) == None
            case Some(s') =>
              s'.sessions == s.sessions && Body(s.(sessions := sessions), a, choice) == Some(s'.(sessions := sessions))
  {
  }

  /** The owner after this step: as before, or the actor that found the lock free, or none once the owner has acted. */
  predicate HandedOver(before: Option<Actor>, action: Action, after: Option<Actor>) {
    match before
    case None => after == None || action == Acquire(after.value)
    case Some(a) => if action.Act? && action.actor == a then after == None else after == before
  }

  /** Over every run a lock is taken only while it is free, kept until its owner has acted, and then free again. */
  lemma LocksAreKept(states: seq<State>, actions: seq<Action>, k: nat)
    requires Run(states, actions) && k < |actions|
    ensures HandedOver(states[k].sessionsOwner, actions[k], states[k + 1].sessionsOwner)
    ensures HandedOver(states[k].indexOwner, actions[k], states[k + 1].indexOwner)
  {
    assert Next(states[k], actions[k]) == Some(states[k + 1]);
    InvariantHolds(states, actions, k);
    StepHandsOver(states[k], actions[k], states[k + 1]);
  }

  lemma StepHandsOver(s: State, action: Action, s': State)
    requires LocksMatch(s) && Next(s, action) == Some(s')
    ensures HandedOver(s.sessionsOwner, action, s'.sessionsOwner) && HandedOver(s.indexOwner, action, s'.indexOwner)
  {
  }

  // ----- No cyclic wait -----

  /** `a` cannot go on before `b` does something. */
  predicate Waits(s: State, a: Actor, b: Actor) {
    match LockOf(s, a)
    case SessionsLock =>
      if s.sessionsOwner == Some(a) then WaitsForSlot(s, a, b) else s.sessionsOwner == Some(b)
    case IndexLock => s.indexOwner != Some(a) && s.indexOwner == Some(b)
    case NoLock => WaitsForSlot(s, a, b)
  }

  /** `a` has a command for a full channel, and `b` is the running task that drains it. */
  predicate WaitsForSlot(s: State, a: Actor, b: Actor) {
    a.CallActor? && a.call in s.calls && b.TaskActor?
    && var c := s.calls[a.call];
      (c.SendOne? || c.SendNext? || (c.SendInput? && c.target in s.sessions))
      && c.target == b.task && !CanSend(s, b.task)
  }

  /** 0: runs without waiting for anyone here; 1: may wait for a runtime; 2: may wait for a lock. */
  function Rank(s: State, a: Actor): nat {
    match LockOf(s, a)
    case SessionsLock => if s.sessionsOwner == Some(a) then 1 else 2
    case IndexLock => if s.indexOwner == Some(a) then 0 else 2
    case NoLock => if a.CallActor? then 1 else 0
  }

  /** Every wait goes to an actor of lower rank, in every reachable state. */
  lemma WaitsGoDown(states: seq<State>, actions: seq<Action>, k: nat, a: Actor, b: Actor)
    requires Run(states, actions) && k < |states| && Waits(states[k], a, b)
    ensures Rank(states[k], b) < Rank(states[k], a)
  {
    InvariantHolds(states, actions, k);
  }

  ghost predicate WaitPath(s: State, path: seq<Actor>) {
    forall i | 0 <= i < |path| - 1 :: Waits(s, path[i], path[i + 1])
  }

  lemma {:induction false} PathDescends(states: seq<State>, actions: seq<Action>, k: nat, path: seq<Actor>, i: nat)
    requires Run(states, actions) && k < |states| && WaitPath(states[k], path) && i < |path|
    ensures i + Rank(states[k], path[i]) <= Rank(states[k], path[0])
  {
    if i > 0 {
      PathDescends(states, actions, k, path, i - 1);
      assert Waits(states[k], path[i - 1], path[i - 1 + 1]);
      WaitsGoDown(states, actions, k, path[i - 1], path[i]);
    }
  }

  /** No cyclic wait: a chain of waits has at most three actors and never returns to its start. */
  lemma NoCyclicWait(states: seq<State>, actions: seq<Action>, k: nat, path: seq<Actor>)
    requires Run(states, actions) && k < |states| && WaitPath(states[k], path) && |path| > 1
    ensures |path| <= 3 && path[|path| - 1] != path[0]
  {
    PathDescends(states, actions, k, path, |path| - 1);
  }

  /** No actor holds both locks. */
  lemma NeverBothLocks(states: seq<State>, actions: seq<Action>, k: nat, a: Actor)
    requires Run(states, actions) && k < |states|
    ensures !(states[k].sessionsOwner == Some(a) && states[k].indexOwner == Some(a))
  {
    InvariantHolds(states, actions, k);
  }

  predicate Finished(s: State, a: Actor) {
    match a
    case CallActor(id) => id !in s.calls || s.calls[id].Connected? || s.calls[id].Returned?
    case TaskActor(t) => t !in s.tasks || s.tasks[t].phase.Gone?
  }

  /** Nothing is stuck: whoever is not finished can take a step, or waits for someone. */
  lemma StepOrWait(states: seq<State>, actions: seq<Action>, k: nat, a: Actor)
    requires Run(states, actions) && k < |states| && !Finished(states[k], a)
    ensures || (exists action :: Next(states[k], action).Some? && Moves(action, a))
            || (exists b :: Waits(states[k], a, b))
  {
    var s := states[k];
    InvariantHolds(states, actions, k);
    match LockOf(s, a) {
      case SessionsLock =>
        if s.sessionsOwner == Some(a) {
          CanAct(s, a);
          if b :| WaitsForSlot(s, a, b) { assert Waits(s, a, b); }
        } else if s.sessionsOwner.None? {
          assert Next(s, Acquire(a)).Some? && Moves(Acquire(a), a);
        } else {
          assert Waits(s, a, s.sessionsOwner.value);
        }
      case IndexLock =>
        if s.indexOwner == Some(a) {
          CanAct(s, a);
          assert !exists b :: WaitsForSlot(s, a, b);
        } else if s.indexOwner.None? {
          assert Next(s, Acquire(a)).Some? && Moves(Acquire(a), a);
        } else {
          assert Waits(s, a, s.indexOwner.value);
        }
      case NoLock =>
        CanAct(s, a);
        if b :| WaitsForSlot(s, a, b) { assert Waits(s, a, b); }
    }
  }

  /** Whoever is waited for is not finished either. */
  lemma WaitedForIsUnfinished(s: State, a: Actor, b: Actor)
    requires LocksMatch(s) && Waits(s, a, b)
    ensures !Finished(s, b)
  {
  }

  /** A running task with nothing to receive: it waits for the outside world. */
  predicate Resting(s: State, a: Actor) {
    a.TaskActor? && a.task in s.tasks && s.tasks[a.task].phase.Running? && s.tasks[a.task].queued == 0
  }

  /** A running task that someone waits for has something to receive. */
  lemma WaitedForIsBusy(s: State, a: Actor, b: Actor)
    requires LocksMatch(s) && Waits(s, a, b)
    ensures !Resting(s, b)
  {
  }

  /**
   * No deadlock: whoever is neither finished nor at rest is at the head of a chain of waits whose last actor can
   * move now, and not just by ending a runtime.
   */
  lemma {:induction false} NoDeadlock(states: seq<State>, actions: seq<Action>, k: nat, a: Actor)
    returns (path: seq<Actor>, action: Action)
    requires Run(states, actions) && k < |states| && !Finished(states[k], a) && !Resting(states[k], a)
    ensures path != [] && path[0] == a && WaitPath(states[k], path)
    ensures Moves(action, path[|path| - 1]) && Next(states[k], action).Some? && !action.Finish?
    decreases Rank(states[k], a)
  {
    var s := states[k];
    StepOrWait(states, actions, k, a);
    if a.TaskActor? && s.tasks[a.task].phase.Running? {
      path, action := [a], Receive(a.task);
    } else if step :| Next(s, step).Some? && Moves(step, a) {
      path, action := [a], step;
    } else {
      var b :| Waits(s, a, b);
      InvariantHolds(states, actions, k);
      WaitedForIsUnfinished(s, a, b);
      WaitedForIsBusy(s, a, b);
      WaitsGoDown(states, actions, k, a, b);
      var rest;
      rest, action := NoDeadlock(states, actions, k, b);
      path := [a] + rest;
    }
  }

  predicate Moves(action: Action, a: Actor) {
    match action
    case Begin(_, _) => false
    case Acquire(b) => a == b
    case Act(b, _) => a == b
    case Receive(t) => a == TaskActor(t)
    case Finish(t) => a == TaskActor(t)
  }

  lemma CanAct(s: State, a: Actor)
    requires !Finished(s, a) && Holds(s, a, LockOf(s, a))
    ensures || (exists action :: Next(s, action).Some? && Moves(action, a))
            || (exists b :: WaitsForSlot(s, a, b))
  {
    if a.TaskActor? {
      if s.tasks[a.task].phase.Running? {
        assert Next(s, Finish(a.task)).Some? && Moves(Finish(a.task), a);
      } else {
        assert Next(s, Act(a, 0)).Some? && Moves(Act(a, 0), a);
      }
    } else {
      var c := s.calls[a.call];
      var choice :=
        if c.Spawn? then Unused(s.tasks.Keys)
        else if c.CancelNext? && c.todo != {} then Pick(c.todo)
        else 0;
      if CallBody(s, a.call, choice).Some? {
        assert Next(s, Act(a, choice)).Some? && Moves(Act(a, choice), a);
      } else {
        assert WaitsForSlot(s, a, TaskActor(c.target));
      }
    }
  }

  ghost function Pick(todo: set<SessionId>): (r: SessionId)
    requires todo != {}
    ensures r in todo
  {
    var t :| t in todo; t
  }

  ghost function Unused(used: set<SessionId>): (r: SessionId)
    ensures r !in used
  {
    SomeAbove(used);
    var r :| Above(used, r); r
  }

  predicate Above(used: set<SessionId>, r: SessionId) {
    forall t | t in used :: t < r
  }

  lemma {:induction false} SomeAbove(used: set<SessionId>)
    ensures exists r: SessionId :: Above(used, r)
    decreases used
  {
    if used == {} {
      assert Above(used, 0);
    } else {
      var u :| u in used;
      SomeAbove(used - {u});
      var r :| Above(used - {u}, r);
      var more := if u < r then r else u + 1;
      forall t | t in used ensures t < more { assert t == u || t in used - {u}; }
      assert Above(used, more);
    }
  }
}
