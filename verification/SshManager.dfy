/**
 * The SSH session manager as a transition system: connects, the spawned runtimes, their exec workers
 * and exec callers interleave in any order. Events are the shared status and error streams.
 */
module SshManager {
  import opened Basics

  type SessionId = nat
  type CallId = nat

  const COMMAND_SLOTS := 512
  const EXEC_SLOTS := 64

  datatype Command = Plain | Exec(call: CallId) | Disconnect

  /** Inserted and Announced belong to connect; then the runtime runs, ends, and is cleaned up. */
  datatype Phase =
    | Inserted | Announced
    | Connecting | Looping | Forwarding(call: CallId)
    | Stopped | Failed | ErrorSent
    | Removed(ok: bool) | Done(ok: bool)

  datatype Worker = NoWorker | Working(queue: seq<CallId>, current: Option<CallId>) | WorkerEnded

  datatype Session = Session(phase: Phase, connected: bool, queue: seq<Command>, worker: Worker)

  datatype Answer = Replied | SessionNotFound

  datatype Caller = Found(session: SessionId) | Waiting(session: SessionId) | Answered(answer: Answer)

  datatype Kind = ConnectingStatus | ConnectedStatus | DisconnectedStatus | ErrorStatus | ErrorEvent

  datatype Event = Event(session: SessionId, kind: Kind)

  datatype State = State(
    listed: set<SessionId>,            // keys of the sessions map
    sessions: map<SessionId, Session>, // every session ever started
    callers: map<CallId, Caller>,
    events: seq<Event>)

  datatype Action =
    | Connect(id: SessionId) | Announce(id: SessionId) | Spawn(id: SessionId)
    | Establish(id: SessionId) | Break(id: SessionId)
    | Receive(id: SessionId) | ServerCloses(id: SessionId) | Forward(id: SessionId)
    | SendError(id: SessionId) | Unlist(id: SessionId) | EmitFinal(id: SessionId)
    | WorkerTakes(id: SessionId) | WorkerAnswers(id: SessionId) | WorkerEnds(id: SessionId)
    | SendPlain(id: SessionId, command: Command)
    | ExecLooksUp(call: CallId, id: SessionId) | ExecSends(call: CallId)

  /** The runtime still owns its command receiver. */
  predicate Receiving(p: Phase) {
    p.Inserted? || p.Announced? || p.Connecting? || p.Looping? || p.Forwarding?
  }

  function Put(s: State, id: SessionId, x: Session): State {
    s.(sessions := s.sessions[id := x])
  }

  /** Dropping the receiver drops the queued requests' answer channels: their callers get an error. */
  function DropQueue(callers: map<CallId, Caller>, queue: seq<Command>): map<CallId, Caller> {
    map c | c in callers :: if callers[c].Waiting? && Exec(c) in queue then Answered(SessionNotFound) else callers[c]
  }

  /** What a step makes of the session, or None when the step is not possible now. */
  function SessionAfter(x: Session, action: Action): Option<Session> {
    match action
    case Announce(_) => if x.phase.Inserted? then Some(x.(phase := Announced)) else None
    case Spawn(_) => if x.phase.Announced? then Some(x.(phase := Connecting)) else None
    case Establish(_) =>
      if x.phase.Connecting? then Some(x.(phase := Looping, connected := true, worker := Working([], None))) else None
    case Break(_) => if x.phase.Connecting? || x.phase.Looping? then Some(x.(phase := Failed, queue := [])) else None
    case Receive(_) =>
      if !x.phase.Looping? || x.queue == [] then None
      else
        (match x.queue[0]
         case Plain => Some(x.(queue := x.queue[1..]))
         case Exec(c) => Some(x.(queue := x.queue[1..], phase := Forwarding(c)))
         case Disconnect => Some(x.(queue := [], phase := Stopped)))
    case ServerCloses(_) => if x.phase.Looping? then Some(x.(phase := Stopped, queue := [])) else None
    case Forward(_) =>
      if x.phase.Forwarding? && x.worker.Working? && |x.worker.queue| < EXEC_SLOTS
      then Some(x.(phase := Looping, worker := x.worker.(queue := x.worker.queue + [x.phase.call])))
      else None
    case SendError(_) => if x.phase.Failed? then Some(x.(phase := ErrorSent)) else None
    case Unlist(_) =>
      if x.phase.Stopped? || x.phase.ErrorSent? then Some(x.(phase := Removed(x.phase.Stopped?))) else None
    case EmitFinal(_) => if x.phase.Removed? then Some(x.(phase := Done(x.phase.ok))) else None
    case WorkerTakes(_) =>
      if x.worker.Working? && x.worker.current.None? && x.worker.queue != []
      then Some(x.(worker := Working(x.worker.queue[1..], Some(x.worker.queue[0]))))
      else None
    case WorkerAnswers(_) =>
      if x.worker.Working? && x.worker.current.Some? then Some(x.(worker := Working(x.worker.queue, None))) else None
    case WorkerEnds(_) =>
      if x.worker.Working? && x.worker.current.None? && x.worker.queue == [] && !Receiving(x.phase)
      then Some(x.(worker := WorkerEnded))
      else None
    case SendPlain(_, c) =>
      if Receiving(x.phase) && !c.Exec? && |x.queue| < COMMAND_SLOTS then Some(x.(queue := x.queue + [c])) else None
    case _ => None
  }

  /** The event a step reports, if any. */
  function Emitted(x: Session, action: Action): Option<Kind> {
    match action
    case Announce(_) => Some(ConnectingStatus)
    case Establish(_) => Some(ConnectedStatus)
    case SendError(_) => Some(ErrorEvent)
    case EmitFinal(_) => Some(if x.phase.Removed? && x.phase.ok then DisconnectedStatus else ErrorStatus)
    case _ => None
  }

  function CallersAfter(callers: map<CallId, Caller>, x: Session, action: Action): map<CallId, Caller> {
    match action
    case Break(_) => DropQueue(callers, x.queue)
    case ServerCloses(_) => DropQueue(callers, x.queue)
    case Receive(_) => if x.queue != [] && x.queue[0].Disconnect? then DropQueue(callers, x.queue) else callers
    case WorkerAnswers(_) =>
      if x.worker.Working? && x.worker.current.Some?
      then callers[x.worker.current.value := Answered(Replied)]
      else callers
    case _ => callers
  }

  function StepSession(s: State, action: Action, x: Session): Option<State>
    requires !action.ExecSends?
  {
    match SessionAfter(x, action)
    case None => None
    case Some(y) =>
      Some(State(
        if action.Unlist? then s.listed - {action.id} else s.listed,
        s.sessions[action.id := y],
        CallersAfter(s.callers, x, action),
        s.events + match Emitted(x, action) case None => [] case Some(k) => [Event(action.id, k)]))
  }

  function Next(s: State, action: Action): Option<State> {
    match action
    case Connect(id) =>
      if id in s.sessions then None
      else Some(Put(s, id, Session(Inserted, false, [], NoWorker)).(listed := s.listed + {id}))
    case ExecLooksUp(c, id) =>
      if c in s.callers then None
      else Some(s.(callers := s.callers[c := if id in s.listed then Found(id) else Answered(SessionNotFound)]))
    case ExecSends(c) =>
      if c !in s.callers || !s.callers[c].Found? || s.callers[c].session !in s.sessions then None
      else
        var id := s.callers[c].session;
        var x := s.sessions[id];
        if !Receiving(x.phase) then Some(s.(callers := s.callers[c := Answered(SessionNotFound)]))
        else if |x.queue| < COMMAND_SLOTS
        then Some(Put(s, id, x.(queue := x.queue + [Exec(c)])).(callers := s.callers[c := Waiting(id)]))
        else None
    case _ => if action.id in s.sessions then StepSession(s, action, s.sessions[action.id]) else None
  }

  const INITIAL := State({}, map[], map[], [])

  ghost predicate Run(states: seq<State>, actions: seq<Action>) {
    |states| == |actions| + 1 && states[0] == INITIAL
    && forall i | 0 <= i < |actions| :: Next(states[i], actions[i]) == Some(states[i + 1])
  }

  // ----- The event trace of one session -----

  function Trace(events: seq<Event>, id: SessionId): seq<Kind> {
    if events == [] then []
    else Trace(events[..|events| - 1], id)
         + if events[|events| - 1].session == id then [events[|events| - 1].kind] else []
  }

  lemma TraceAppend(events: seq<Event>, e: Event, id: SessionId)
    ensures Trace(events + [e], id) == Trace(events, id) + if e.session == id then [e.kind] else []
  {
    assert (events + [e])[..|events|] == events;
  }

  /** The events a session has caused when it is in this phase. */
  function Expected(x: Session): seq<Kind> {
    match x.phase
    case Inserted => []
    case ErrorSent => Up(x) + [ErrorEvent]
    case Removed(ok) => if ok then Up(x) else Up(x) + [ErrorEvent]
    case Done(ok) => if ok then Up(x) + [DisconnectedStatus] else Up(x) + [ErrorEvent] + [ErrorStatus]
    case _ => Up(x)
  }

  function Up(x: Session): seq<Kind> {
    if x.connected then [ConnectingStatus] + [ConnectedStatus] else [ConnectingStatus]
  }

  predicate PhaseFits(x: Session) {
    match x.phase
    case Inserted => !x.connected
    case Announced => !x.connected
    case Connecting => !x.connected
    case Looping => x.connected
    case Forwarding(_) => x.connected
    case Stopped => x.connected
    case Removed(ok) => ok ==> x.connected
    case Done(ok) => ok ==> x.connected
    case _ => true
  }

  ghost predicate TracesFit(s: State) {
    && (forall id | id in s.sessions :: Trace(s.events, id) == Expected(s.sessions[id]) && PhaseFits(s.sessions[id]))
    && (forall e | e in s.events :: e.session in s.sessions)
  }

  predicate OffTheMap(p: Phase) {
    p.Removed? || p.Done?
  }

  ghost predicate ListedFits(s: State) {
    && s.listed <= s.sessions.Keys
    && forall id | id in s.sessions :: id in s.listed <==> !OffTheMap(s.sessions[id].phase)
  }

  // ----- Exec callers -----

  /** Where the request of a waiting caller is. */
  predicate Held(x: Session, c: CallId) {
    || (Receiving(x.phase) && Exec(c) in x.queue)
    || (x.phase.Forwarding? && x.phase.call == c)
    || (x.worker.Working? && (c in x.worker.queue || x.worker.current == Some(c)))
  }

  ghost predicate CallersHeld(s: State) {
    && (forall c | c in s.callers && s.callers[c].Waiting? ::
          s.callers[c].session in s.sessions && Held(s.sessions[s.callers[c].session], c))
    && (forall c | c in s.callers && s.callers[c].Found? :: s.callers[c].session in s.sessions)
  }

  ghost predicate Invariant(s: State) {
    TracesFit(s) && ListedFits(s) && CallersHeld(s) && WorkersFit(s)
  }

  ghost predicate WorkersFit(s: State) {
    forall id | id in s.sessions :: WorkerFits(s.sessions[id])
  }

  /** The worker starts when the session connects and outlives the runtime. */
  predicate WorkerFits(x: Session) {
    match x.phase
    case Inserted => x.worker.NoWorker?
    case Announced => x.worker.NoWorker?
    case Connecting => x.worker.NoWorker?
    case Looping => x.worker.Working?
    case Forwarding(_) => x.worker.Working?
    case _ => true
  }

  lemma {:induction false} NoEventsYet(events: seq<Event>, id: SessionId)
    requires forall e | e in events :: e.session != id
    ensures Trace(events, id) == []
  {
    if events != [] {
      var before := events[..|events| - 1];
      assert forall e | e in before :: e in events;
      assert events[|events| - 1] in events;
      NoEventsYet(before, id);
    }
  }

  /** One step of one session: the events it expects grow by the event it reports. */
  lemma SessionAfterFits(x: Session, action: Action, y: Session)
    requires SessionAfter(x, action) == Some(y) && PhaseFits(x) && WorkerFits(x)
    ensures PhaseFits(y) && WorkerFits(y)
    ensures Expected(y) == Expected(x) + match Emitted(x, action) case None => [] case Some(k) => [k]
  {
  }

  lemma StepTrace(s: State, action: Action, x: Session, s': State, id: SessionId)
    requires !action.ExecSends? && StepSession(s, action, x) == Some(s')
    ensures id != action.id ==> Trace(s'.events, id) == Trace(s.events, id)
    ensures id == action.id ==>
      Trace(s'.events, id) == Trace(s.events, id) + match Emitted(x, action) case None => [] case Some(k) => [k]
  {
    match Emitted(x, action) {
      case None => assert s.events + [] == s.events;
      case Some(k) => TraceAppend(s.events, Event(action.id, k), id);
    }
  }

  lemma SessionStepKeepsTraces(s: State, action: Action, s': State)
    requires TracesFit(s) && WorkersFit(s) && !action.ExecSends? && action.id in s.sessions
    requires StepSession(s, action, s.sessions[action.id]) == Some(s')
    ensures TracesFit(s') && WorkersFit(s')
  {
    var x := s.sessions[action.id];
    SessionAfterFits(x, action, s'.sessions[action.id]);
    forall id | id in s'.sessions
      ensures Trace(s'.events, id) == Expected(s'.sessions[id])
      ensures PhaseFits(s'.sessions[id]) && WorkerFits(s'.sessions[id])
    {
      StepTrace(s, action, x, s', id);
      if id != action.id { assert s'.sessions[id] == s.sessions[id]; }
    }
    EventsKnown(s, action, x, s');
  }

  lemma EventsKnown(s: State, action: Action, x: Session, s': State)
    requires !action.ExecSends? && StepSession(s, action, x) == Some(s')
    requires forall e | e in s.events :: e.session in s.sessions
    ensures forall e | e in s'.events :: e.session in s'.sessions
  {
    match Emitted(x, action) {
      case None => assert s'.events == s.events;
      case Some(k) => assert s'.events == s.events + [Event(action.id, k)];
    }
  }

  lemma SessionStepKeepsListed(s: State, action: Action, s': State)
    requires ListedFits(s) && !action.ExecSends? && action.id in s.sessions
    requires StepSession(s, action, s.sessions[action.id]) == Some(s')
    ensures ListedFits(s')
  {
    var x := s.sessions[action.id];
    OnlyUnlistRemoves(x, action, s'.sessions[action.id]);
    forall id | id in s'.sessions ensures id in s'.listed <==> !OffTheMap(s'.sessions[id].phase) {
      if id != action.id { assert s'.sessions[id] == s.sessions[id]; }
    }
  }

  lemma OnlyUnlistRemoves(x: Session, action: Action, y: Session)
    requires SessionAfter(x, action) == Some(y)
    ensures OffTheMap(y.phase) <==> OffTheMap(x.phase) || action.Unlist?
  {
  }

  /** A waiting caller's request moves from queue to hand to worker, or is answered. */
  lemma RequestMoves(callers: map<CallId, Caller>, x: Session, action: Action, y: Session, c: CallId)
    requires SessionAfter(x, action) == Some(y) && WorkerFits(x)
    requires c in callers && callers[c].Waiting? && Held(x, c)
    ensures c in CallersAfter(callers, x, action)
    ensures Held(y, c) || CallersAfter(callers, x, action)[c].Answered?
  {
    match action {
      case Receive(_) => assert x.queue == [x.queue[0]] + x.queue[1..];
      case WorkerTakes(_) => assert x.worker.queue == [x.worker.queue[0]] + x.worker.queue[1..];
      case Forward(_) => assert x.phase.call in y.worker.queue;
      case SendPlain(_, p) => assert Exec(c) in x.queue ==> Exec(c) in x.queue + [p];
      case _ =>
    }
  }

  lemma CallersOnlyAnswered(callers: map<CallId, Caller>, x: Session, action: Action, c: CallId)
    requires c in CallersAfter(callers, x, action) && !CallersAfter(callers, x, action)[c].Answered?
    ensures c in callers && CallersAfter(callers, x, action)[c] == callers[c]
  {
  }

  lemma SessionStepKeepsCallers(s: State, action: Action, s': State)
    requires CallersHeld(s) && WorkersFit(s) && !action.ExecSends? && action.id in s.sessions
    requires StepSession(s, action, s.sessions[action.id]) == Some(s')
    ensures CallersHeld(s')
  {
    var x := s.sessions[action.id];
    forall c | c in s'.callers && !s'.callers[c].Answered?
      ensures s'.callers[c].session in s'.sessions
      ensures s'.callers[c].Waiting? ==> Held(s'.sessions[s'.callers[c].session], c)
    {
      CallersOnlyAnswered(s.callers, x, action, c);
      if s.callers[c].Waiting? && s.callers[c].session == action.id {
        RequestMoves(s.callers, x, action, s'.sessions[action.id], c);
      }
    }
  }

  lemma StepKeeps(s: State, action: Action, s': State)
    requires Invariant(s) && Next(s, action) == Some(s')
    ensures Invariant(s')
  {
    match action {
      case Connect(id) =>
        NoEventsYet(s.events, id);
      case ExecLooksUp(_, _) =>
      case ExecSends(c) => SendKeeps(s, c, s');
      case _ =>
        SessionStepKeepsTraces(s, action, s');
        SessionStepKeepsListed(s, action, s');
        SessionStepKeepsCallers(s, action, s');
    }
  }

  lemma SendKeeps(s: State, c: CallId, s': State)
    requires Invariant(s) && Next(s, ExecSends(c)) == Some(s')
    ensures Invariant(s')
  {
    var id := s.callers[c].session;
    var x, y := s.sessions[id], s'.sessions[id];
    assert s'.sessions == s.sessions[id := y] && y == x.(queue := y.queue);
    assert Expected(y) == Expected(x);
    SendKeepsCallers(s, c, s');
  }

  lemma SendKeepsCallers(s: State, c: CallId, s': State)
    requires CallersHeld(s) && Next(s, ExecSends(c)) == Some(s')
    ensures CallersHeld(s')
  {
    forall d | d in s'.callers && s'.callers[d].Waiting?
      ensures s'.callers[d].session in s'.sessions && Held(s'.sessions[s'.callers[d].session], d)
    {
      if d != c { assert Held(s.sessions[s.callers[d].session], d); }
    }
  }

  lemma {:induction false} InvariantHolds(states: seq<State>, actions: seq<Action>, k: nat)
    requires Run(states, actions) && k < |states|
    ensures Invariant(states[k])
  {
    if k > 0 {
      InvariantHolds(states, actions, k - 1);
      assert Next(states[k - 1], actions[k - 1]) == Some(states[k - 1 + 1]);
      StepKeeps(states[k - 1], actions[k - 1], states[k]);
    }
  }

  /** Connecting, then optionally Connected, then one of: Disconnected, or an error event and Error. */
  predicate GoodTrace(trace: seq<Kind>) {
    || trace <= [ConnectingStatus, ConnectedStatus, DisconnectedStatus]
    || trace <= [ConnectingStatus, ErrorEvent, ErrorStatus]
    || trace <= [ConnectingStatus, ConnectedStatus, ErrorEvent, ErrorStatus]
  }

  /** The trace ends in Disconnected or Error. */
  predicate Final(trace: seq<Kind>) {
    trace != [] && var last := trace[|trace| - 1]; last.DisconnectedStatus? || last.ErrorStatus?
  }

  lemma ExpectedIsGood(x: Session)
    requires PhaseFits(x)
    ensures GoodTrace(Expected(x)) && (Final(Expected(x)) <==> x.phase.Done?)
  {
    if x.connected {
      assert Up(x) == [ConnectingStatus, ConnectedStatus];
      assert Up(x) + [ErrorEvent] == [ConnectingStatus, ConnectedStatus, ErrorEvent];
    } else {
      assert Up(x) + [ErrorEvent] == [ConnectingStatus, ErrorEvent];
    }
  }

  /**
   * In every interleaving every session's trace is good, and complete exactly when the session is
   * done; a Disconnected session was Connected first.
   */
  lemma TraceIsGood(states: seq<State>, actions: seq<Action>, k: nat, id: SessionId)
    requires Run(states, actions) && k < |states| && id in states[k].sessions
    ensures GoodTrace(Trace(states[k].events, id))
    ensures Final(Trace(states[k].events, id)) <==> states[k].sessions[id].phase.Done?
    ensures Final(Trace(states[k].events, id)) ==> id !in states[k].listed
  {
    InvariantHolds(states, actions, k);
    ExpectedIsGood(states[k].sessions[id]);
  }

  lemma DoneIsQuiet(x: Session, action: Action, y: Session)
    requires SessionAfter(x, action) == Some(y) && x.phase.Done?
    ensures y.phase == x.phase && Emitted(x, action).None?
  {
  }

  lemma StaysDone(s: State, action: Action, s': State, id: SessionId)
    requires Next(s, action) == Some(s') && id in s.sessions && s.sessions[id].phase.Done?
    ensures id in s'.sessions && s'.sessions[id].phase.Done?
    ensures Trace(s'.events, id) == Trace(s.events, id)
  {
    if !action.Connect? && !action.ExecLooksUp? && !action.ExecSends? {
      StepTrace(s, action, s.sessions[action.id], s', id);
      if action.id == id { DoneIsQuiet(s.sessions[id], action, s'.sessions[id]); }
    }
  }

  /** After the final status nothing more is reported, and every later lookup fails. */
  lemma {:induction false} AfterTheFinalStatus(states: seq<State>, actions: seq<Action>, k: nat, m: nat, id: SessionId)
    requires Run(states, actions) && k <= m < |states|
    requires id in states[k].sessions && Final(Trace(states[k].events, id))
    ensures id in states[m].sessions && id !in states[m].listed
    ensures Trace(states[m].events, id) == Trace(states[k].events, id)
    ensures forall call | call !in states[m].callers ::
              Next(states[m], ExecLooksUp(call, id)).value.callers[call] == Answered(SessionNotFound)
  {
    if k < m {
      AfterTheFinalStatus(states, actions, k, m - 1, id);
      TraceIsGood(states, actions, m - 1, id);
      assert Next(states[m - 1], actions[m - 1]) == Some(states[m - 1 + 1]);
      StaysDone(states[m - 1], actions[m - 1], states[m], id);
    }
    TraceIsGood(states, actions, m, id);
  }

  /** Once the runtime and its worker have ended, no exec caller of the session is left waiting. */
  lemma NoCallerLeftWaiting(states: seq<State>, actions: seq<Action>, k: nat, id: SessionId, call: CallId)
    requires Run(states, actions) && k < |states| && id in states[k].sessions
    requires !Receiving(states[k].sessions[id].phase) && !states[k].sessions[id].worker.Working?
    requires call in states[k].callers
    ensures states[k].callers[call] != Waiting(id)
  {
    InvariantHolds(states, actions, k);
  }

  /** After the runtime has ended the worker can always answer, take or end. */
  lemma WorkerGoesOn(states: seq<State>, actions: seq<Action>, k: nat, id: SessionId)
    requires Run(states, actions) && k < |states| && id in states[k].sessions
    requires !Receiving(states[k].sessions[id].phase) && states[k].sessions[id].worker.Working?
    ensures || Next(states[k], WorkerAnswers(id)).Some?
            || Next(states[k], WorkerTakes(id)).Some?
            || Next(states[k], WorkerEnds(id)).Some?
  {
  }

  /** The worker's steps still to come once the runtime has ended: two for every request, one to end. */
  function Left(x: Session): nat {
    match x.worker
    case Working(queue, current) => 2 * |queue| + (if current.Some? then 1 else 0) + 1
    case _ => 0
  }

  predicate IsWorkerStep(action: Action, id: SessionId) {
    action == WorkerTakes(id) || action == WorkerAnswers(id) || action == WorkerEnds(id)
  }

  function WorkerSteps(actions: seq<Action>, id: SessionId): nat {
    if actions == [] then 0
    else WorkerSteps(actions[..|actions| - 1], id) + if IsWorkerStep(actions[|actions| - 1], id) then 1 else 0
  }

  lemma OneStepLess(x: Session, action: Action, y: Session)
    requires SessionAfter(x, action) == Some(y) && !Receiving(x.phase)
    ensures !Receiving(y.phase)
    ensures Left(y) + (if action.WorkerTakes? || action.WorkerAnswers? || action.WorkerEnds? then 1 else 0) == Left(x)
  {
  }

  lemma StepLeft(s: State, action: Action, s': State, id: SessionId)
    requires Next(s, action) == Some(s') && id in s.sessions && !Receiving(s.sessions[id].phase)
    ensures id in s'.sessions && !Receiving(s'.sessions[id].phase)
    ensures Left(s'.sessions[id]) + (if IsWorkerStep(action, id) then 1 else 0) == Left(s.sessions[id])
  {
    if !action.Connect? && !action.ExecLooksUp? && !action.ExecSends? && action.id == id {
      OneStepLess(s.sessions[id], action, s'.sessions[id]);
    }
  }

  lemma {:induction false} StepsLeft(states: seq<State>, actions: seq<Action>, k: nat, m: nat, id: SessionId)
    requires Run(states, actions) && k <= m < |states| && id in states[k].sessions
    requires !Receiving(states[k].sessions[id].phase)
    ensures id in states[m].sessions && !Receiving(states[m].sessions[id].phase)
    ensures Left(states[m].sessions[id]) + WorkerSteps(actions[k..m], id) == Left(states[k].sessions[id])
  {
    if k < m {
      StepsLeft(states, actions, k, m - 1, id);
      RunStep(states, actions, m - 1);
      StepLeft(states[m - 1], actions[m - 1], states[m], id);
      OneMoreStep(actions, k, m - 1, id);
    }
  }

  lemma RunStep(states: seq<State>, actions: seq<Action>, k: nat)
    requires Run(states, actions) && k < |actions|
    ensures Next(states[k], actions[k]) == Some(states[k + 1])
  {
  }

  lemma OneMoreStep(actions: seq<Action>, k: nat, m: nat, id: SessionId)
    requires k <= m < |actions|
    ensures WorkerSteps(actions[k..m + 1], id)
         == WorkerSteps(actions[k..m], id) + if IsWorkerStep(actions[m], id) then 1 else 0
  {
    assert actions[k..m + 1][..m - k] == actions[k..m];
  }

  /**
   * And the worker does end: once the runtime has, it takes at most two steps for every queued request and two
   * more, and it has ended exactly when it has taken them all.
   */
  lemma WorkerEndsAfter(states: seq<State>, actions: seq<Action>, k: nat, m: nat, id: SessionId)
    requires Run(states, actions) && k <= m < |states| && id in states[k].sessions
    requires !Receiving(states[k].sessions[id].phase) && states[k].sessions[id].worker.Working?
    ensures WorkerSteps(actions[k..m], id) <= 2 * |states[k].sessions[id].worker.queue| + 2
    ensures id in states[m].sessions
    ensures WorkerSteps(actions[k..m], id) == Left(states[k].sessions[id]) <==> !states[m].sessions[id].worker.Working?
  {
    StepsLeft(states, actions, k, m, id);
  }

  // ----- What decides how a session ends -----

  /** The step that receives a disconnect, or the server closing the channel. */
  predicate StopsWell(s: State, action: Action, id: SessionId) {
    action == ServerCloses(id)
    || (action == Receive(id) && id in s.sessions && s.sessions[id].queue != [] && s.sessions[id].queue[0].Disconnect?)
  }

  /** The step that takes the receiver away. */
  ghost predicate StopsAt(states: seq<State>, actions: seq<Action>, j: nat, id: SessionId)
    requires |states| == |actions| + 1 && j < |actions|
  {
    && id in states[j].sessions && Receiving(states[j].sessions[id].phase)
    && id in states[j + 1].sessions && !Receiving(states[j + 1].sessions[id].phase)
  }

  /** On the way to Disconnected. */
  predicate EndsWell(p: Phase) {
    p.Stopped? || (p.Removed? && p.ok) || (p.Done? && p.ok)
  }

  lemma StopKind(s: State, action: Action, s': State, id: SessionId)
    requires Next(s, action) == Some(s') && id in s.sessions && Receiving(s.sessions[id].phase)
    requires id in s'.sessions && !Receiving(s'.sessions[id].phase)
    ensures EndsWell(s'.sessions[id].phase) <==> StopsWell(s, action, id)
    ensures !EndsWell(s'.sessions[id].phase) <==> action == Break(id)
  {
  }

  lemma KindStays(s: State, action: Action, s': State, id: SessionId)
    requires Next(s, action) == Some(s') && id in s.sessions && !Receiving(s.sessions[id].phase)
    ensures id in s'.sessions && !Receiving(s'.sessions[id].phase)
    ensures EndsWell(s'.sessions[id].phase) <==> EndsWell(s.sessions[id].phase)
  {
  }

  lemma {:induction false} WhyItStopped(states: seq<State>, actions: seq<Action>, k: nat, id: SessionId)
    returns (j: nat)
    requires Run(states, actions) && k < |states|
    requires id in states[k].sessions && !Receiving(states[k].sessions[id].phase)
    ensures j < k && StopsAt(states, actions, j, id)
    ensures EndsWell(states[k].sessions[id].phase) <==> StopsWell(states[j], actions[j], id)
    ensures !EndsWell(states[k].sessions[id].phase) <==> actions[j] == Break(id)
  {
    var s, action := states[k - 1], actions[k - 1];
    assert Next(s, action) == Some(states[k - 1 + 1]);
    if id in s.sessions && !Receiving(s.sessions[id].phase) {
      j := WhyItStopped(states, actions, k - 1, id);
      KindStays(s, action, states[k], id);
    } else {
      j := k - 1;
      StopKind(s, action, states[k], id);
    }
  }

  /**
   * A session that has reported its final status reported Disconnected exactly when the step that stopped it received a
   * disconnect or was the server's close, and Error exactly when the connection broke.
   */
  lemma EndingHasItsCause(states: seq<State>, actions: seq<Action>, k: nat, id: SessionId) returns (j: nat)
    requires Run(states, actions) && k < |states| && id in states[k].sessions && Final(Trace(states[k].events, id))
    ensures j < k && StopsAt(states, actions, j, id)
    ensures var trace := Trace(states[k].events, id);
      && (trace[|trace| - 1] == DisconnectedStatus <==> StopsWell(states[j], actions[j], id))
      && (trace[|trace| - 1] == ErrorStatus <==> actions[j] == Break(id))
  {
    TraceIsGood(states, actions, k, id);
    LastOfTrace(states, actions, k, id);
    j := WhyItStopped(states, actions, k, id);
  }

  lemma LastOfTrace(states: seq<State>, actions: seq<Action>, k: nat, id: SessionId)
    requires Run(states, actions) && k < |states| && id in states[k].sessions && states[k].sessions[id].phase.Done?
    ensures var trace := Trace(states[k].events, id);
      trace != []
      && trace[|trace| - 1] == if EndsWell(states[k].sessions[id].phase) then DisconnectedStatus else ErrorStatus
  {
    InvariantHolds(states, actions, k);
  }

  // ----- What decides what a caller gets -----

  /**
   * The answer was given by this step: the lookup missed, the send failed, the queue was dropped, or the worker
   * replied.
   */
  ghost predicate GivenAt(states: seq<State>, actions: seq<Action>, j: nat, c: CallId, answer: Answer)
    requires |states| == |actions| + 1 && j < |actions|
  {
    var s := states[j];
    match actions[j]
    case ExecLooksUp(call, id) => call == c && id !in s.listed && answer == SessionNotFound
    case ExecSends(call) =>
      && call == c && c in s.callers && s.callers[c].Found? && s.callers[c].session in s.sessions
      && !Receiving(s.sessions[s.callers[c].session].phase) && answer == SessionNotFound
    case WorkerAnswers(id) =>
      && id in s.sessions && s.sessions[id].worker.Working? && s.sessions[id].worker.current == Some(c)
      && answer == Replied
    case Break(id) => Dropped(s, id, c) && answer == SessionNotFound
    case ServerCloses(id) => Dropped(s, id, c) && answer == SessionNotFound
    case Receive(id) => Dropped(s, id, c) && s.sessions[id].queue[0].Disconnect? && answer == SessionNotFound
    case _ => false
  }

  /** The request is still in the session's own queue. */
  predicate Dropped(s: State, id: SessionId, c: CallId) {
    id in s.sessions && s.sessions[id].queue != [] && Exec(c) in s.sessions[id].queue
  }

  lemma AnswerGiven(states: seq<State>, actions: seq<Action>, j: nat, c: CallId)
    requires |states| == |actions| + 1 && j < |actions| && Next(states[j], actions[j]) == Some(states[j + 1])
    requires c in states[j + 1].callers && states[j + 1].callers[c].Answered?
    requires c in states[j].callers ==> states[j].callers[c] != states[j + 1].callers[c]
    ensures GivenAt(states, actions, j, c, states[j + 1].callers[c].answer)
  {
  }

  /** Whatever a caller was answered, some step gave it that answer for its reason. */
  lemma {:induction false} AnswerHasItsCause(states: seq<State>, actions: seq<Action>, k: nat, c: CallId)
    returns (j: nat)
    requires Run(states, actions) && k < |states| && c in states[k].callers && states[k].callers[c].Answered?
    ensures j < k && GivenAt(states, actions, j, c, states[k].callers[c].answer)
  {
    assert Next(states[k - 1], actions[k - 1]) == Some(states[k - 1 + 1]);
    if c in states[k - 1].callers && states[k - 1].callers[c] == states[k].callers[c] {
      j := AnswerHasItsCause(states, actions, k - 1, c);
    } else {
      j := k - 1;
      AnswerGiven(states, actions, j, c);
    }
  }

  /** A request can be sent as long as one of the 512 slots is free, and passed on as long as one of the 64 is. */
  lemma SlotsAreUsed(s: State, c: CallId, id: SessionId)
    requires id in s.sessions
    ensures c in s.callers && s.callers[c] == Found(id) && Receiving(s.sessions[id].phase) ==>
      (Next(s, ExecSends(c)).Some? <==> |s.sessions[id].queue| < 512)
    ensures Receiving(s.sessions[id].phase) ==>
      (Next(s, SendPlain(id, Plain)).Some? <==> |s.sessions[id].queue| < 512)
      && (Next(s, SendPlain(id, Disconnect)).Some? <==> |s.sessions[id].queue| < 512)
    ensures s.sessions[id].phase.Forwarding? && s.sessions[id].worker.Working? ==>
      (Next(s, Forward(id)).Some? <==> |s.sessions[id].worker.queue| < 64)
    ensures s.sessions[id].phase.Looping? && s.sessions[id].queue != [] ==> Next(s, Receive(id)).Some?
  {
  }

  /** A runtime takes the commands off its channel one by one, and none twice. */
  lemma ReceiveTakesFirst(s: State, id: SessionId, s': State)
    requires Next(s, Receive(id)) == Some(s')
    ensures id in s.sessions && id in s'.sessions && s.sessions[id].queue != []
    ensures Receiving(s'.sessions[id].phase) <==> !s.sessions[id].queue[0].Disconnect?
    ensures Receiving(s'.sessions[id].phase) ==>
      [s.sessions[id].queue[0]] + s'.sessions[id].queue == s.sessions[id].queue
    ensures !Receiving(s'.sessions[id].phase) ==> s'.sessions[id].queue == []
  {
  }

  /** What a session can do next, whatever the others do. */
  ghost predicate GoesOn(s: State, id: SessionId)
    requires id in s.sessions
  {
    match s.sessions[id].phase
    case Inserted => Next(s, Announce(id)).Some?
    case Announced => Next(s, Spawn(id)).Some?
    case Connecting => Next(s, Establish(id)).Some? && Next(s, Break(id)).Some?
    case Looping => Next(s, ServerCloses(id)).Some? && Next(s, Break(id)).Some?
    case Forwarding(_) =>
      Next(s, Forward(id)).Some? || Next(s, WorkerAnswers(id)).Some? || Next(s, WorkerTakes(id)).Some?
    case Failed => Next(s, SendError(id)).Some?
    case Stopped => Next(s, Unlist(id)).Some?
    case ErrorSent => Next(s, Unlist(id)).Some?
    case Removed(_) => Next(s, EmitFinal(id)).Some?
    case Done(_) => true
  }

  /**
   * In every interleaving a session that has not reported its final status can take a step of its own: a runtime
   * that waits for a slot of its worker's channel waits for a worker that can move, and one that has ended reports it.
   */
  lemma SessionGoesOn(states: seq<State>, actions: seq<Action>, k: nat, id: SessionId)
    requires Run(states, actions) && k < |states| && id in states[k].sessions
    ensures GoesOn(states[k], id)
  {
    InvariantHolds(states, actions, k);
    CanMove(states[k], id);
  }

  lemma CanMove(s: State, id: SessionId)
    requires id in s.sessions && WorkerFits(s.sessions[id])
    ensures GoesOn(s, id)
  {
    match s.sessions[id].phase {
      case Forwarding(_) =>
        var worker := s.sessions[id].worker;
        if worker.current.Some? { assert Next(s, WorkerAnswers(id)).Some?; }
        else if worker.queue != [] { assert Next(s, WorkerTakes(id)).Some?; }
        else { assert Next(s, Forward(id)).Some?; }
      case _ =>
    }
  }

  /** A lookup finds exactly the listed sessions. */
  lemma LookupIff(states: seq<State>, actions: seq<Action>, k: nat, c: CallId, id: SessionId)
    requires Run(states, actions) && k < |actions| && actions[k] == ExecLooksUp(c, id)
    ensures c in states[k + 1].callers
    ensures states[k + 1].callers[c] == Found(id) <==> id in states[k].listed
    ensures states[k + 1].callers[c] == Answered(SessionNotFound) <==> id !in states[k].listed
  {
    assert Next(states[k], actions[k]) == Some(states[k + 1]);
  }

  // ----- Requests are answered in the order they were sent -----

  function Calls(queue: seq<Command>): seq<CallId> {
    if queue == [] then []
    else Calls(queue[..|queue| - 1]) + if queue[|queue| - 1].Exec? then [queue[|queue| - 1].call] else []
  }

  /** The requests on their way, the next to be answered first. */
  function Pipeline(x: Session): seq<CallId> {
    AtWorker(x) + InHand(x) + Calls(x.queue)
  }

  function AtWorker(x: Session): seq<CallId> {
    if x.worker.Working? then (if x.worker.current.Some? then [x.worker.current.value] else []) + x.worker.queue else []
  }

  lemma {:induction false} CallsFront(queue: seq<Command>)
    requires queue != []
    ensures Calls(queue) == (if queue[0].Exec? then [queue[0].call] else []) + Calls(queue[1..])
  {
    if |queue| > 1 {
      var n := |queue| - 1;
      CallsFront(queue[..n]);
      assert queue[..n][1..] == queue[1..][..n - 1];
    } else {
      assert queue[..0] == [] && queue[1..] == [];
    }
  }

  lemma CallsBack(queue: seq<Command>, c: Command)
    ensures Calls(queue + [c]) == Calls(queue) + if c.Exec? then [c.call] else []
  {
    assert (queue + [c])[..|queue|] == queue;
  }

  function InHand(x: Session): seq<CallId> {
    if x.phase.Forwarding? then [x.phase.call] else []
  }

  /** A step takes the first request off the pipeline, or drops some of the last, or leaves it as it is. */
  ghost predicate Flows(x: Session, action: Action, y: Session) {
    if action.WorkerAnswers? then
      x.worker.Working? && x.worker.current.Some? && Pipeline(x) == [x.worker.current.value] + Pipeline(y)
    else Pipeline(y) <= Pipeline(x) && (Receiving(y.phase) ==> Pipeline(y) == Pipeline(x))
  }

  lemma PipelineStep(x: Session, action: Action, y: Session)
    requires SessionAfter(x, action) == Some(y) && WorkerFits(x)
    ensures Flows(x, action, y)
  {
    match action {
      case Receive(_) => ReceiveFlows(x, action, y);
      case SendPlain(_, c) => CallsBack(x.queue, c);
      case Break(_) => StopFlows(x, y);
      case ServerCloses(_) => StopFlows(x, y);
      case Forward(_) => ForwardFlows(x, action, y);
      case WorkerTakes(_) => TakeFlows(x, action, y);
      case WorkerAnswers(_) => ReplyFlows(x, action, y);
      case Establish(_) => SameFlow(x, y);
      case WorkerEnds(_) => SameFlow(x, y);
      case _ => PhaseFlows(x, action, y);
    }
  }

  lemma PhaseFlows(x: Session, action: Action, y: Session)
    requires SessionAfter(x, action) == Some(y)
    requires action.Announce? || action.Spawn? || action.SendError? || action.Unlist? || action.EmitFinal?
    ensures Pipeline(y) == Pipeline(x)
  {
    SameFlow(x, y);
  }

  lemma SameFlow(x: Session, y: Session)
    requires AtWorker(y) == AtWorker(x) && InHand(y) == InHand(x) && y.queue == x.queue
    ensures Pipeline(y) == Pipeline(x)
  {
  }

  lemma StopFlows(x: Session, y: Session)
    requires AtWorker(y) == AtWorker(x) && InHand(x) == InHand(y) == [] && y.queue == []
    ensures Pipeline(y) <= Pipeline(x)
  {
  }

  lemma ReceiveFlows(x: Session, action: Action, y: Session)
    requires action.Receive? && SessionAfter(x, action) == Some(y)
    ensures Pipeline(y) <= Pipeline(x) && (Receiving(y.phase) ==> Pipeline(y) == Pipeline(x))
  {
    if x.queue[0].Disconnect? {
      StopFlows(x, y);
    } else {
      CallsFront(x.queue);
      assert AtWorker(y) == AtWorker(x) && InHand(x) == [];
      assert AtWorker(x) + [] + (InHand(y) + Calls(y.queue)) == AtWorker(y) + InHand(y) + Calls(y.queue);
    }
  }

  lemma ForwardFlows(x: Session, action: Action, y: Session)
    requires action.Forward? && SessionAfter(x, action) == Some(y)
    ensures Pipeline(y) == Pipeline(x)
  {
    assert AtWorker(y) == AtWorker(x) + InHand(x) && InHand(y) == [];
    assert AtWorker(y) + [] == AtWorker(y);
  }

  lemma TakeFlows(x: Session, action: Action, y: Session)
    requires action.WorkerTakes? && SessionAfter(x, action) == Some(y)
    ensures Pipeline(y) == Pipeline(x)
  {
    assert x.worker.queue == [x.worker.queue[0]] + x.worker.queue[1..];
    SameFlow(x, y);
  }

  lemma ReplyFlows(x: Session, action: Action, y: Session)
    requires action.WorkerAnswers? && SessionAfter(x, action) == Some(y)
    ensures x.worker.Working? && x.worker.current.Some? && Pipeline(x) == [x.worker.current.value] + Pipeline(y)
  {
    assert AtWorker(x) == [x.worker.current.value] + AtWorker(y);
  }

  /** The requests sent to a session so far, in order. */
  ghost function SentTo(states: seq<State>, actions: seq<Action>, k: nat, id: SessionId): seq<CallId>
    requires |states| == |actions| + 1 && k <= |actions|
  {
    if k == 0 then []
    else
      SentTo(states, actions, k - 1, id)
      + match actions[k - 1]
        case ExecSends(c) => if c in states[k].callers && states[k].callers[c] == Waiting(id) then [c] else []
        case _ => []
  }

  /** Those its worker has answered, in order. */
  ghost function RepliedBy(states: seq<State>, actions: seq<Action>, k: nat, id: SessionId): seq<CallId>
    requires |states| == |actions| + 1 && k <= |actions|
  {
    if k == 0 then []
    else
      RepliedBy(states, actions, k - 1, id)
      + if actions[k - 1] == WorkerAnswers(id) && id in states[k - 1].sessions
          && states[k - 1].sessions[id].worker.Working? && states[k - 1].sessions[id].worker.current.Some?
        then [states[k - 1].sessions[id].worker.current.value]
        else []
  }

  /** The answered requests are the first of those sent, and the next are those on their way. */
  ghost predicate InOrder(answered: seq<CallId>, onTheWay: seq<CallId>, open: bool, sent: seq<CallId>) {
    answered + onTheWay <= sent && (open ==> answered + onTheWay == sent)
  }

  lemma OneAnswered(answered: seq<CallId>, c: CallId, rest: seq<CallId>, open: bool, sent: seq<CallId>)
    requires InOrder(answered, [c] + rest, open, sent)
    ensures InOrder(answered + [c], rest, open, sent)
  {
    assert answered + ([c] + rest) == answered + [c] + rest;
  }

  lemma SomeDropped(answered: seq<CallId>, before: seq<CallId>, after: seq<CallId>, sent: seq<CallId>)
    requires InOrder(answered, before, false, sent) && after <= before
    ensures InOrder(answered, after, false, sent)
  {
    assert answered + after <= answered + before;
  }

  lemma OneSent(answered: seq<CallId>, onTheWay: seq<CallId>, sent: seq<CallId>, c: CallId)
    requires InOrder(answered, onTheWay, true, sent)
    ensures InOrder(answered, onTheWay + [c], true, sent + [c])
  {
    assert answered + (onTheWay + [c]) == answered + onTheWay + [c];
  }

  lemma PipelineSend(x: Session, c: CallId)
    ensures Pipeline(x.(queue := x.queue + [Exec(c)])) == Pipeline(x) + [c]
  {
    var y := x.(queue := x.queue + [Exec(c)]);
    CallsBack(x.queue, Exec(c));
    assert AtWorker(y) == AtWorker(x) && InHand(y) == InHand(x);
  }

  lemma NeverReceivesAgain(x: Session, action: Action, y: Session)
    requires SessionAfter(x, action) == Some(y) && Receiving(y.phase)
    ensures Receiving(x.phase)
  {
  }

  ghost predicate OrderedAt(states: seq<State>, actions: seq<Action>, k: nat, id: SessionId)
    requires |states| == |actions| + 1 && k <= |actions| && id in states[k].sessions
  {
    var x := states[k].sessions[id];
    InOrder(RepliedBy(states, actions, k, id), Pipeline(x), Receiving(x.phase), SentTo(states, actions, k, id))
  }

  /** In every interleaving requests are answered in the order in which they were sent, without a gap. */
  lemma {:induction false} AnsweredInOrder(states: seq<State>, actions: seq<Action>, k: nat, id: SessionId)
    requires Run(states, actions) && k < |states| && id in states[k].sessions
    ensures OrderedAt(states, actions, k, id)
  {
    var s, action := states[k - 1], actions[k - 1];
    assert Next(s, action) == Some(states[k - 1 + 1]);
    if id !in s.sessions {
      NothingYet(states, actions, k - 1, id);
    } else {
      AnsweredInOrder(states, actions, k - 1, id);
      InvariantHolds(states, actions, k - 1);
      if action.ExecSends? {
        OrderedSend(states, actions, k - 1, id);
      } else if action.Connect? || action.ExecLooksUp? || action.id != id {
        OrderedElsewhere(states, actions, k - 1, id);
      } else {
        OrderedHere(states, actions, k - 1, id);
      }
    }
  }

  lemma OrderedSend(states: seq<State>, actions: seq<Action>, k: nat, id: SessionId)
    requires |states| == |actions| + 1 && k < |actions| && Next(states[k], actions[k]) == Some(states[k + 1])
    requires id in states[k].sessions && OrderedAt(states, actions, k, id) && actions[k].ExecSends?
    ensures id in states[k + 1].sessions && OrderedAt(states, actions, k + 1, id)
  {
    var c, x, y := actions[k].call, states[k].sessions[id], states[k + 1].sessions[id];
    var answered, sent := RepliedBy(states, actions, k, id), SentTo(states, actions, k, id);
    SendStep(states[k], c, states[k + 1], id);
    SendHistory(states, actions, k, id);
    if states[k + 1].callers[c] == Waiting(id) {
      OneSent(answered, Pipeline(x), sent, c);
      PipelineSend(x, c);
      assert InOrder(answered, Pipeline(y), true, sent + [c]);
    }
  }

  lemma SendHistory(states: seq<State>, actions: seq<Action>, k: nat, id: SessionId)
    requires |states| == |actions| + 1 && k < |actions| && actions[k].ExecSends?
    requires Next(states[k], actions[k]) == Some(states[k + 1])
    ensures RepliedBy(states, actions, k + 1, id) == RepliedBy(states, actions, k, id)
    ensures actions[k].call in states[k + 1].callers
    ensures SentTo(states, actions, k + 1, id) == SentTo(states, actions, k, id)
      + if states[k + 1].callers[actions[k].call] == Waiting(id) then [actions[k].call] else []
  {
  }

  lemma OrderedElsewhere(states: seq<State>, actions: seq<Action>, k: nat, id: SessionId)
    requires |states| == |actions| + 1 && k < |actions| && Next(states[k], actions[k]) == Some(states[k + 1])
    requires id in states[k].sessions && OrderedAt(states, actions, k, id)
    requires actions[k].Connect? || actions[k].ExecLooksUp? || (!actions[k].ExecSends? && actions[k].id != id)
    ensures id in states[k + 1].sessions && OrderedAt(states, actions, k + 1, id)
  {
    ElsewhereStays(states[k], actions[k], states[k + 1], id);
    assert SentTo(states, actions, k + 1, id) == SentTo(states, actions, k, id);
    assert RepliedBy(states, actions, k + 1, id) == RepliedBy(states, actions, k, id);
  }

  lemma ElsewhereStays(s: State, action: Action, s': State, id: SessionId)
    requires Next(s, action) == Some(s') && id in s.sessions
    requires action.Connect? || action.ExecLooksUp? || (!action.ExecSends? && action.id != id)
    ensures id in s'.sessions && s'.sessions[id] == s.sessions[id]
  {
  }

  lemma OrderedHere(states: seq<State>, actions: seq<Action>, k: nat, id: SessionId)
    requires |states| == |actions| + 1 && k < |actions| && Next(states[k], actions[k]) == Some(states[k + 1])
    requires id in states[k].sessions && OrderedAt(states, actions, k, id) && WorkersFit(states[k])
    requires !actions[k].ExecSends? && !actions[k].Connect? && !actions[k].ExecLooksUp? && actions[k].id == id
    ensures id in states[k + 1].sessions && OrderedAt(states, actions, k + 1, id)
  {
    var action, x, y := actions[k], states[k].sessions[id], states[k + 1].sessions[id];
    var answered, sent := RepliedBy(states, actions, k, id), SentTo(states, actions, k, id);
    assert SessionAfter(x, action) == Some(y) && WorkerFits(x);
    PipelineStep(x, action, y);
    if Receiving(y.phase) { NeverReceivesAgain(x, action, y); }
    assert SentTo(states, actions, k + 1, id) == sent;
    if action.WorkerAnswers? {
      OneAnswered(answered, x.worker.current.value, Pipeline(y), Receiving(y.phase), sent);
    } else {
      assert RepliedBy(states, actions, k + 1, id) == answered;
      if !Receiving(y.phase) { SomeDropped(answered, Pipeline(x), Pipeline(y), sent); }
    }
  }

  lemma SendStep(s: State, c: CallId, s': State, id: SessionId)
    requires Next(s, ExecSends(c)) == Some(s') && id in s.sessions
    ensures c in s'.callers && id in s'.sessions
    ensures if s'.callers[c] == Waiting(id)
            then Receiving(s.sessions[id].phase)
              && s'.sessions[id] == s.sessions[id].(queue := s.sessions[id].queue + [Exec(c)])
            else s'.sessions[id] == s.sessions[id]
  {
  }

  lemma {:induction false} NothingYet(states: seq<State>, actions: seq<Action>, k: nat, id: SessionId)
    requires Run(states, actions) && k < |states| && id !in states[k].sessions
    ensures SentTo(states, actions, k, id) == [] && RepliedBy(states, actions, k, id) == []
  {
    if k > 0 {
      assert Next(states[k - 1], actions[k - 1]) == Some(states[k - 1 + 1]);
      NothingYet(states, actions, k - 1, id);
    }
  }
}
