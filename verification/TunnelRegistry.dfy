/**
 * The registry of tunnels. `register` spawns the tunnel's task and inserts its entry under one lock;
 * the task removes its own entry when it ends; stopping removes it and aborts the task. A machine
 * without the lock shows what the lock is for.
 */
module TunnelRegistry {
  import opened Basics

  type TunnelId = nat

  /** Ended: its work is over, its own removal is still to do. Aborted: it will do nothing more. */
  datatype Task = Running | Ended | Removed | Aborted

  datatype State = State(
    active: set<TunnelId>,
    tasks: map<TunnelId, Task>,
    registering: Option<TunnelId>, // the register call between spawn and insert
    registered: set<TunnelId>,
    stopped: set<TunnelId>)

  datatype Action =
    | Spawn(id: TunnelId)
    | Insert(id: TunnelId)
    | End(id: TunnelId)
    | RemoveSelf(id: TunnelId)
    | Stop(id: TunnelId)
    | Abort(id: TunnelId) // takes effect some time after the stop; a task that ends first still removes itself

  /** `locked`: the registry's lock is held from spawn to insert. */
  predicate Free(locked: bool, s: State) {
    !locked || s.registering.None?
  }

  function Next(locked: bool, s: State, action: Action): Option<State> {
    match action
    case Spawn(id) =>
      if id in s.tasks || s.registering.Some? then None
      else Some(s.(tasks := s.tasks[id := Running], registering := Some(id)))
    case Insert(id) =>
      if s.registering != Some(id) then None
      else Some(s.(active := s.active + {id}, registered := s.registered + {id}, registering := None))
    case End(id) =>
      if id in s.tasks && s.tasks[id].Running? then Some(s.(tasks := s.tasks[id := Ended])) else None
    case RemoveSelf(id) =>
      if id in s.tasks && s.tasks[id].Ended? && Free(locked, s)
      then Some(s.(active := s.active - {id}, tasks := s.tasks[id := Removed]))
      else None
    case Stop(id) =>
      if !Free(locked, s) then None
      else if id !in s.active then Some(s)
      else Some(s.(active := s.active - {id}, stopped := s.stopped + {id}))
    case Abort(id) =>
      if id in s.stopped && id in s.tasks && s.tasks[id].Running?
      then Some(s.(tasks := s.tasks[id := Aborted]))
      else None
  }

  const INITIAL := State({}, map[], None, {}, {})

  ghost predicate Run(locked: bool, states: seq<State>, actions: seq<Action>) {
    |states| == |actions| + 1 && states[0] == INITIAL
    && forall i | 0 <= i < |actions| :: Next(locked, states[i], actions[i]) == Some(states[i + 1])
  }

  /** Registered, and neither stopped nor removed by its own task. */
  predicate ShouldBeListed(s: State, id: TunnelId) {
    id in s.registered && id !in s.stopped && !(id in s.tasks && s.tasks[id].Removed?)
  }

  ghost predicate Invariant(s: State) {
    && (forall id: TunnelId :: id in s.active <==> ShouldBeListed(s, id))
    && (forall id | id in s.registered :: id in s.tasks)
    && (s.registering.Some? ==>
          var id := s.registering.value;
          id in s.tasks && id !in s.registered && id !in s.stopped && !s.tasks[id].Removed?)
    && s.stopped <= s.registered
  }

  lemma StepKeeps(s: State, action: Action, s': State)
    requires Invariant(s) && Next(true, s, action) == Some(s')
    ensures Invariant(s')
    ensures forall id | id in s.registered && id !in s.active :: id in s'.registered && id !in s'.active
  {
    forall id: TunnelId ensures id in s'.active <==> ShouldBeListed(s', id) {
      assert id in s.active <==> ShouldBeListed(s, id);
    }
  }

  lemma {:induction false} InvariantHolds(states: seq<State>, actions: seq<Action>, k: nat)
    requires Run(true, states, actions) && k < |states|
    ensures Invariant(states[k])
  {
    if k > 0 {
      InvariantHolds(states, actions, k - 1);
      assert Next(true, states[k - 1], actions[k - 1]) == Some(states[k - 1 + 1]);
      StepKeeps(states[k - 1], actions[k - 1], states[k]);
    }
  }

  /** In every interleaving a tunnel is listed exactly from its registration until it is stopped or removes itself. */
  lemma ListedExactly(states: seq<State>, actions: seq<Action>, k: nat, id: TunnelId)
    requires Run(true, states, actions) && k < |states|
    ensures id in states[k].active <==> ShouldBeListed(states[k], id)
  {
    InvariantHolds(states, actions, k);
  }

  /** The last step that concerns the entry put it in, told by the steps alone. */
  function InsertedLast(actions: seq<Action>, k: nat, id: TunnelId): bool
    requires k <= |actions|
  {
    if k == 0 then false
    else
      match actions[k - 1]
      case Insert(i) => i == id || InsertedLast(actions, k - 1, id)
      case Stop(i) => i != id && InsertedLast(actions, k - 1, id)
      case RemoveSelf(i) => i != id && InsertedLast(actions, k - 1, id)
      case _ => InsertedLast(actions, k - 1, id)
  }

  /** With the lock or without, a tunnel is listed exactly when it was inserted and not stopped or removed since. */
  lemma {:induction false} ListedBySteps(locked: bool, states: seq<State>, actions: seq<Action>, k: nat, id: TunnelId)
    requires Run(locked, states, actions) && k < |states|
    ensures id in states[k].active <==> InsertedLast(actions, k, id)
  {
    if k > 0 {
      ListedBySteps(locked, states, actions, k - 1, id);
      assert Next(locked, states[k - 1], actions[k - 1]) == Some(states[k - 1 + 1]);
    }
  }

  /** A stopped tunnel's task goes on only to its own removal, or not at all. */
  lemma StoppedTask(locked: bool, s: State, action: Action, s': State, id: TunnelId)
    requires Next(locked, s, action) == Some(s') && id in s.tasks && id in s'.tasks && s'.tasks[id] != s.tasks[id]
    ensures match s.tasks[id]
            case Running => s'.tasks[id].Ended? || (s'.tasks[id].Aborted? && id in s.stopped)
            case Ended => s'.tasks[id].Removed?
            case _ => false
  {
  }

  /** And once it is off the list it never comes back. */
  lemma {:induction false} NeverAgain(states: seq<State>, actions: seq<Action>, k: nat, m: nat, id: TunnelId)
    requires Run(true, states, actions) && k <= m < |states|
    requires id in states[k].registered && id !in states[k].active
    ensures id in states[m].registered && id !in states[m].active
  {
    if k < m {
      NeverAgain(states, actions, k, m - 1, id);
      InvariantHolds(states, actions, m - 1);
      assert Next(true, states[m - 1], actions[m - 1]) == Some(states[m - 1 + 1]);
      StepKeeps(states[m - 1], actions[m - 1], states[m]);
    }
  }

  /** Without the lock a task can remove itself before it is inserted: a dead tunnel is listed. */
  lemma WithoutTheLock(id: TunnelId) returns (states: seq<State>, actions: seq<Action>)
    ensures Run(false, states, actions)
    ensures var last := states[|states| - 1];
      DeadButListed(last, id) && !ShouldBeListed(last, id)
  {
    actions := [Spawn(id), End(id), RemoveSelf(id), Insert(id)];
    var s1 := Next(false, INITIAL, Spawn(id)).value;
    var s2 := Next(false, s1, End(id)).value;
    var s3 := Next(false, s2, RemoveSelf(id)).value;
    var s4 := Next(false, s3, Insert(id)).value;
    states := [INITIAL, s1, s2, s3, s4];
  }

  predicate DeadButListed(s: State, id: TunnelId) {
    id in s.active && id in s.tasks && s.tasks[id].Removed?
  }

  lemma StaysDead(s: State, action: Action, s': State, id: TunnelId)
    requires DeadButListed(s, id) && Next(false, s, action) == Some(s') && action != Stop(id)
    ensures DeadButListed(s', id)
  {
  }

  /** And nothing but an explicit stop ever takes it off the list. */
  lemma {:induction false} DeadTunnelStays(states: seq<State>, actions: seq<Action>, k: nat, m: nat, id: TunnelId)
    requires Run(false, states, actions) && k <= m < |states| && DeadButListed(states[k], id)
    requires forall i | k <= i < m :: actions[i] != Stop(id)
    ensures DeadButListed(states[m], id)
  {
    if k < m {
      DeadTunnelStays(states, actions, k, m - 1, id);
      assert Next(false, states[m - 1], actions[m - 1]) == Some(states[m - 1 + 1]);
      StaysDead(states[m - 1], actions[m - 1], states[m], id);
    }
  }
}
