/**
 * Known hosts: a key is accepted only when it is recorded; a refused key is kept as pending, and a
 * pending key of an unknown host becomes recorded when the user confirms its fingerprint.
 */
module HostKeys {
  import opened Basics

  type Key = nat
  type Fingerprint = string
  type Hash = Key -> Fingerprint

  /** A known_hosts line that names the host. */
  datatype Entry = Entry(line: nat, key: Key)

  datatype Pending = Pending(key: Key, fingerprint: Fingerprint, changedLine: Option<nat>)

  datatype State = State(pending: map<HostPort, Pending>, recorded: map<HostPort, seq<Entry>>)

  datatype Refusal = CannotRead | Unknown(fp: Fingerprint) | Changed(line: nat, fp: Fingerprint)

  /** One call; whether the file can be read or written, and the line a new entry gets, are the world's choice. */
  datatype Op =
    | Verify(host: HostPort, key: Key, readable: bool)
    | Forget(host: HostPort)
    | Trust(host: HostPort, confirmed: Fingerprint, line: nat, writable: bool)

  function Recorded(s: State, host: HostPort): seq<Entry> {
    if host in s.recorded then s.recorded[host] else []
  }

  predicate Accepts(entries: seq<Entry>, key: Key) {
    exists i | 0 <= i < |entries| :: entries[i].key == key
  }

  function FirstLine(entries: seq<Entry>): Option<nat> {
    if entries == [] then None else Some(entries[0].line)
  }

  function Remember(hash: Hash, s: State, host: HostPort, key: Key, changedLine: Option<nat>): State {
    s.(pending := s.pending[host := Pending(key, hash(key), changedLine)])
  }

  predicate Trustable(s: State, host: HostPort, confirmed: Fingerprint) {
    host in s.pending && s.pending[host].changedLine.None? && s.pending[host].fingerprint == confirmed
  }

  /** The state after one call. */
  function Apply(hash: Hash, s: State, op: Op): State {
    match op
    case Verify(host, key, readable) =>
      if !readable || Accepts(Recorded(s, host), key) then s
      else Remember(hash, s, host, key, FirstLine(Recorded(s, host)))
    case Forget(host) => s.(pending := s.pending - {host})
    case Trust(host, confirmed, line, writable) =>
      if !writable || !Trustable(s, host, confirmed) then s
      else State(s.pending - {host}, s.recorded[host := Recorded(s, host) + [Entry(line, s.pending[host].key)]])
  }

  class KnownHosts {
    var state: State
    const hash: Hash

    constructor (recorded: map<HostPort, seq<Entry>>, hash: Hash)
      ensures state == State(map[], recorded) && this.hash == hash
    {
      state, this.hash := State(map[], recorded), hash;
    }

    /** Ok exactly when the file can be read and records this key; otherwise the key becomes pending. */
    method VerifyHostKey(host: HostPort, key: Key, readable: bool) returns (r: Result<(), Refusal>)
      modifies this
      ensures state == Apply(hash, old(state), Verify(host, key, readable))
      ensures r.Ok? <==> readable && Accepts(Recorded(old(state), host), key)
      ensures r.Err? ==> (r.error.CannotRead? <==> !readable)
      ensures r.Err? ==> (r.error.Unknown? <==> readable && Recorded(old(state), host) == [])
      ensures r.Err? && r.error.Changed? ==>
        Recorded(old(state), host) != [] && Recorded(old(state), host)[0].line == r.error.line
      ensures r.Err? && !r.error.CannotRead? ==>
        r.error.fp == hash(key) && host in state.pending && state.pending[host].key == key
    {
      if !readable { return Err(CannotRead); }
      var entries := Recorded(state, host);
      var i := 0;
      while i < |entries|
        invariant i <= |entries| && forall j | 0 <= j < i :: entries[j].key != key
      {
        if entries[i].key == key { return Ok(()); }
        i := i + 1;
      }
      var changedLine := FirstLine(entries);
      state := Remember(hash, state, host, key, changedLine);
      match changedLine {
        case Some(line) => return Err(Changed(line, hash(key)));
        case None => return Err(Unknown(hash(key)));
      }
    }

    method ForgetPending(host: HostPort)
      modifies this
      ensures state == Apply(hash, old(state), Forget(host))
    {
      state := state.(pending := state.pending - {host});
    }

    method TrustPending(host: HostPort, confirmed: Fingerprint, line: nat, writable: bool) returns (ok: bool)
      modifies this
      ensures state == Apply(hash, old(state), Trust(host, confirmed, line, writable))
      ensures ok <==> writable && Trustable(old(state), host, confirmed)
    {
      if host !in state.pending { return false; }
      var entry := state.pending[host];
      if entry.changedLine.Some? { return false; }
      if entry.fingerprint != confirmed { return false; }
      if !writable { return false; }
      state := State(state.pending - {host}, state.recorded[host := Recorded(state, host) + [Entry(line, entry.key)]]);
      return true;
    }
  }

  // ----- Every run of calls on one file -----

  ghost predicate Run(hash: Hash, states: seq<State>, ops: seq<Op>) {
    |states| == |ops| + 1 && states[0].pending == map[]
    && forall i | 0 <= i < |ops| :: states[i + 1] == Apply(hash, states[i], ops[i])
  }

  /** A pending unknown key means that the host has no recorded key. */
  ghost predicate PendingUnknownIsUnrecorded(s: State) {
    forall host | host in s.pending && s.pending[host].changedLine.None? :: Recorded(s, host) == []
  }

  /** `key` was refused for `host` at step i, and up to step k no other refusal or forget touched the host. */
  ghost predicate LastRefused(states: seq<State>, ops: seq<Op>, i: nat, k: nat, host: HostPort, key: Key)
    requires i < k <= |ops| && |states| == |ops| + 1
  {
    ops[i] == Verify(host, key, true) && !Accepts(Recorded(states[i], host), key)
    && forall j | i < j < k :: !Touches(states[j], ops[j], host)
  }

  /** The call refuses a key of the host, forgets its pending key, or records it. */
  predicate Touches(s: State, op: Op, host: HostPort) {
    op.host == host
    && match op
       case Verify(_, key, readable) => readable && !Accepts(Recorded(s, host), key)
       case Forget(_) => true
       case Trust(_, confirmed, _, writable) => writable && Trustable(s, host, confirmed)
  }

  lemma UntouchedPending(hash: Hash, s: State, op: Op, host: HostPort)
    requires !Touches(s, op, host)
    ensures var s' := Apply(hash, s, op);
      && (host in s'.pending <==> host in s.pending)
      && (host in s.pending ==> s'.pending[host] == s.pending[host])
      && Recorded(s', host) == Recorded(s, host)
  {
  }

  lemma {:induction false} InvariantHolds(hash: Hash, states: seq<State>, ops: seq<Op>, k: nat)
    requires Run(hash, states, ops) && k <= |ops|
    ensures PendingUnknownIsUnrecorded(states[k])
  {
    if k > 0 {
      InvariantHolds(hash, states, ops, k - 1);
      assert states[k - 1 + 1] == Apply(hash, states[k - 1], ops[k - 1]);
    }
  }

  /** Whatever is pending is the last key refused, with its own fingerprint. */
  lemma {:induction false} PendingIsLastRefused(hash: Hash, states: seq<State>, ops: seq<Op>, k: nat, host: HostPort)
    requires Run(hash, states, ops) && k <= |ops| && host in states[k].pending
    ensures states[k].pending[host].fingerprint == hash(states[k].pending[host].key)
    ensures exists i | 0 <= i < k :: LastRefused(states, ops, i, k, host, states[k].pending[host].key)
  {
    var s, op := states[k - 1], ops[k - 1];
    assert states[k - 1 + 1] == Apply(hash, s, op);
    if Touches(s, op, host) {
      assert LastRefused(states, ops, k - 1, k, host, states[k].pending[host].key);
    } else {
      UntouchedPending(hash, s, op, host);
      PendingIsLastRefused(hash, states, ops, k - 1, host);
      var i :| 0 <= i < k - 1 && LastRefused(states, ops, i, k - 1, host, states[k].pending[host].key);
      assert LastRefused(states, ops, i, k, host, states[k].pending[host].key);
    }
  }

  /** The key was refused, nothing else happened to the host, and then its fingerprint was confirmed. */
  ghost predicate Confirmed(hash: Hash, states: seq<State>, ops: seq<Op>, j: nat, host: HostPort, key: Key)
    requires j < |ops| && |states| == |ops| + 1
  {
    ops[j].Trust? && ops[j].host == host && ops[j].confirmed == hash(key)
    && exists i | 0 <= i < j :: LastRefused(states, ops, i, j, host, key)
  }

  /**
   * Over every run: a host with recorded keys never gains one; any other gains at most one, and that
   * is the last key refused before the call that confirmed its fingerprint.
   */
  lemma {:induction false} GainsAtMostOne(hash: Hash, states: seq<State>, ops: seq<Op>, k: nat, host: HostPort)
    requires Run(hash, states, ops) && k <= |ops|
    ensures Recorded(states[0], host) != [] ==> Recorded(states[k], host) == Recorded(states[0], host)
    ensures Recorded(states[0], host) == [] ==> |Recorded(states[k], host)| <= 1
    ensures Recorded(states[0], host) == [] && Recorded(states[k], host) != [] ==>
      exists j | 0 <= j < k :: Confirmed(hash, states, ops, j, host, Recorded(states[k], host)[0].key)
  {
    if k > 0 {
      var s, op := states[k - 1], ops[k - 1];
      GainsAtMostOne(hash, states, ops, k - 1, host);
      InvariantHolds(hash, states, ops, k - 1);
      assert states[k - 1 + 1] == Apply(hash, s, op);
      if Recorded(states[k], host) != Recorded(s, host) {
        PendingIsLastRefused(hash, states, ops, k - 1, host);
        assert Recorded(states[k], host) == [Entry(op.line, s.pending[host].key)];
        var key := Recorded(states[k], host)[0].key;
        assert Confirmed(hash, states, ops, k - 1, host, key);
      }
    }
  }

  /** A key that is accepted once stays accepted. */
  lemma {:induction false} AcceptedStaysAccepted(hash: Hash, states: seq<State>, ops: seq<Op>, k: nat, m: nat,
      host: HostPort, key: Key)
    requires Run(hash, states, ops) && k <= m <= |ops| && Accepts(Recorded(states[k], host), key)
    ensures Accepts(Recorded(states[m], host), key)
  {
    if k < m {
      AcceptedStaysAccepted(hash, states, ops, k, m - 1, host, key);
      assert states[m - 1 + 1] == Apply(hash, states[m - 1], ops[m - 1]);
      var before, after := Recorded(states[m - 1], host), Recorded(states[m], host);
      assert before <= after;
      var i :| 0 <= i < |before| && before[i].key == key;
      assert after[i].key == key;
    }
  }

  // ----- Calls at once: verify reads the file before it takes the lock -----

  type CallId = nat

  /** A verify that has read the file and refused the key, but has not recorded it as pending yet. */
  datatype Half = Half(host: HostPort, key: Key, changedLine: Option<nat>)

  datatype World = World(state: State, open: map<CallId, Half>)

  datatype Action =
    | Begin(call: CallId, host: HostPort, key: Key, readable: bool)
    | Finish(call: CallId)
    | Other(op: Op) // forget or trust, under the lock

  function Next(hash: Hash, w: World, action: Action): Option<World> {
    match action
    case Begin(call, host, key, readable) =>
      if call in w.open then None
      else if !readable || Accepts(Recorded(w.state, host), key) then Some(w)
      else Some(w.(open := w.open[call := Half(host, key, FirstLine(Recorded(w.state, host)))]))
    case Finish(call) =>
      if call !in w.open then None
      else
        var half := w.open[call];
        Some(World(Remember(hash, w.state, half.host, half.key, half.changedLine), w.open - {call}))
    case Other(op) => if op.Verify? then None else Some(w.(state := Apply(hash, w.state, op)))
  }

  ghost predicate Overlapping(hash: Hash, worlds: seq<World>, actions: seq<Action>) {
    |worlds| == |actions| + 1 && worlds[0].state.pending == map[] && worlds[0].open == map[]
    && forall i | 0 <= i < |actions| :: Next(hash, worlds[i], actions[i]) == Some(worlds[i + 1])
  }

  /** What was read still holds: no key has been recorded for a host that had none. */
  predicate StillTrue(s: State, half: Half) {
    half.changedLine.None? ==> Recorded(s, half.host) == []
  }

  /** The step does not finish a verify whose reading is out of date. */
  predicate Timely(w: World, action: Action) {
    action.Finish? && action.call in w.open ==> StillTrue(w.state, w.open[action.call])
  }

  ghost predicate AllTimely(worlds: seq<World>, actions: seq<Action>)
    requires |worlds| == |actions| + 1
  {
    forall i | 0 <= i < |actions| :: Timely(worlds[i], actions[i])
  }

  /** Without overlap every call is timely: a begin, and its finish if the key was refused, are one verify. */
  lemma AloneIsTimely(hash: Hash, s: State, call: CallId, host: HostPort, key: Key, readable: bool)
    ensures var w := World(s, map[]);
      var begun := Next(hash, w, Begin(call, host, key, readable)).value;
      var whole := World(Apply(hash, s, Verify(host, key, readable)), map[]);
      && Next(hash, w, Begin(call, host, key, readable)).Some?
      && (call in begun.open <==> readable && !Accepts(Recorded(s, host), key))
      && if call in begun.open then Timely(begun, Finish(call)) && Next(hash, begun, Finish(call)) == Some(whole)
         else begun == whole
  {
    assert (map[call := Half(host, key, FirstLine(Recorded(s, host)))]) - {call} == map[];
  }

  /**
   * Finishing a verify keeps the invariant exactly when what it read still holds; and a confirmation
   * that follows adds a key to a host that has some exactly when it does not.
   */
  lemma FinishVerifyIff(hash: Hash, s: State, half: Half, line: nat)
    requires PendingUnknownIsUnrecorded(s)
    ensures var s' := Remember(hash, s, half.host, half.key, half.changedLine);
      var s'' := Apply(hash, s', Trust(half.host, hash(half.key), line, true));
      && (PendingUnknownIsUnrecorded(s') <==> StillTrue(s, half))
      && (Recorded(s', half.host) != [] && Recorded(s'', half.host) != Recorded(s', half.host) <==> !StillTrue(s, half))
  {
    var s' := Remember(hash, s, half.host, half.key, half.changedLine);
    assert half.host in s'.pending;
    assert |Recorded(s, half.host) + [Entry(line, half.key)]| > |Recorded(s, half.host)|;
  }

  lemma {:induction false} OverlapInvariant(hash: Hash, worlds: seq<World>, actions: seq<Action>, k: nat)
    requires Overlapping(hash, worlds, actions) && AllTimely(worlds, actions) && k <= |actions|
    ensures PendingUnknownIsUnrecorded(worlds[k].state)
  {
    if k > 0 {
      OverlapInvariant(hash, worlds, actions, k - 1);
      assert Next(hash, worlds[k - 1], actions[k - 1]) == Some(worlds[k - 1 + 1]);
      assert Timely(worlds[k - 1], actions[k - 1]);
    }
  }

  /** The step leaves the host's pending key and its recorded keys alone. */
  predicate Leaves(w: World, action: Action, host: HostPort) {
    match action
    case Begin(_, _, _, _) => true
    case Finish(call) => call in w.open ==> w.open[call].host != host
    case Other(op) => !Touches(w.state, op, host)
  }

  /** The pending key was put there by the finish at step i, and nothing has touched the host since. */
  ghost predicate PutThere(worlds: seq<World>, actions: seq<Action>, i: nat, k: nat, host: HostPort, key: Key)
    requires i < k <= |actions| && |worlds| == |actions| + 1
  {
    && actions[i].Finish? && actions[i].call in worlds[i].open
    && worlds[i].open[actions[i].call].host == host && worlds[i].open[actions[i].call].key == key
    && forall j | i < j < k :: Leaves(worlds[j], actions[j], host)
  }

  lemma LeftAlone(hash: Hash, w: World, action: Action, w': World, host: HostPort)
    requires Next(hash, w, action) == Some(w') && Leaves(w, action, host)
    ensures host in w'.state.pending <==> host in w.state.pending
    ensures host in w.state.pending ==> w'.state.pending[host] == w.state.pending[host]
    ensures Recorded(w'.state, host) == Recorded(w.state, host)
  {
  }

  /** Whatever is pending is the key of the last verify that finished, with its own fingerprint. */
  lemma {:induction false} PendingWasPutThere(hash: Hash, worlds: seq<World>, actions: seq<Action>, k: nat,
      host: HostPort)
    requires Overlapping(hash, worlds, actions) && k <= |actions| && host in worlds[k].state.pending
    ensures var entry := worlds[k].state.pending[host];
      && entry.fingerprint == hash(entry.key)
      && exists i | 0 <= i < k :: PutThere(worlds, actions, i, k, host, entry.key)
  {
    var w, action := worlds[k - 1], actions[k - 1];
    assert Next(hash, w, action) == Some(worlds[k - 1 + 1]);
    var key := worlds[k].state.pending[host].key;
    if Leaves(w, action, host) {
      LeftAlone(hash, w, action, worlds[k], host);
      PendingWasPutThere(hash, worlds, actions, k - 1, host);
      var i :| 0 <= i < k - 1 && PutThere(worlds, actions, i, k - 1, host, key);
      assert PutThere(worlds, actions, i, k, host, key);
    } else {
      assert PutThere(worlds, actions, k - 1, k, host, key);
    }
  }

  /** The key was pending from the last finished verify when its fingerprint was confirmed. */
  ghost predicate ConfirmedThen(hash: Hash, worlds: seq<World>, actions: seq<Action>, j: nat, host: HostPort, key: Key)
    requires j < |actions| && |worlds| == |actions| + 1
  {
    actions[j].Other? && actions[j].op.Trust? && actions[j].op.host == host && actions[j].op.confirmed == hash(key)
    && exists i | 0 <= i < j :: PutThere(worlds, actions, i, j, host, key)
  }

  /** Only a confirmation adds a key, and then the one that is pending. */
  lemma GainedByTrust(hash: Hash, w: World, action: Action, w': World, host: HostPort)
    requires Next(hash, w, action) == Some(w') && PendingUnknownIsUnrecorded(w.state)
    requires Recorded(w'.state, host) != Recorded(w.state, host)
    ensures action.Other? && action.op.Trust? && action.op.host == host && host in w.state.pending
    ensures action.op.confirmed == w.state.pending[host].fingerprint
    ensures Recorded(w.state, host) == []
    ensures Recorded(w'.state, host) == [Entry(action.op.line, w.state.pending[host].key)]
  {
  }

  /**
   * Over every interleaving in which no verify finishes out of date: a host with recorded keys never gains
   * one; any other gains at most one, the key of the last verify finished before its fingerprint was confirmed.
   */
  lemma {:induction false} OverlapGainsAtMostOne(hash: Hash, worlds: seq<World>, actions: seq<Action>, k: nat,
      host: HostPort)
    requires Overlapping(hash, worlds, actions) && AllTimely(worlds, actions) && k <= |actions|
    ensures Recorded(worlds[0].state, host) != [] ==> Recorded(worlds[k].state, host) == Recorded(worlds[0].state, host)
    ensures Recorded(worlds[0].state, host) == [] ==> |Recorded(worlds[k].state, host)| <= 1
    ensures Recorded(worlds[0].state, host) == [] && Recorded(worlds[k].state, host) != [] ==>
      exists j | 0 <= j < k :: ConfirmedThen(hash, worlds, actions, j, host, Recorded(worlds[k].state, host)[0].key)
  {
    if k > 0 {
      var w, action := worlds[k - 1], actions[k - 1];
      OverlapGainsAtMostOne(hash, worlds, actions, k - 1, host);
      OverlapInvariant(hash, worlds, actions, k - 1);
      assert Next(hash, w, action) == Some(worlds[k - 1 + 1]);
      if Recorded(worlds[k].state, host) != Recorded(w.state, host) {
        GainedByTrust(hash, w, action, worlds[k], host);
        PendingWasPutThere(hash, worlds, actions, k - 1, host);
        assert ConfirmedThen(hash, worlds, actions, k - 1, host, Recorded(worlds[k].state, host)[0].key);
      }
    }
  }

  /** A key that is accepted once stays accepted, over every interleaving whatsoever. */
  lemma {:induction false} OverlapStaysAccepted(hash: Hash, worlds: seq<World>, actions: seq<Action>, k: nat, m: nat,
                                                host: HostPort, key: Key)
    requires Overlapping(hash, worlds, actions) && k <= m <= |actions|
    requires Accepts(Recorded(worlds[k].state, host), key)
    ensures Accepts(Recorded(worlds[m].state, host), key)
  {
    if k < m {
      OverlapStaysAccepted(hash, worlds, actions, k, m - 1, host, key);
      assert Next(hash, worlds[m - 1], actions[m - 1]) == Some(worlds[m - 1 + 1]);
      var before, after := Recorded(worlds[m - 1].state, host), Recorded(worlds[m].state, host);
      assert before <= after;
      var i :| 0 <= i < |before| && before[i].key == key;
      assert after[i].key == key;
    }
  }

  /** A run that is not timely: two connects see an unknown host, the first key is trusted, then the second. */
  lemma TwoKeysByInterleaving(hash: Hash, host: HostPort, first: Key, second: Key)
    returns (worlds: seq<World>, actions: seq<Action>)
    requires first != second
    ensures Overlapping(hash, worlds, actions) && !AllTimely(worlds, actions)
    ensures Recorded(worlds[0].state, host) == []
    ensures Recorded(worlds[|actions|].state, host) == [Entry(1, first), Entry(2, second)]
  {
    actions := [Begin(1, host, first, true), Begin(2, host, second, true), Finish(1),
                Other(Trust(host, hash(first), 1, true)), Finish(2), Other(Trust(host, hash(second), 2, true))];
    var w0 := World(State(map[], map[]), map[]);
    var w1 := Next(hash, w0, actions[0]).value;
    var w2 := Next(hash, w1, actions[1]).value;
    var w3 := Next(hash, w2, actions[2]).value;
    var w4 := Next(hash, w3, actions[3]).value;
    assert Recorded(w4.state, host) == [Entry(1, first)];
    assert !Timely(w4, actions[4]);
    var w5 := Next(hash, w4, actions[4]).value;
    var w6 := Next(hash, w5, actions[5]).value;
    worlds := [w0, w1, w2, w3, w4, w5, w6];
  }
}
