/** Connecting through a chain of jump hosts: each hop forgets its pending key, then the hop before it connects. */
module JumpChain {
  import opened Basics
  import opened HostKeys

  datatype Profile = Profile(id: HostPort, jump: Option<Profile>)

  /** The chain from the target to the outermost jump host. */
  function Hops(p: Profile): (r: seq<HostPort>)
    ensures r != [] && r[0] == p.id
  {
    [p.id] + if p.jump.Some? then Hops(p.jump.value) else []
  }

  datatype Failure = KeyRefused(refusal: Refusal) | NoConnection | NotAuthenticated

  datatype Step = Forgot(host: HostPort) | Verified(host: HostPort)

  /** What a connect that goes all the way does. */
  function AllSteps(p: Profile): seq<Step> {
    [Forgot(p.id)] + (if p.jump.Some? then AllSteps(p.jump.value) else []) + [Verified(p.id)]
  }

  /** Every hop is forgotten, target first, before any key is checked, outermost first. */
  lemma {:induction false} ForgetsFirst(p: Profile, j: nat)
    requires j < |AllSteps(p)|
    ensures |AllSteps(p)| == 2 * |Hops(p)|
    ensures AllSteps(p)[j] == if j < |Hops(p)| then Forgot(Hops(p)[j]) else Verified(Hops(p)[2 * |Hops(p)| - 1 - j])
  {
    if p.jump.Some? {
      var next := p.jump.value;
      var inner := AllSteps(next);
      ForgetsFirst(next, if 1 <= j <= |inner| then j - 1 else 0);
      assert AllSteps(p) == [Forgot(p.id)] + inner + [Verified(p.id)];
      assert Hops(p) == [p.id] + Hops(next);
    }
  }

  /**
   * One connect. Afterwards the chain's pending keys are exactly the one that this attempt refused as
   * unknown or changed, or none; other hosts and the recorded keys are as before.
   */
  method Connect(keys: KnownHosts, p: Profile)
    returns (r: Result<(), Failure>, refused: Option<(HostPort, Key)>, steps: seq<Step>)
    modifies keys
    ensures forall host | host in Hops(p) :: host in keys.state.pending <==> refused.Some? && refused.value.0 == host
    ensures refused.Some? ==>
      && refused.value.0 in Hops(p) && keys.state.pending[refused.value.0].key == refused.value.1
      && steps != [] && steps[|steps| - 1] == Verified(refused.value.0)
    ensures refused.Some? <==> r.Err? && r.error.KeyRefused? && !r.error.refusal.CannotRead?
    ensures forall host | host !in Hops(p) ::
      && (host in keys.state.pending <==> host in old(keys.state).pending)
      && (host in keys.state.pending ==> keys.state.pending[host] == old(keys.state).pending[host])
    ensures keys.state.recorded == old(keys.state).recorded
    ensures |Hops(p)| <= |steps| && steps <= AllSteps(p) && (r.Ok? ==> steps == AllSteps(p))
    decreases p
  {
    refused := None;
    keys.ForgetPending(p.id);
    steps := [Forgot(p.id)];
    if p.jump.Some? {
      var rest;
      r, refused, rest := Connect(keys, p.jump.value);
      steps := steps + rest;
      if r.Err? { return; }
    }
    if * { return Err(NoConnection), None, steps; }
    var key: Key :| true;
    var readable := *;
    var verdict := keys.VerifyHostKey(p.id, key, readable);
    steps := steps + [Verified(p.id)];
    if verdict.Err? {
      r := Err(KeyRefused(verdict.error));
      refused := if verdict.error.CannotRead? then None else Some((p.id, key));
      return;
    }
    if * { return Err(NotAuthenticated), None, steps; }
    return Ok(()), None, steps;
  }
}
