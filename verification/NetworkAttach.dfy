/**
 Attaching a container to a network that the swarm manager creates on demand
 (moby/daemon/container_operations.go): attach, look the network up, and undo and retry if it has
 disappeared in between.
 */
module NetworkAttach {
  import opened Wrappers

  const MAX_RETRIES := 5

  datatype Network = Network(name: string, dynamic: bool)

  datatype LookupError = NoSuchNetwork | Other

  datatype Error = LookupFailed(error: LookupError) | AlreadyAttached | AttachFailed | GaveUp

  /** An attachment may come with a networking configuration. */
  type Attachment = Option<string>

  /** The answers of the cluster provider and of network lookup, by call. */
  datatype Answers = Answers(attach: nat -> Result<Attachment, ()>, find: nat -> Result<Network, LookupError>)

  datatype Container = Container(managed: bool, attachedTo: set<string>)

  /** The round failed in the way that is worth a retry: attached with a configuration, then no such network. */
  predicate Vanished(a: Answers, k: nat) {
    a.attach(k).Ok? && a.attach(k).value.Some? && a.find(k) == Err(NoSuchNetwork)
  }

  /** The round that decides: all before it vanished, and it did not or the retries are used up. */
  ghost predicate Decides(a: Answers, k: nat) {
    k <= MAX_RETRIES && (forall j :: 0 <= j < k ==> Vanished(a, j)) && (k == MAX_RETRIES || !Vanished(a, k))
  }

  /** What a deciding round returns. */
  function Outcome(a: Answers, k: nat): Result<(Network, Attachment), Error> {
    if a.attach(k).Err? then Err(AttachFailed)
    else if a.find(k).Ok? then Ok((a.find(k).value, a.attach(k).value))
    else if Vanished(a, k) then Err(GaveUp)
    else Err(LookupFailed(a.find(k).error))
  }

  class Cluster {
    var attachCalls: nat
    var attached: nat
    var detachCalls: nat
    var hasSwarmEndpoint: bool

    constructor ()
      ensures attachCalls == attached == detachCalls == 0 && !hasSwarmEndpoint
    {
      attachCalls, attached, detachCalls, hasSwarmEndpoint := 0, 0, 0, false;
    }

    method AttachNetwork(a: Answers, k: nat) returns (r: Result<Attachment, ()>)
      modifies this`attachCalls, this`attached
      ensures r == a.attach(k) && attachCalls == old(attachCalls) + 1
      ensures attached == old(attached) + if r.Ok? then 1 else 0
    {
      attachCalls := attachCalls + 1;
      r := a.attach(k);
      if r.Ok? {
        attached := attached + 1;
      }
    }

    /** The rounds of attach, look up, detach and retry. */
    method AttachLoop(a: Answers) returns (r: Result<(Network, Attachment), Error>, ghost k: nat)
      modifies this
      ensures Decides(a, k) && r == Outcome(a, k) && attachCalls == old(attachCalls) + k + 1
      ensures attachCalls - old(attachCalls) <= 6
      ensures attached - detachCalls == old(attached - detachCalls) + if r.Ok? then 1 else 0
      ensures hasSwarmEndpoint == (old(hasSwarmEndpoint) || r.Ok?)
      // it gives up in the sixth round and not before
      ensures attachCalls - old(attachCalls) == 6 <==> forall j :: 0 <= j < 5 ==> Vanished(a, j)
      ensures r == Err(GaveUp) <==> forall j :: 0 <= j < 6 ==> Vanished(a, j)
      // and hands on what the last round answered
      ensures r.Ok? ==> a.find(k) == Ok(r.value.0) && a.attach(k) == Ok(r.value.1)
      ensures r.Err? && r.error != GaveUp ==>
                if a.attach(k).Err? then r.error == AttachFailed
                else r.error.LookupFailed? && a.find(k) == Err(r.error.error)
    {
      var retryCount := 0;
      while true
        invariant 0 <= retryCount <= MAX_RETRIES
        invariant attachCalls == old(attachCalls) + retryCount
        invariant attached - detachCalls == old(attached - detachCalls)
        invariant forall j :: 0 <= j < retryCount ==> Vanished(a, j)
        invariant hasSwarmEndpoint == old(hasSwarmEndpoint)
        decreases MAX_RETRIES - retryCount
      {
        k := retryCount;
        var nwCfg := AttachNetwork(a, retryCount);
        assert Vanished(a, k) ==> nwCfg.Ok?;
        if nwCfg.Err? {
          return Err(AttachFailed), k;
        }
        var n := a.find(retryCount);
        if n.Ok? {
          hasSwarmEndpoint := true;
          return Ok((n.value, nwCfg.value)), k;
        }
        detachCalls := detachCalls + 1;
        if nwCfg.value.Some? && n.error == NoSuchNetwork {
          if retryCount >= MAX_RETRIES {
            return Err(GaveUp), k;
          }
          retryCount := retryCount + 1;
        } else {
          return Err(LookupFailed(n.error)), k;
        }
      }
    }

    /** The whole operation with a cluster provider; `first` answers the lookup before any attachment. */
    method FindAndAttachNetwork(ctr: Container, first: Result<Network, LookupError>, a: Answers)
      returns (r: Result<(Network, Attachment), Error>)
      modifies this
      ensures var calls := attachCalls - old(attachCalls);
              && 0 <= calls <= 6
              && attached - detachCalls == old(attached - detachCalls) + (if r.Ok? && calls > 0 then 1 else 0)
              && hasSwarmEndpoint == (old(hasSwarmEndpoint) || (r.Ok? && calls > 0))
              && (calls > 0 ==> exists k: nat :: Decides(a, k) && r == Outcome(a, k) && calls == k + 1)
      ensures attachCalls == old(attachCalls) <==>
                ctr.managed || (first.Ok? && (!first.value.dynamic || first.value.name in ctr.attachedTo))
      ensures first.Err? && ctr.managed ==> r == Err(LookupFailed(first.error))
      ensures first.Ok? && (ctr.managed || !first.value.dynamic) ==> r == Ok((first.value, None))
      ensures first.Ok? && !ctr.managed && first.value.dynamic && first.value.name in ctr.attachedTo ==>
                r == Err(AlreadyAttached)
    {
      if first.Err? && ctr.managed {
        return Err(LookupFailed(first.error));
      }
      if first.Ok? {
        if ctr.managed || !first.value.dynamic {
          return Ok((first.value, None));
        }
        if first.value.name in ctr.attachedTo {
          return Err(AlreadyAttached);
        }
      }
      ghost var k;
      r, k := AttachLoop(a);
    }
  }
}
