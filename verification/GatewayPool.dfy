/** The pool of internal/proxy/gateway.go, which takes a breaker permit and a backend slot for
    every proxied request. */
module GatewayPools {
  import opened Options
  import opened CircuitBreaker
  import opened Balancer

  datatype Upstream = Upstream(backend: Backend, target: string)

  datatype AcquireError = Refused(why: Rejection) | NoHealthyBackends

  class GatewayPool {
    const balancer: Pool
    const breaker: Breaker
    const upstreams: seq<Upstream>

    ghost predicate Valid()
      reads balancer
    {
      && balancer.Valid() && ValidConfig(breaker.cfg)
      && |upstreams| == |balancer.backends|
      && forall i | 0 <= i < |upstreams| :: upstreams[i].backend == balancer.backends[i]
    }

    /** Upstreams are built from the balancer's own backends, one for each. */
    constructor (balancer: Pool, breaker: Breaker, targets: seq<string>)
      requires balancer.Valid() && ValidConfig(breaker.cfg) && |targets| == |balancer.backends|
      ensures Valid() && this.balancer == balancer && this.breaker == breaker
      ensures forall i | 0 <= i < |targets| :: upstreams[i] == Upstream(balancer.backends[i], targets[i])
    {
      this.balancer, this.breaker := balancer, breaker;
      upstreams := seq(|targets|, i requires 0 <= i < |targets| => Upstream(balancer.backends[i], targets[i]));
    }

    /** Takes both resources or neither. On success the upstream is the `i`-th one, selected as the
        balancer's strategy promises, and its backend counts one more connection. A failure
        leaves connections and cursor alone, and the breaker holds no probe slot for it: it is at most
        awakened from an expired open phase. */
    method Acquire(now: int) returns (r: Result<(Upstream, Permit), AcquireError>, ghost i: nat)
      requires Valid()
      modifies breaker, balancer`next, balancer.backends
      ensures Valid() && balancer.Health() == old(balancer.Health())
      ensures var (core, verdict) := AcquireCore(breaker.cfg, old(breaker.Snapshot()), now);
              match r
              case Err(Refused(why)) => verdict == Err(why)
              case Err(NoHealthyBackends) => verdict.Ok? && forall k | 0 <= k < |upstreams| :: !balancer.Health()[k]
              case Ok((u, p)) =>
                && verdict.Ok? && breaker.Snapshot() == core
                && fresh(p) && p.breaker == breaker && p.ticket == verdict.value && !p.used
                && i < |upstreams| && u == upstreams[i]
                && Selected(balancer.strategy, old(balancer.Health()), old(balancer.Active()),
                            old(balancer.next), balancer.next, i)
                && balancer.Active() == old(balancer.Active())[i := old(balancer.Active())[i] + 1]
      ensures r.Err? ==>
        && breaker.Snapshot() == Awakened(breaker.cfg, old(breaker.Snapshot()), now)
        && balancer.Active() == old(balancer.Active()) && balancer.next == old(balancer.next)
    {
      i := 0;
      var admitted := breaker.Acquire(now);
      assert balancer.Health() == old(balancer.Health()) && balancer.Active() == old(balancer.Active());
      if admitted.Err? {
        return Err(Refused(admitted.error)), i;
      }
      r, i := Dispatch(admitted.value, old(breaker.Snapshot()), now);
    }

    /** The rest of Acquire once the permit is taken: `core` is the breaker as it was before. */
    method Dispatch(permit: Permit, ghost core: Core, ghost now: int)
      returns (r: Result<(Upstream, Permit), AcquireError>, ghost i: nat)
      requires Valid() && permit.breaker == breaker && !permit.used
      requires AcquireCore(breaker.cfg, core, now) == (breaker.Snapshot(), Ok(permit.ticket))
      modifies permit, breaker, balancer`next, balancer.backends
      ensures Valid() && balancer.Health() == old(balancer.Health())
      ensures match r
              case Err(e) =>
                && e == NoHealthyBackends && breaker.Snapshot() == Awakened(breaker.cfg, core, now)
                && balancer.Active() == old(balancer.Active()) && balancer.next == old(balancer.next)
                && forall k | 0 <= k < |upstreams| :: !balancer.Health()[k]
              case Ok((u, p)) =>
                && breaker.Snapshot() == old(breaker.Snapshot()) && p == permit && !p.used
                && i < |upstreams| && u == upstreams[i]
                && Selected(balancer.strategy, old(balancer.Health()), old(balancer.Active()),
                            old(balancer.next), balancer.next, i)
                && balancer.Active() == old(balancer.Active())[i := old(balancer.Active())[i] + 1]
    {
      var taken;
      taken, i := TakeUpstream();
      if taken == None {
        permit.Cancel();
        return Err(NoHealthyBackends), i;
      }
      return Ok((taken.value, permit)), i;
    }

    /** One more connection on the selected backend, that of the `i`-th upstream, or no change at all. */
    method TakeUpstream() returns (r: Option<Upstream>, ghost i: nat)
      requires Valid()
      modifies balancer`next, balancer.backends
      ensures Valid() && balancer.Health() == old(balancer.Health())
      ensures match r
              case None =>
                && balancer.Active() == old(balancer.Active()) && balancer.next == old(balancer.next)
                && forall k | 0 <= k < |upstreams| :: !balancer.Health()[k]
              case Some(u) =>
                && i < |upstreams| && u == upstreams[i]
                && Selected(balancer.strategy, old(balancer.Health()), old(balancer.Active()),
                            old(balancer.next), balancer.next, i)
                && balancer.Active() == old(balancer.Active())[i := old(balancer.Active())[i] + 1]
    {
      i := 0;
      var taken := balancer.Acquire();
      if taken == None {
        return None, i;
      }
      i := taken.value;
      ghost var active := balancer.Active();
      var upstream := FindUpstream(taken.value);
      assert balancer.Active() == active;
      return Some(upstream), i;
    }

    /** The upstream of the balancer's `i`-th backend. The search always succeeds, so the fallback
        that gives both resources back is unreachable. */
    method FindUpstream(i: nat) returns (u: Upstream)
      requires Valid() && i < |upstreams|
      ensures u == upstreams[i]
    {
      var backend, k := balancer.backends[i], 0;
      u := upstreams[0];
      while k < |upstreams|
        invariant 0 <= k <= i
      {
        if upstreams[k].backend == backend {
          return upstreams[k];
        }
        k := k + 1;
      }
      assert false;
    }
  }
}
