/** Two-resource conservation: the lifecycle of proxied requests on one pool. acquire() holds no
    lock across its parts, so each of its locked regions is a step of its own: taking the breaker
    permit (`Enter`), selecting a backend (`Select`) and cancelling the permit when there is none
    (`GiveBack`). Runs are arbitrary interleavings of these steps with reported outcomes and
    completions. What the balancer returns is an input of `Select`, so every strategy and every
    change of health is covered. A request completes after at least one outcome was reported. */
module GatewayRuns {
  import opened Options
  import opened CircuitBreaker
  import B = BreakerRuns

  datatype Stage =
    | Entering                                  // holds a permit, has not asked the balancer yet
    | Failing                                   // found no healthy backend, still holds its permit
    | Holding(backend: nat, reported: bool)     // proxied on a backend
    | Done

  /** One request for each permit ever issued, numbered alike. */
  datatype Gateway = Gateway(breaker: B.System, active: seq<nat>, requests: seq<Stage>)

  /** How the backend answered: with a status, or not at all. */
  datatype Reply = Status(code: int) | Broken

  /** A 5xx status and a broken exchange are failures to the breaker. */
  predicate Succeeds(reply: Reply) {
    reply.Status? && !(500 <= reply.code < 600)
  }

  datatype Event =
    | Enter(now: int)
    | Select(r: nat, chosen: Option<nat>)
    | GiveBack(r: nat, now: int)
    | Outcome(r: nat, reply: Reply, now: int)
    | Complete(r: nat)

  function Start(n: nat): Gateway {
    Gateway(B.START, seq(n, _ => 0), [])
  }

  /** The breaker events of a gateway event: at most one. */
  function BreakerEvents(g: Gateway, e: Event): seq<B.Event> {
    match e
    case Enter(now) => [B.Arrive(now)]
    case GiveBack(r, now) => if r < |g.requests| && g.requests[r].Failing? then [B.Withdraw(r, now)] else []
    case Outcome(r, reply, now) =>
      if r < |g.requests| && g.requests[r].Holding? then [B.Report(r, Succeeds(reply), now)] else []
    case _ => []
  }

  function BreakerStep(cfg: Config, s: B.System, es: seq<B.Event>): B.System {
    if es == [] then s else B.Step(cfg, s, es[0])
  }

  function Requests(g: Gateway, breaker: B.System, e: Event): seq<Stage> {
    match e
    case Enter(_) => if |breaker.permits| > |g.breaker.permits| then g.requests + [Entering] else g.requests
    case Select(r, chosen) =>
      if r >= |g.requests| || !g.requests[r].Entering? then g.requests
      else if chosen.None? || chosen.value >= |g.active| then g.requests[r := Failing]
      else g.requests[r := Holding(chosen.value, false)]
    case GiveBack(r, _) => if r < |g.requests| && g.requests[r].Failing? then g.requests[r := Done] else g.requests
    case Outcome(r, _, _) =>
      if r < |g.requests| && g.requests[r].Holding? then g.requests[r := g.requests[r].(reported := true)] else g.requests
    case Complete(r) =>
      if r < |g.requests| && g.requests[r].Holding? && g.requests[r].reported then g.requests[r := Done] else g.requests
  }

  /** Select counts one more connection; the deferred Release of serveRoute counts one less, never below zero. */
  function Connections(g: Gateway, e: Event): seq<nat> {
    match e
    case Select(r, chosen) =>
      if r < |g.requests| && g.requests[r].Entering? && chosen.Some? && chosen.value < |g.active|
      then g.active[chosen.value := g.active[chosen.value] + 1] else g.active
    case Complete(r) =>
      if r < |g.requests| && g.requests[r].Holding? && g.requests[r].reported then
        var b := g.requests[r].backend;
        if b < |g.active| && g.active[b] > 0 then g.active[b := g.active[b] - 1] else g.active
      else g.active
    case _ => g.active
  }

  function Step(cfg: Config, g: Gateway, e: Event): Gateway {
    var breaker := BreakerStep(cfg, g.breaker, BreakerEvents(g, e));
    Gateway(breaker, Connections(g, e), Requests(g, breaker, e))
  }

  function Run(cfg: Config, n: nat, es: seq<Event>): Gateway {
    if es == [] then Start(n) else Step(cfg, Run(cfg, n, es[..|es| - 1]), es[|es| - 1])
  }

  // ----- The breaker's share of a gateway run is a run of the breaker

  function BreakerTrace(cfg: Config, n: nat, es: seq<Event>): seq<B.Event> {
    if es == [] then []
    else
      var before := es[..|es| - 1];
      BreakerTrace(cfg, n, before) + BreakerEvents(Run(cfg, n, before), es[|es| - 1])
  }

  /** So everything proved of breaker runs holds of the breaker inside the gateway. */
  lemma {:induction false} BreakerRunsInside(cfg: Config, n: nat, es: seq<Event>)
    ensures Run(cfg, n, es).breaker == B.Run(cfg, BreakerTrace(cfg, n, es))
  {
    if es != [] {
      var before := es[..|es| - 1];
      BreakerRunsInside(cfg, n, before);
      StepInside(cfg, Run(cfg, n, before), BreakerTrace(cfg, n, before), es[|es| - 1]);
    }
  }

  lemma {:induction false} StepInside(cfg: Config, g: Gateway, trace: seq<B.Event>, e: Event)
    requires g.breaker == B.Run(cfg, trace)
    ensures Step(cfg, g, e).breaker == B.Run(cfg, trace + BreakerEvents(g, e))
  {
    var more := BreakerEvents(g, e);
    if more == [] {
      assert trace + more == trace;
    } else {
      assert more == [more[0]];
      B.RunSnoc(cfg, trace, more[0]);
    }
  }

  /** What the breaker hears of a gateway event. */
  ghost predicate Heard(e: Event, b: B.Event) {
    match e
    case Enter(now) => b == B.Arrive(now)
    case Select(_, _) => false
    case GiveBack(r, now) => b == B.Withdraw(r, now)
    case Outcome(r, Broken, now) => b == B.Report(r, false, now)
    case Outcome(r, Status(code), now) => b == B.Report(r, code < 500 || code >= 600, now)
    case Complete(_) => false
  }

  /** The breaker must hear of every arrival, of the outcomes of a request on a backend, and of a
      permit given back for want of one. */
  ghost predicate MustHear(g: Gateway, e: Event) {
    match e
    case Enter(_) => true
    case GiveBack(r, _) => r < |g.requests| && g.requests[r] == Failing
    case Outcome(r, _, _) => r < |g.requests| && g.requests[r].Holding?
    case _ => false
  }

  lemma {:induction false} HeardAsOne(g: Gateway, e: Event)
    ensures var more := BreakerEvents(g, e);
            if MustHear(g, e) then |more| == 1 && Heard(e, more[0]) else more == []
  {
  }

  /** The positions of the events the breaker must hear of. */
  ghost function Concerning(cfg: Config, n: nat, es: seq<Event>): set<nat> {
    set i | 0 <= i < |es| && MustHear(Run(cfg, n, es[..i]), es[i])
  }

  lemma {:induction false} ConcerningSnoc(cfg: Config, n: nat, es: seq<Event>, e: Event)
    ensures var must := Concerning(cfg, n, es);
            Concerning(cfg, n, es + [e]) == if MustHear(Run(cfg, n, es), e) then must + {|es|} else must
  {
    var all := es + [e];
    forall i | 0 <= i <= |es|
      ensures i in Concerning(cfg, n, all) <==>
              if i == |es| then MustHear(Run(cfg, n, es), e) else i in Concerning(cfg, n, es)
    {
      assert all[..i] == es[..i] && es[..|es|] == es;
    }
  }

  /** `heard[k]` is the position of the gateway event that the breaker heard as its `k`-th. */
  ghost predicate Transcribes(es: seq<Event>, must: set<nat>, trace: seq<B.Event>, heard: seq<nat>) {
    && |heard| == |trace|
    && (forall k | 0 <= k < |heard| :: heard[k] < |es| && Heard(es[heard[k]], trace[k]))
    && (forall j, k | 0 <= j < k < |heard| :: heard[j] < heard[k])
    && (forall i :: i in heard <==> i in must)
  }

  lemma {:induction false} TranscribesSnoc(
    es: seq<Event>, e: Event, must: set<nat>, trace: seq<B.Event>, b: B.Event, heard: seq<nat>)
    requires Transcribes(es, must, trace, heard) && Heard(e, b)
    ensures Transcribes(es + [e], must + {|es|}, trace + [b], heard + [|es|])
  {
  }

  /** The breaker hears of every event that concerns it and of nothing else, in order, with the same
      instants, and with success exactly for replies outside 5xx. */
  lemma {:induction false} BreakerHearsExactly(cfg: Config, n: nat, es: seq<Event>) returns (heard: seq<nat>)
    ensures Transcribes(es, Concerning(cfg, n, es), BreakerTrace(cfg, n, es), heard)
  {
    heard := [];
    if es != [] {
      var before, e := es[..|es| - 1], es[|es| - 1];
      var g, must, trace := Run(cfg, n, before), Concerning(cfg, n, before), BreakerTrace(cfg, n, before);
      heard := BreakerHearsExactly(cfg, n, before);
      assert before + [e] == es;
      ConcerningSnoc(cfg, n, before, e);
      HeardAsOne(g, e);
      if MustHear(g, e) {
        var b := BreakerEvents(g, e)[0];
        TranscribesSnoc(before, e, must, trace, b, heard);
        assert BreakerEvents(g, e) == [b];
        heard := heard + [|before|];
      }
    }
  }

  // ----- Connections

  /** The requests that hold backend `b`. */
  ghost function Holders(requests: seq<Stage>, b: nat): set<nat> {
    set r | 0 <= r < |requests| && requests[r].Holding? && requests[r].backend == b
  }

  ghost function AllHolders(requests: seq<Stage>): set<nat> {
    set r | 0 <= r < |requests| && requests[r].Holding?
  }

  function Sum(s: seq<nat>): nat {
    if s == [] then 0 else s[0] + Sum(s[1..])
  }

  ghost predicate Conserved(active: seq<nat>, requests: seq<Stage>) {
    && (forall r | 0 <= r < |requests| && requests[r].Holding? :: requests[r].backend < |active|)
    && (forall b | 0 <= b < |active| :: active[b] == |Holders(requests, b)|)
    && Sum(active) == |AllHolders(requests)|
  }

  lemma {:induction false} SumUpdate(s: seq<nat>, i: nat, v: nat)
    requires i < |s|
    ensures Sum(s[i := v]) + s[i] == Sum(s) + v
  {
    if i == 0 {
      assert s[i := v][1..] == s[1..];
    } else {
      assert s[i := v][1..] == s[1..][i - 1 := v];
      SumUpdate(s[1..], i - 1, v);
    }
  }

  lemma SumZeros(s: seq<nat>)
    requires forall i | 0 <= i < |s| :: s[i] == 0
    ensures Sum(s) == 0
  {
  }

  /** Changes that move no request to or from a backend keep the count. */
  lemma {:induction false} SameHolders(active: seq<nat>, a: seq<Stage>, b: seq<Stage>)
    requires Conserved(active, a) && |a| <= |b|
    requires forall r | 0 <= r < |a| :: a[r].Holding? == b[r].Holding? && (a[r].Holding? ==> a[r].backend == b[r].backend)
    requires forall r | |a| <= r < |b| :: !b[r].Holding?
    ensures Conserved(active, b)
  {
    assert AllHolders(b) == AllHolders(a);
    forall c | 0 <= c < |active|
      ensures active[c] == |Holders(b, c)|
    {
      assert Holders(b, c) == Holders(a, c);
    }
  }

  /** A request moves to or from a backend. */
  lemma {:induction false} HoldersUpdate(requests: seq<Stage>, r: nat, s: Stage, b: nat)
    requires r < |requests|
    ensures var after := requests[r := s];
            && Holders(after, b) ==
               (if s.Holding? && s.backend == b then Holders(requests, b) + {r} else Holders(requests, b) - {r})
            && AllHolders(after) == (if s.Holding? then AllHolders(requests) + {r} else AllHolders(requests) - {r})
            && (r in Holders(requests, b) <==> requests[r].Holding? && requests[r].backend == b)
            && (r in AllHolders(requests) <==> requests[r].Holding?)
  {
  }

  lemma {:induction false} SelectConserves(active: seq<nat>, requests: seq<Stage>, r: nat, b: nat)
    requires Conserved(active, requests) && r < |requests| && !requests[r].Holding? && b < |active|
    ensures Conserved(active[b := active[b] + 1], requests[r := Holding(b, false)])
  {
    var s, active' := Holding(b, false), active[b := active[b] + 1];
    var requests' := requests[r := s];
    SumUpdate(active, b, active[b] + 1);
    HoldersUpdate(requests, r, s, b);
    forall c | 0 <= c < |active|
      ensures active'[c] == |Holders(requests', c)|
    {
      HoldersUpdate(requests, r, s, c);
      assert c != b ==> Holders(requests, c) - {r} == Holders(requests, c);
    }
  }

  lemma {:induction false} HolderCounted(active: seq<nat>, requests: seq<Stage>, r: nat)
    requires Conserved(active, requests) && r < |requests| && requests[r].Holding?
    ensures active[requests[r].backend] > 0
  {
    assert r in Holders(requests, requests[r].backend);
  }

  lemma {:induction false} CompleteConserves(active: seq<nat>, requests: seq<Stage>, r: nat)
    requires Conserved(active, requests) && r < |requests| && requests[r].Holding?
    ensures var b := requests[r].backend;
            active[b] > 0 && Conserved(active[b := active[b] - 1], requests[r := Done])
  {
    var b, requests' := requests[r].backend, requests[r := Done];
    HolderCounted(active, requests, r);
    var active' := active[b := active[b] - 1];
    SumUpdate(active, b, active[b] - 1);
    HoldersUpdate(requests, r, Done, b);
    forall c | 0 <= c < |active|
      ensures active'[c] == |Holders(requests', c)|
    {
      HoldersUpdate(requests, r, Done, c);
      assert c != b ==> Holders(requests, c) - {r} == Holders(requests, c);
    }
  }

  lemma {:induction false} StepConserves(cfg: Config, g: Gateway, e: Event)
    requires Conserved(g.active, g.requests)
    ensures var g' := Step(cfg, g, e); Conserved(g'.active, g'.requests) && |g'.active| == |g.active|
  {
    var g' := Step(cfg, g, e);
    if e.Select? && g'.active != g.active {
      SelectConserves(g.active, g.requests, e.r, e.chosen.value);
    } else if e.Complete? && g'.requests != g.requests {
      CompleteConserves(g.active, g.requests, e.r);
    } else {
      SameHolders(g.active, g.requests, g'.requests);
    }
  }

  /** Connection conservation: after every interleaving each backend counts exactly the requests
      that hold it, and the total counts the requests that hold any. */
  lemma {:induction false} ConnectionsConserved(cfg: Config, n: nat, es: seq<Event>)
    ensures var g := Run(cfg, n, es); Conserved(g.active, g.requests) && |g.active| == n
  {
    if es == [] {
      SumZeros(Start(n).active);
      assert AllHolders([]) == {} && forall b :: Holders([], b) == {};
    } else {
      ConnectionsConserved(cfg, n, es[..|es| - 1]);
      StepConserves(cfg, Run(cfg, n, es[..|es| - 1]), es[|es| - 1]);
    }
  }

  /** The zero check of Release never fires for a request of the gateway. */
  lemma {:induction false} ReleaseFindsItsConnection(cfg: Config, n: nat, es: seq<Event>, r: nat)
    requires r < |Run(cfg, n, es).requests| && Run(cfg, n, es).requests[r].Holding?
    ensures var g := Run(cfg, n, es); g.requests[r].backend < |g.active| && g.active[g.requests[r].backend] > 0
  {
    ConnectionsConserved(cfg, n, es);
    HolderCounted(Run(cfg, n, es).active, Run(cfg, n, es).requests, r);
  }

  // ----- Permits

  /** The request still owes its permit a result. */
  predicate Owing(s: Stage) {
    s.Entering? || s.Failing? || (s.Holding? && !s.reported)
  }

  /** A permit is unresolved exactly while its request owes it a result. */
  ghost predicate Matched(g: Gateway) {
    && |g.requests| == |g.breaker.permits|
    && forall i | 0 <= i < |g.requests| :: g.breaker.permits[i].fate == B.Pending <==> Owing(g.requests[i])
  }

  lemma {:induction false} StepMatches(cfg: Config, g: Gateway, e: Event)
    requires Matched(g)
    ensures Matched(Step(cfg, g, e))
  {
    var g' := Step(cfg, g, e);
    if e.Enter? {
      assert forall i | 0 <= i < |g.requests| ::
          g'.requests[i] == g.requests[i] && g'.breaker.permits[i] == g.breaker.permits[i];
    } else {
      assert forall i | 0 <= i < |g.requests| && i != e.r ::
          g'.requests[i] == g.requests[i] && g'.breaker.permits[i] == g.breaker.permits[i];
    }
  }

  /** Permit conservation: over every interleaving the unresolved permits are exactly those of
      requests that still owe a result. None leaks, and none is resolved twice. */
  lemma {:induction false} PermitsConserved(cfg: Config, n: nat, es: seq<Event>)
    ensures Matched(Run(cfg, n, es))
  {
    if es != [] {
      PermitsConserved(cfg, n, es[..|es| - 1]);
      StepMatches(cfg, Run(cfg, n, es[..|es| - 1]), es[|es| - 1]);
    }
  }

  // ----- Outcomes

  /** The first outcome of request `r` on its backend comes at position `k`. */
  ghost predicate FirstOutcome(cfg: Config, n: nat, es: seq<Event>, r: nat, k: nat)
    requires k < |es|
  {
    var g := Run(cfg, n, es[..k]);
    es[k].Outcome? && es[k].r == r < |g.requests| && g.requests[r].Holding? && !g.requests[r].reported
  }

  /** Which fate a reply means to a permit. */
  ghost predicate Settles(reply: Reply, fate: B.Fate) {
    match reply
    case Broken => fate == B.Failed
    case Status(code) => if 500 <= code <= 599 then fate == B.Failed else fate == B.Succeeded
  }

  lemma {:induction false} SettledStays(cfg: Config, g: Gateway, e: Event, r: nat)
    requires r < |g.breaker.permits| && g.breaker.permits[r].fate != B.Pending
    ensures var permits := Step(cfg, g, e).breaker.permits; r < |permits| && permits[r] == g.breaker.permits[r]
  {
  }

  lemma {:induction false} OutcomeSettles(cfg: Config, g: Gateway, e: Event)
    requires Matched(g) && e.Outcome? && e.r < |g.requests| && g.requests[e.r].Holding? && !g.requests[e.r].reported
    ensures var permits := Step(cfg, g, e).breaker.permits; e.r < |permits| && Settles(e.reply, permits[e.r].fate)
  {
  }

  /** The first outcome decides: whatever happens later, and whatever is reported again, the request's
      permit counts as failed after a 5xx status or a broken exchange, and as succeeded otherwise. */
  lemma {:induction false} FirstOutcomeDecides(cfg: Config, n: nat, es: seq<Event>, r: nat, k: nat)
    requires k < |es| && FirstOutcome(cfg, n, es, r, k)
    ensures var permits := Run(cfg, n, es).breaker.permits; r < |permits| && Settles(es[k].reply, permits[r].fate)
  {
    var before, e := es[..|es| - 1], es[|es| - 1];
    if k == |es| - 1 {
      PermitsConserved(cfg, n, before);
      OutcomeSettles(cfg, Run(cfg, n, before), e);
    } else {
      assert before[..k] == es[..k] && before[k] == es[k];
      FirstOutcomeDecides(cfg, n, before, r, k);
      SettledStays(cfg, Run(cfg, n, before), e, r);
    }
  }

  lemma {:induction false} SettledNow(cfg: Config, g: Gateway, e: Event, r: nat)
    requires Matched(g)
    requires r < |g.breaker.permits| ==> g.breaker.permits[r].fate == B.Pending
    requires var permits := Step(cfg, g, e).breaker.permits;
             r < |permits| && (permits[r].fate == B.Succeeded || permits[r].fate == B.Failed)
    ensures e.Outcome? && e.r == r < |g.requests| && g.requests[r].Holding? && !g.requests[r].reported
  {
  }

  /** A permit that counts as succeeded or failed owes it to a first outcome. */
  lemma {:induction false} SettledByOutcome(cfg: Config, n: nat, es: seq<Event>, r: nat) returns (k: nat)
    requires var permits := Run(cfg, n, es).breaker.permits;
             r < |permits| && (permits[r].fate == B.Succeeded || permits[r].fate == B.Failed)
    ensures k < |es| && FirstOutcome(cfg, n, es, r, k)
  {
    var before, e := es[..|es| - 1], es[|es| - 1];
    var g := Run(cfg, n, before);
    if r < |g.breaker.permits| && g.breaker.permits[r].fate != B.Pending {
      SettledStays(cfg, g, e, r);
      k := SettledByOutcome(cfg, n, before, r);
      assert before[..k] == es[..k] && before[k] == es[k];
    } else {
      PermitsConserved(cfg, n, before);
      SettledNow(cfg, g, e, r);
      k := |es| - 1;
    }
  }

  ghost predicate Fails(e: Event) {
    e.Outcome? && (e.reply.Broken? || 500 <= e.reply.code <= 599)
  }

  /** The failures among the outcomes of a run. */
  ghost function Failures(es: seq<Event>): nat {
    if es == [] then 0 else Failures(es[..|es| - 1]) + if Fails(es[|es| - 1]) then 1 else 0
  }

  /** A gateway with fewer failures than the threshold keeps its breaker closed, whatever else its
      requests do; the breaker counts no failure that did not happen. */
  lemma {:induction false} FewFailuresStayClosed(cfg: Config, n: nat, es: seq<Event>)
    requires ValidConfig(cfg) && Failures(es) < cfg.failureThreshold
    ensures var core := Run(cfg, n, es).breaker.core;
            core.state == Closed && core.consecutiveFailures <= Failures(es)
  {
    if es != [] {
      FewFailuresStayClosed(cfg, n, es[..|es| - 1]);
      ClosedStep(cfg, Run(cfg, n, es[..|es| - 1]), es[|es| - 1]);
    }
  }

  lemma {:induction false} ClosedStep(cfg: Config, g: Gateway, e: Event)
    requires g.breaker.core.state == Closed
    requires Fails(e) ==> g.breaker.core.consecutiveFailures + 1 < cfg.failureThreshold
    ensures var core := Step(cfg, g, e).breaker.core;
            && core.state == Closed
            && core.consecutiveFailures <= g.breaker.core.consecutiveFailures + if Fails(e) then 1 else 0
  {
  }

  // ----- Backends

  /** Where a request is and which backend it takes is for the balancer to say. */
  lemma {:induction false} SelectedBackendIsHeld(cfg: Config, n: nat, es: seq<Event>, r: nat, chosen: Option<nat>)
    requires r < |Run(cfg, n, es).requests| && Run(cfg, n, es).requests[r] == Entering
    ensures var g, g' := Run(cfg, n, es), Run(cfg, n, es + [Select(r, chosen)]);
            && g'.breaker == g.breaker
            && (if chosen.Some? && chosen.value < n
                then g'.requests == g.requests[r := Holding(chosen.value, false)]
                     && |g.active| == n && g'.active == g.active[chosen.value := g.active[chosen.value] + 1]
                else g'.requests == g.requests[r := Failing] && g'.active == g.active)
  {
    ConnectionsConserved(cfg, n, es);
    RunSnoc(cfg, n, es, Select(r, chosen));
  }

  /** A request that has an outcome completes, and gives back the backend it holds. */
  lemma {:induction false} CompletionReleases(cfg: Config, n: nat, es: seq<Event>, r: nat)
    requires r < |Run(cfg, n, es).requests| && Run(cfg, n, es).requests[r].Holding? && Run(cfg, n, es).requests[r].reported
    ensures var g, g' := Run(cfg, n, es), Run(cfg, n, es + [Complete(r)]);
            var b := g.requests[r].backend;
            && g'.breaker == g.breaker && g'.requests == g.requests[r := Done]
            && b < |g.active| && g.active[b] > 0 && g'.active == g.active[b := g.active[b] - 1]
  {
    ReleaseFindsItsConnection(cfg, n, es, r);
    RunSnoc(cfg, n, es, Complete(r));
  }

  ghost predicate AllDone(g: Gateway) {
    forall r | 0 <= r < |g.requests| :: g.requests[r].Done?
  }

  /** No probe slot is ever lost: once every request is done, the breaker refuses the next one only
      during an open phase that has not timed out, never for want of a probe slot. */
  lemma {:induction false} IdleGatewayAdmits(cfg: Config, n: nat, es: seq<Event>, now: int)
    requires ValidConfig(cfg) && AllDone(Run(cfg, n, es))
    ensures var core := Run(cfg, n, es).breaker.core;
            if core.state == Open && now < core.openedAt + cfg.openTimeout
            then AcquireCore(cfg, core, now).1 == Err(OpenCircuit)
            else AcquireCore(cfg, core, now).1.Ok?
  {
    var g := Run(cfg, n, es);
    PermitsConserved(cfg, n, es);
    BreakerRunsInside(cfg, n, es);
    assert B.Current(g.breaker, B.Pending) == {};
    if g.breaker.core.state == HalfOpen {
      B.ProbeAccounting(cfg, BreakerTrace(cfg, n, es), now);
    }
  }

  /** Whether the permit is a probe of the breaker's current generation. */
  predicate LiveProbe(s: B.System, i: nat)
    requires i < |s.permits|
  {
    s.permits[i].ticket.probe && s.permits[i].ticket.generation == s.core.generation
  }

  /** A failed acquire returns exactly what it took: whatever happened since its permit was taken,
      the permit is still unresolved when it is given back; the probe slot is returned if the probe is
      still current, and nothing else of the breaker, the connections or other requests changes. */
  lemma {:induction false} FailedAcquireReturnsItsSlot(cfg: Config, n: nat, es: seq<Event>, r: nat, now: int)
    requires ValidConfig(cfg) && r < |Run(cfg, n, es).requests| && Run(cfg, n, es).requests[r].Failing?
    ensures var g, g' := Run(cfg, n, es), Step(cfg, Run(cfg, n, es), GiveBack(r, now));
            && g'.active == g.active && g'.requests == g.requests[r := Done]
            && r < |g.breaker.permits| && g.breaker.permits[r].fate == B.Pending
            && g'.breaker.permits == g.breaker.permits[r := g.breaker.permits[r].(fate := B.Cancelled)]
            && (if LiveProbe(g.breaker, r)
                then g.breaker.core.halfOpenAdmitted > 0
                     && g'.breaker.core == g.breaker.core.(halfOpenAdmitted := g.breaker.core.halfOpenAdmitted - 1)
                else g'.breaker.core == g.breaker.core)
  {
    PermitsConserved(cfg, n, es);
    BreakerRunsInside(cfg, n, es);
    B.GenerationDeterminesState(cfg, BreakerTrace(cfg, n, es), r, true, now);
  }

  /** Between its locked regions a request does hold a slot: with a limit of one probe, another
      request is refused although no backend is held and the first one then fails. */
  lemma {:induction false} RefusedWhileAnotherEnters(timeout: int, n: nat) returns (es: seq<Event>, now: int)
    requires timeout > 0 && n > 0
    ensures var cfg := Config(1, timeout, 1);
            var g := Run(cfg, n, es);
            && AllHolders(g.requests) == {} && !AllDone(g)
            && AcquireCore(cfg, g.breaker.core, now).1 == Err(ProbeLimit)
            && AllDone(Run(cfg, n, es + [Select(1, None)] + [GiveBack(1, now)]))
  {
    var cfg := Config(1, timeout, 1);
    es, now := TRIPPING + [Enter(timeout)], timeout;
    TrippedGateway(cfg, n);
    RunSnoc(cfg, n, TRIPPING, Enter(timeout));
    var g := Run(cfg, n, es);
    assert g.requests == [Done, Entering];
    assert g.requests[1].Entering?;
    RunSnoc(cfg, n, es, Select(1, None));
    RunSnoc(cfg, n, es + [Select(1, None)], GiveBack(1, now));
  }

  /** One request that fails on the first backend. */
  const TRIPPING := [Enter(0), Select(0, Some(0)), Outcome(0, Broken, 0), Complete(0)]

  lemma {:induction false} TrippedGateway(cfg: Config, n: nat)
    requires cfg.failureThreshold == 1 && n > 0
    ensures var g := Run(cfg, n, TRIPPING);
            && g.requests == [Done] && |g.breaker.permits| == 1
            && g.breaker.core.state == Open && g.breaker.core.openedAt == 0
  {
    var g1 := Step(cfg, Start(n), Enter(0));
    var g2 := Step(cfg, g1, Select(0, Some(0)));
    var g3 := Step(cfg, g2, Outcome(0, Broken, 0));
    assert g1.requests == [Entering] && |g1.breaker.permits| == 1;
    assert g2.requests == [Holding(0, false)] && g2.breaker == g1.breaker;
    assert g3.requests == [Holding(0, true)] && g3.breaker.core.state == Open;
    RunOf(cfg, n, TRIPPING, 1);
    RunOf(cfg, n, TRIPPING, 2);
    RunOf(cfg, n, TRIPPING, 3);
    RunOf(cfg, n, TRIPPING, 4);
    assert TRIPPING[..0] == [] && TRIPPING[..4] == TRIPPING;
  }

  lemma {:induction false} RunOf(cfg: Config, n: nat, es: seq<Event>, k: nat)
    requires 0 < k <= |es|
    ensures Run(cfg, n, es[..k]) == Step(cfg, Run(cfg, n, es[..k - 1]), es[k - 1])
  {
    assert es[..k][..k - 1] == es[..k - 1];
  }

  lemma {:induction false} RunSnoc(cfg: Config, n: nat, es: seq<Event>, e: Event)
    ensures Run(cfg, n, es + [e]) == Step(cfg, Run(cfg, n, es), e)
  {
    assert (es + [e])[..|es|] == es;
  }
}
