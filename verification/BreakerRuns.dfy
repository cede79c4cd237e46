/** Whole-run properties of the circuit breaker.

    `System` is a breaker together with every permit it has issued, and a run is any
    sequence of admissions, reports, cancellations and manual transitions, in the
    order in which the breaker's lock serialises them. `Reference` is the breaker one
    would describe on paper: no generations and no counters, only the outcomes of the
    current phase and the set of permits that may still speak. */
module BreakerRuns {
  import opened Options
  import opened CircuitBreaker

  datatype Fate = Pending | Succeeded | Failed | Cancelled

  datatype Issued = Issued(ticket: Ticket, fate: Fate)

  datatype System = System(core: Core, permits: seq<Issued>)

  datatype Event =
    | Arrive(now: int)
    | Report(id: nat, success: bool, now: int)
    | Withdraw(id: nat, now: int)
    | Force(code: nat, now: int)

  const START := System(INITIAL, [])

  /** A permit accepts only its first result; reports for permits never issued do not exist. */
  function Step(cfg: Config, s: System, e: Event): System {
    match e
    case Arrive(now) =>
      var (core, verdict) := AcquireCore(cfg, s.core, now);
      System(core, if verdict.Ok? then s.permits + [Issued(verdict.value, Pending)] else s.permits)
    case Report(id, success, now) =>
      if id >= |s.permits| || s.permits[id].fate != Pending then s
      else System(RecordCore(cfg, s.core, s.permits[id].ticket, success, now),
                  s.permits[id := s.permits[id].(fate := if success then Succeeded else Failed)])
    case Withdraw(id, now) =>
      if id >= |s.permits| || s.permits[id].fate != Pending then s
      else System(CancelCore(s.core, s.permits[id].ticket), s.permits[id := s.permits[id].(fate := Cancelled)])
    case Force(code, now) => s.(core := ForceCore(s.core, code, now).0)
  }

  function Run(cfg: Config, es: seq<Event>): System {
    if es == [] then START else Step(cfg, Run(cfg, es[..|es| - 1]), es[|es| - 1])
  }

  lemma {:induction false} RunSnoc(cfg: Config, es: seq<Event>, e: Event)
    ensures Run(cfg, es + [e]) == Step(cfg, Run(cfg, es), e)
  {
    assert (es + [e])[..|es|] == es;
  }

  // ----- The reference machine

  datatype Phase =
    | Serving(outcomes: seq<bool>)  // closed: outcomes reported in this phase, oldest first
    | Tripped(since: int)           // open
    | Probing(passed: set<nat>)     // half-open: the probes of this phase that succeeded

  datatype Reference = Reference(phase: Phase, live: set<nat>, issued: nat)

  const REFERENCE_START := Reference(Serving([]), {}, 0)

  function TrailingFailures(outcomes: seq<bool>): nat {
    if outcomes == [] || outcomes[|outcomes| - 1] then 0 else 1 + TrailingFailures(outcomes[..|outcomes| - 1])
  }

  function Enter(r: Reference, phase: Phase): Reference {
    r.(phase := phase, live := {})
  }

  function Issue(r: Reference): Reference {
    r.(live := r.live + {r.issued}, issued := r.issued + 1)
  }

  function ReferenceArrive(cfg: Config, r: Reference, now: int): (Reference, Option<Rejection>) {
    match r.phase
    case Serving(_) => (Issue(r), None)
    case Tripped(since) =>
      if now < since + cfg.openTimeout then (r, Some(OpenCircuit)) else (Issue(Enter(r, Probing({}))), None)
    case Probing(passed) =>
      if |r.live| + |passed| >= cfg.halfOpenMaxRequests then (r, Some(ProbeLimit)) else (Issue(r), None)
  }

  /** Only a live permit is heard. */
  function ReferenceReport(cfg: Config, r: Reference, id: nat, success: bool, now: int): Reference {
    if id !in r.live then r else
    var quiet := r.(live := r.live - {id});
    match r.phase
    case Serving(outcomes) =>
      if TrailingFailures(outcomes + [success]) == cfg.failureThreshold then Enter(r, Tripped(now))
      else quiet.(phase := Serving(outcomes + [success]))
    case Probing(passed) =>
      if !success then Enter(r, Tripped(now))
      else if |passed + {id}| == cfg.halfOpenMaxRequests then Enter(r, Serving([]))
      else quiet.(phase := Probing(passed + {id}))
    case Tripped(_) => quiet
  }

  function ReferenceForce(r: Reference, code: nat, now: int): Reference {
    if r.phase.Serving? && code == 1 then Enter(r, Tripped(now))
    else if r.phase.Tripped? && code == 2 then Enter(r, Probing({}))
    else if r.phase.Probing? && code == 0 then Enter(r, Serving([]))
    else if r.phase.Probing? && code == 1 then Enter(r, Tripped(now))
    else r
  }

  function ReferenceStep(cfg: Config, r: Reference, e: Event): Reference {
    match e
    case Arrive(now) => ReferenceArrive(cfg, r, now).0
    case Report(id, success, now) => ReferenceReport(cfg, r, id, success, now)
    case Withdraw(id, now) => r.(live := r.live - {id})
    case Force(code, now) => ReferenceForce(r, code, now)
  }

  function ReferenceRun(cfg: Config, es: seq<Event>): Reference {
    if es == [] then REFERENCE_START
    else ReferenceStep(cfg, ReferenceRun(cfg, es[..|es| - 1]), es[|es| - 1])
  }

  // ----- The refinement

  /** Permits of the current generation with the given fate. */
  ghost function Current(s: System, fate: Fate): set<nat> {
    set i | 0 <= i < |s.permits| && s.permits[i].ticket.generation == s.core.generation && s.permits[i].fate == fate
  }

  /** No permit comes from the future, and a current permit fixes the breaker's state. */
  ghost predicate GenerationsFit(s: System) {
    forall i | 0 <= i < |s.permits| ::
      && s.permits[i].ticket.generation <= s.core.generation
      && (s.permits[i].ticket.generation == s.core.generation
          ==> s.core.state != Open && (s.permits[i].ticket.probe <==> s.core.state == HalfOpen))
  }

  ghost predicate Represents(cfg: Config, s: System, p: Phase, live: set<nat>) {
    match p
    case Serving(outcomes) =>
      s.core.state == Closed && s.core.consecutiveFailures == TrailingFailures(outcomes) < cfg.failureThreshold
    case Tripped(since) => s.core.state == Open && s.core.openedAt == since && live == {}
    case Probing(passed) =>
      && s.core.state == HalfOpen && passed == Current(s, Succeeded)
      && s.core.halfOpenSuccesses == |passed| < cfg.halfOpenMaxRequests
      && s.core.halfOpenAdmitted == |live| + |passed| <= cfg.halfOpenMaxRequests
  }

  ghost predicate Refines(cfg: Config, s: System, r: Reference) {
    GenerationsFit(s) && r.issued == |s.permits| && r.live == Current(s, Pending) && Represents(cfg, s, r.phase, r.live)
  }

  lemma {:induction false} TrailingFailuresSnoc(outcomes: seq<bool>, ok: bool)
    ensures TrailingFailures(outcomes + [ok]) == if ok then 0 else TrailingFailures(outcomes) + 1
  {
    assert (outcomes + [ok])[..|outcomes|] == outcomes;
  }

  /** A new generation has no permits yet. */
  lemma FreshGeneration(s: System, s': System)
    requires GenerationsFit(s) && s'.core.generation == s.core.generation + 1
    requires |s'.permits| == |s.permits| && forall i | 0 <= i < |s.permits| :: s'.permits[i].ticket == s.permits[i].ticket
    ensures GenerationsFit(s') && forall fate :: Current(s', fate) == {}
  {
  }

  lemma {:induction false} IssueRefines(s: System, s': System, t: Ticket)
    requires s'.permits == s.permits + [Issued(t, Pending)]
    requires t.generation == s'.core.generation == s.core.generation
    ensures Current(s', Pending) == Current(s, Pending) + {|s.permits|}
    ensures forall fate | fate != Pending :: Current(s', fate) == Current(s, fate)
    ensures |s.permits| !in Current(s, Pending)
  {
    assert forall i | 0 <= i < |s.permits| :: s'.permits[i] == s.permits[i];
  }

  lemma {:induction false} ArriveRefines(cfg: Config, s: System, r: Reference, now: int)
    requires ValidConfig(cfg) && Refines(cfg, s, r)
    ensures Refines(cfg, Step(cfg, s, Arrive(now)), ReferenceStep(cfg, r, Arrive(now)))
    ensures var verdict := AcquireCore(cfg, s.core, now).1;
            match ReferenceArrive(cfg, r, now).1
            case None => verdict.Ok?
            case Some(why) => verdict == Err(why)
  {
    var woken := s.(core := Awakened(cfg, s.core, now));
    var s' := Step(cfg, s, Arrive(now));
    if woken.core != s.core {
      FreshGeneration(s, woken);
    }
    if |s'.permits| > |s.permits| {
      IssueRefines(woken, s', AcquireCore(cfg, s.core, now).1.value);
    }
  }

  /** Settling a pending permit of the current generation moves it between the fate sets. */
  lemma {:induction false} SettleMoves(s: System, s': System, id: nat, fate: Fate)
    requires id < |s.permits| && s.permits[id].fate == Pending && fate != Pending
    requires s'.permits == s.permits[id := s.permits[id].(fate := fate)] && s'.core.generation == s.core.generation
    ensures Current(s', Pending) == Current(s, Pending) - {id}
    ensures Current(s', fate) == if id in Current(s, Pending) then Current(s, fate) + {id} else Current(s, fate)
    ensures forall f | f != fate && f != Pending :: Current(s', f) == Current(s, f)
    ensures id !in Current(s, fate)
  {
    assert forall i | 0 <= i < |s.permits| && i != id :: s'.permits[i] == s.permits[i];
  }

  /** A stale permit is settled without any effect on the breaker or the reference. */
  lemma {:induction false} StaleSettles(cfg: Config, s: System, s': System, r: Reference, id: nat, fate: Fate)
    requires Refines(cfg, s, r)
    requires id < |s.permits| && s.permits[id].fate == Pending && fate != Pending && id !in r.live
    requires s' == System(s.core, s.permits[id := s.permits[id].(fate := fate)])
    ensures Refines(cfg, s', r)
  {
    SettleMoves(s, s', id, fate);
    assert r.live - {id} == r.live;
  }

  lemma {:induction false} ReportRefines(cfg: Config, s: System, r: Reference, id: nat, success: bool, now: int)
    requires ValidConfig(cfg) && Refines(cfg, s, r)
    ensures Refines(cfg, Step(cfg, s, Report(id, success, now)), ReferenceReport(cfg, r, id, success, now))
  {
    if id < |s.permits| && s.permits[id].fate == Pending {
      if id !in r.live {
        StaleSettles(cfg, s, Step(cfg, s, Report(id, success, now)), r, id, if success then Succeeded else Failed);
      } else if r.phase.Serving? {
        ServingReportRefines(cfg, s, r, id, success, now);
      } else {
        ProbingReportRefines(cfg, s, r, id, success, now);
      }
    }
  }

  /** Settling a live permit within its generation. */
  lemma {:induction false} LiveSettles(cfg: Config, s: System, s': System, r: Reference, id: nat, fate: Fate, phase: Phase)
    requires Refines(cfg, s, r) && id in r.live && fate != Pending
    requires s'.permits == s.permits[id := s.permits[id].(fate := fate)]
    requires s'.core.generation == s.core.generation && s'.core.state == s.core.state
    requires Represents(cfg, s', phase, r.live - {id})
    ensures Refines(cfg, s', r.(live := r.live - {id}, phase := phase))
  {
    SettleMoves(s, s', id, fate);
  }

  /** Entering a phase starts a generation without permits. */
  lemma {:induction false} EnterRefines(cfg: Config, s: System, s': System, r: Reference, phase: Phase)
    requires Refines(cfg, s, r) && s'.core.generation == s.core.generation + 1
    requires |s'.permits| == |s.permits| && forall i | 0 <= i < |s.permits| :: s'.permits[i].ticket == s.permits[i].ticket
    requires phase != Probing({}) ==> Represents(cfg, s', phase, {})
    requires phase == Probing({}) ==> s'.core.state == HalfOpen && s'.core.halfOpenSuccesses == s'.core.halfOpenAdmitted == 0
                                      && cfg.halfOpenMaxRequests > 0
    ensures Refines(cfg, s', Enter(r, phase))
  {
    FreshGeneration(s, s');
  }

  lemma {:induction false} ServingReportRefines(cfg: Config, s: System, r: Reference, id: nat, success: bool, now: int)
    requires ValidConfig(cfg) && Refines(cfg, s, r) && id in r.live && r.phase.Serving?
    ensures Refines(cfg, Step(cfg, s, Report(id, success, now)), ReferenceReport(cfg, r, id, success, now))
  {
    if TrailingFailures(r.phase.outcomes + [success]) == cfg.failureThreshold {
      ServingTrips(cfg, s, r, id, success, now);
    } else {
      ServingStays(cfg, s, r, id, success, now);
    }
  }

  lemma {:induction false} ServingTrips(cfg: Config, s: System, r: Reference, id: nat, success: bool, now: int)
    requires ValidConfig(cfg) && Refines(cfg, s, r) && id in r.live && r.phase.Serving?
    requires TrailingFailures(r.phase.outcomes + [success]) == cfg.failureThreshold
    ensures Refines(cfg, Step(cfg, s, Report(id, success, now)), Enter(r, Tripped(now)))
  {
    var s' := Step(cfg, s, Report(id, success, now));
    TrailingFailuresSnoc(r.phase.outcomes, success);
    assert s'.core == Transition(s.core.(consecutiveFailures := s.core.consecutiveFailures + 1), Open, now);
    EnterRefines(cfg, s, s', r, Tripped(now));
  }

  lemma {:induction false} ServingStays(cfg: Config, s: System, r: Reference, id: nat, success: bool, now: int)
    requires ValidConfig(cfg) && Refines(cfg, s, r) && id in r.live && r.phase.Serving?
    requires TrailingFailures(r.phase.outcomes + [success]) != cfg.failureThreshold
    ensures Refines(cfg, Step(cfg, s, Report(id, success, now)),
                    r.(live := r.live - {id}, phase := Serving(r.phase.outcomes + [success])))
  {
    var s', outcomes := Step(cfg, s, Report(id, success, now)), r.phase.outcomes + [success];
    TrailingFailuresSnoc(r.phase.outcomes, success);
    assert s'.core == s.core.(consecutiveFailures := TrailingFailures(outcomes));
    LiveSettles(cfg, s, s', r, id, if success then Succeeded else Failed, Serving(outcomes));
  }

  lemma {:induction false} ProbingReportRefines(cfg: Config, s: System, r: Reference, id: nat, success: bool, now: int)
    requires ValidConfig(cfg) && Refines(cfg, s, r) && id in r.live && r.phase.Probing?
    ensures Refines(cfg, Step(cfg, s, Report(id, success, now)), ReferenceReport(cfg, r, id, success, now))
  {
    var s' := Step(cfg, s, Report(id, success, now));
    var passed := r.phase.passed;
    assert id !in passed && |passed + {id}| == |passed| + 1;
    assert |r.live| == |r.live - {id}| + 1;
    if !success {
      EnterRefines(cfg, s, s', r, Tripped(now));
    } else if |passed + {id}| == cfg.halfOpenMaxRequests {
      EnterRefines(cfg, s, s', r, Serving([]));
    } else {
      SettleMoves(s, s', id, Succeeded);
      LiveSettles(cfg, s, s', r, id, Succeeded, Probing(passed + {id}));
    }
  }

  lemma {:induction false} WithdrawRefines(cfg: Config, s: System, r: Reference, id: nat, now: int)
    requires ValidConfig(cfg) && Refines(cfg, s, r)
    ensures Refines(cfg, Step(cfg, s, Withdraw(id, now)), r.(live := r.live - {id}))
  {
    var s' := Step(cfg, s, Withdraw(id, now));
    if id !in r.live {
      assert r.live - {id} == r.live;
      if id < |s.permits| && s.permits[id].fate == Pending {
        StaleSettles(cfg, s, s', r, id, Cancelled);
      }
    } else {
      assert |r.live| == |r.live - {id}| + 1;
      SettleMoves(s, s', id, Cancelled);
    }
  }

  lemma {:induction false} ForceRefines(cfg: Config, s: System, r: Reference, code: nat, now: int)
    requires ValidConfig(cfg) && Refines(cfg, s, r)
    ensures Refines(cfg, Step(cfg, s, Force(code, now)), ReferenceForce(r, code, now))
  {
    var s' := Step(cfg, s, Force(code, now));
    if s' != s {
      FreshGeneration(s, s');
    }
  }

  lemma {:induction false} StepRefines(cfg: Config, s: System, r: Reference, e: Event)
    requires ValidConfig(cfg) && Refines(cfg, s, r)
    ensures Refines(cfg, Step(cfg, s, e), ReferenceStep(cfg, r, e))
  {
    match e
    case Arrive(now) => ArriveRefines(cfg, s, r, now);
    case Report(id, success, now) => ReportRefines(cfg, s, r, id, success, now);
    case Withdraw(id, now) => WithdrawRefines(cfg, s, r, id, now);
    case Force(code, now) => ForceRefines(cfg, s, r, code, now);
  }

  /** Over every run the breaker with generations and counters follows the reference
      machine with outcome lists and permit sets. */
  lemma {:induction false} RunRefines(cfg: Config, es: seq<Event>)
    requires ValidConfig(cfg)
    ensures Refines(cfg, Run(cfg, es), ReferenceRun(cfg, es))
  {
    if es != [] {
      RunRefines(cfg, es[..|es| - 1]);
      StepRefines(cfg, Run(cfg, es[..|es| - 1]), ReferenceRun(cfg, es[..|es| - 1]), es[|es| - 1]);
    }
  }

  /** After any run, the breaker answers the next request as the reference machine does. */
  lemma {:induction false} SameVerdicts(cfg: Config, es: seq<Event>, now: int)
    requires ValidConfig(cfg)
    ensures var verdict := AcquireCore(cfg, Run(cfg, es).core, now).1;
            match ReferenceArrive(cfg, ReferenceRun(cfg, es), now).1
            case None => verdict.Ok?
            case Some(why) => verdict == Err(why)
  {
    RunRefines(cfg, es);
    ArriveRefines(cfg, Run(cfg, es), ReferenceRun(cfg, es), now);
  }

  /** Probe-slot accounting in every reachable half-open state. */
  lemma {:induction false} ProbeAccounting(cfg: Config, es: seq<Event>, now: int)
    requires ValidConfig(cfg)
    requires Run(cfg, es).core.state == HalfOpen
    ensures var s := Run(cfg, es);
            && s.core.halfOpenAdmitted == |Current(s, Pending)| + |Current(s, Succeeded)| <= cfg.halfOpenMaxRequests
            && s.core.halfOpenSuccesses == |Current(s, Succeeded)| < cfg.halfOpenMaxRequests
            && (Current(s, Pending) == {} ==> AcquireCore(cfg, s.core, now).1.Ok?)
  {
    RunRefines(cfg, es);
  }

  /** Generation determines state, for every permit ever issued. A report or cancellation of a
      stale permit changes nothing in the breaker; for a current pending permit the state checks
      of record() do not fire and the positive-count check of cancel() does not fail. */
  lemma {:induction false} GenerationDeterminesState(cfg: Config, es: seq<Event>, id: nat, success: bool, now: int)
    requires ValidConfig(cfg) && id < |Run(cfg, es).permits|
    ensures var s := Run(cfg, es);
            var t := s.permits[id].ticket;
            if t.generation != s.core.generation then
              && RecordCore(cfg, s.core, t, success, now) == s.core
              && CancelCore(s.core, t) == s.core
            else
              && s.core.state != Open
              && (t.probe <==> s.core.state == HalfOpen)
              && (t.probe && s.permits[id].fate == Pending
                  ==> CancelCore(s.core, t).halfOpenAdmitted + 1 == s.core.halfOpenAdmitted)
  {
    RunRefines(cfg, es);
    var s := Run(cfg, es);
    if s.permits[id].ticket.generation == s.core.generation && s.permits[id].fate == Pending {
      assert id in Current(s, Pending);
      assert |Current(s, Pending)| > 0;
    }
  }

  /** The state changes exactly when the outcome log says so (manual transitions apart). */
  lemma {:induction false} TransitionsFollowOutcomes(cfg: Config, es: seq<Event>, id: nat, success: bool, now: int)
    requires ValidConfig(cfg)
    ensures var s, r := Run(cfg, es), ReferenceRun(cfg, es);
            var after := Step(cfg, s, Report(id, success, now)).core.state;
            match r.phase
            case Serving(outcomes) =>
              && s.core.state == Closed
              && s.core.consecutiveFailures == TrailingFailures(outcomes)
              && after == (if id in r.live && TrailingFailures(outcomes + [success]) == cfg.failureThreshold
                           then Open else Closed)
            case Tripped(_) => s.core.state == after == Open
            case Probing(passed) =>
              && s.core.state == HalfOpen
              && after == (if id !in r.live then HalfOpen
                           else if !success then Open
                           else if |passed| + 1 == cfg.halfOpenMaxRequests then Closed
                           else HalfOpen)
  {
    RunRefines(cfg, es);
    RunRefines(cfg, es + [Report(id, success, now)]);
    assert (es + [Report(id, success, now)])[..|es|] == es;
    var s, r := Run(cfg, es), ReferenceRun(cfg, es);
    if r.phase.Probing? && id in r.live {
      assert s.permits[id].fate == Pending;
      assert id !in r.phase.passed;
    }
  }

  // ----- Recovery

  /** How many live permits report success in the continuation `more` of a run. */
  function LiveSuccesses(cfg: Config, es: seq<Event>, more: seq<Event>): nat {
    if more == [] then 0
    else
      var before, e := more[..|more| - 1], more[|more| - 1];
      LiveSuccesses(cfg, es, before)
      + if e.Report? && e.success && e.id in ReferenceRun(cfg, es + before).live then 1 else 0
  }

  /** No manual transition, and no live permit reports failure. */
  ghost predicate Unharmed(cfg: Config, es: seq<Event>, more: seq<Event>) {
    forall k | 0 <= k < |more| ::
      && !more[k].Force?
      && (more[k].Report? && !more[k].success ==> more[k].id !in ReferenceRun(cfg, es + more[..k]).live)
  }

  /** The phase of a recovery after `n` live successes. */
  ghost predicate Recovering(cfg: Config, r: Reference, since: int, n: nat) {
    match r.phase
    case Tripped(t) => t == since && n == 0
    case Probing(passed) => |passed| == n < cfg.halfOpenMaxRequests && r.live !! passed
    case Serving(outcomes) => n >= cfg.halfOpenMaxRequests && TrailingFailures(outcomes) == 0
  }

  lemma {:induction false} RecoveryStep(cfg: Config, r: Reference, e: Event, since: int, n: nat)
    requires ValidConfig(cfg) && Recovering(cfg, r, since, n) && (r.phase.Tripped? ==> r.live == {})
    requires r.phase.Probing? ==> r.issued !in r.phase.passed
    requires !e.Force? && (e.Report? && !e.success ==> e.id !in r.live)
    ensures var r' := ReferenceStep(cfg, r, e);
            Recovering(cfg, r', since, n + if e.Report? && e.success && e.id in r.live then 1 else 0)
  {
    if e.Report? && e.id in r.live && r.phase.Serving? {
      TrailingFailuresSnoc(r.phase.outcomes, true);
    }
  }

  lemma {:induction false} ReferenceSnoc(cfg: Config, es: seq<Event>, e: Event)
    ensures ReferenceRun(cfg, es + [e]) == ReferenceStep(cfg, ReferenceRun(cfg, es), e)
  {
    assert (es + [e])[..|es|] == es;
  }

  lemma {:induction false} RecoveryProgress(cfg: Config, es: seq<Event>, more: seq<Event>)
    requires ValidConfig(cfg) && ReferenceRun(cfg, es).phase.Tripped? && Unharmed(cfg, es, more)
    ensures Recovering(cfg, ReferenceRun(cfg, es + more), ReferenceRun(cfg, es).phase.since, LiveSuccesses(cfg, es, more))
    decreases |more|
  {
    var since := ReferenceRun(cfg, es).phase.since;
    if more == [] {
      assert es + more == es;
    } else {
      var before, e := more[..|more| - 1], more[|more| - 1];
      assert es + more == es + before + [e];
      assert Unharmed(cfg, es, before) by {
        assert forall k | 0 <= k < |before| :: before[k] == more[k] && before[..k] == more[..k];
      }
      RecoveryProgress(cfg, es, before);
      RunRefines(cfg, es + before);
      ReferenceSnoc(cfg, es + before, e);
      RecoveryStep(cfg, ReferenceRun(cfg, es + before), e, since, LiveSuccesses(cfg, es, before));
    }
  }

  /** Recovery: from every reachable open state, through every continuation without manual transitions
      and without a failure reported by a live probe, whatever else happens and whenever, the breaker is
      closed exactly once as many live probes have succeeded as the limit says. And on the way there,
      once the timeout has passed, a request is admitted whenever no permit is outstanding. */
  lemma {:induction false} BreakerRecovers(cfg: Config, es: seq<Event>, more: seq<Event>, now: int)
    requires ValidConfig(cfg) && Run(cfg, es).core.state == Open && Unharmed(cfg, es, more)
    ensures Run(cfg, es + more).core.state == Closed <==> LiveSuccesses(cfg, es, more) >= cfg.halfOpenMaxRequests
    ensures ReferenceRun(cfg, es + more).live == {} && now >= Run(cfg, es).core.openedAt + cfg.openTimeout
            ==> AcquireCore(cfg, Run(cfg, es + more).core, now).1.Ok?
  {
    RunRefines(cfg, es);
    RunRefines(cfg, es + more);
    RecoveryProgress(cfg, es, more);
    SameVerdicts(cfg, es + more, now);
  }

  // ----- How often a failing pool is probed

  predicate Timed(es: seq<Event>) {
    forall i, j | 0 <= i < j < |es| :: es[i].now <= es[j].now
  }

  predicate Automatic(es: seq<Event>) {
    forall i | 0 <= i < |es| :: !es[i].Force?
  }

  /** The time at which the breaker first opened. */
  function FirstOpening(cfg: Config, es: seq<Event>): Option<int> {
    if es == [] then None
    else
      var before := FirstOpening(cfg, es[..|es| - 1]);
      if before.None? && Run(cfg, es).core.state == Open then Some(es[|es| - 1].now) else before
  }

  /** How many half-open phases were entered. */
  function HalfOpenEntries(cfg: Config, es: seq<Event>): nat {
    if es == [] then 0
    else
      var before := es[..|es| - 1];
      HalfOpenEntries(cfg, before)
      + if Run(cfg, before).core.state == Open && Run(cfg, es).core.state == HalfOpen then 1 else 0
  }

  /** Probes that were admitted and not cancelled. */
  ghost function Probes(s: System): set<nat> {
    set i | 0 <= i < |s.permits| && s.permits[i].ticket.probe && s.permits[i].fate != Cancelled
  }

  ghost predicate Spaced(cfg: Config, core: Core, n: nat, first: Option<int>, last: int) {
    match first
    case None => n == 0 && core.state == Closed
    case Some(t) =>
      && t + n * cfg.openTimeout <= last
      && (core.state == Open ==> t + n * cfg.openTimeout <= core.openedAt)
  }

  /** An automatic step opens at the current time and half-opens only after the timeout. */
  lemma AutomaticStep(cfg: Config, s: System, e: Event)
    requires ValidConfig(cfg) && !e.Force?
    ensures var core, core' := s.core, Step(cfg, s, e).core;
            && (core'.state == Open ==> core'.openedAt == if core.state == Open then core.openedAt else e.now)
            && (core'.state == HalfOpen && core.state != HalfOpen
                ==> core.state == Open && core.openedAt + cfg.openTimeout <= e.now)
  {
  }

  lemma {:induction false} SpacedStep(cfg: Config, core: Core, core': Core, n: nat, first: Option<int>, last: int, now: int)
    requires ValidConfig(cfg) && Spaced(cfg, core, n, first, last) && last <= now
    requires core'.state == Open ==> core'.openedAt == if core.state == Open then core.openedAt else now
    requires core'.state == HalfOpen && core.state != HalfOpen
             ==> core.state == Open && core.openedAt + cfg.openTimeout <= now
    ensures var n' := n + if core.state == Open && core'.state == HalfOpen then 1 else 0;
            var first' := if first.None? && core'.state == Open then Some(now) else first;
            Spaced(cfg, core', n', first', now)
  {
    assert (n + 1) * cfg.openTimeout == n * cfg.openTimeout + cfg.openTimeout;
  }

  lemma {:induction false} EntriesAreSpaced(cfg: Config, es: seq<Event>)
    requires ValidConfig(cfg) && Timed(es) && Automatic(es) && es != []
    ensures Spaced(cfg, Run(cfg, es).core, HalfOpenEntries(cfg, es), FirstOpening(cfg, es), es[|es| - 1].now)
  {
    var before, e := es[..|es| - 1], es[|es| - 1];
    var s := Run(cfg, before);
    AutomaticStep(cfg, s, e);
    var last := e.now;
    if before != [] {
      EntriesAreSpaced(cfg, before);
      last := before[|before| - 1].now;
      assert es[|es| - 2].now <= es[|es| - 1].now;
    }
    SpacedStep(cfg, s.core, Step(cfg, s, e).core, HalfOpenEntries(cfg, before), FirstOpening(cfg, before), last, e.now);
  }

  /** What one event does to the set of uncancelled probes. */
  lemma {:induction false} ProbesStep(cfg: Config, s: System, e: Event)
    ensures var s' := Step(cfg, s, e);
            Probes(s') ==
              match e
              case Arrive(now) =>
                (match AcquireCore(cfg, s.core, now).1
                 case Ok(t) => if t.probe then Probes(s) + {|s.permits|} else Probes(s)
                 case Err(_) => Probes(s))
              case Withdraw(id, _) =>
                if id < |s.permits| && s.permits[id].fate == Pending then Probes(s) - {id} else Probes(s)
              case _ => Probes(s)
  {
    var s' := Step(cfg, s, e);
    assert forall i | 0 <= i < |s.permits| && !(e.Withdraw? && e.id == i) :: i in Probes(s') <==> i in Probes(s);
  }

  ghost predicate Budgeted(cfg: Config, s: System, n: nat) {
    if s.core.state == HalfOpen
    then |Probes(s)| <= (n - 1) * cfg.halfOpenMaxRequests + s.core.halfOpenAdmitted
    else |Probes(s)| <= n * cfg.halfOpenMaxRequests
  }

  lemma {:induction false} WithdrawBudgeted(cfg: Config, s: System, r: Reference, id: nat, now: int)
    requires ValidConfig(cfg) && Refines(cfg, s, r) && id < |s.permits| && s.permits[id].fate == Pending
    ensures var s' := Step(cfg, s, Withdraw(id, now));
            && s'.core.state == s.core.state
            && |Probes(s')| + s.core.halfOpenAdmitted <= |Probes(s)| + s'.core.halfOpenAdmitted
  {
    ProbesStep(cfg, s, Withdraw(id, now));
    if s.permits[id].ticket.probe {
      assert id in Probes(s) && |Probes(s)| == |Probes(s) - {id}| + 1;
    } else {
      assert Probes(s) - {id} == Probes(s);
    }
  }

  lemma {:induction false} BudgetedStep(cfg: Config, s: System, r: Reference, e: Event, n: nat)
    requires ValidConfig(cfg) && Refines(cfg, s, r) && Budgeted(cfg, s, n) && !e.Force?
    ensures var s' := Step(cfg, s, e);
            Budgeted(cfg, s', n + if s.core.state == Open && s'.core.state == HalfOpen then 1 else 0)
  {
    var m := cfg.halfOpenMaxRequests;
    assert (n - 1) * m == n * m - m;
    assert (n + 1 - 1) * m == n * m;
    if e.Withdraw? && e.id < |s.permits| && s.permits[e.id].fate == Pending {
      WithdrawBudgeted(cfg, s, r, e.id, e.now);
      ProbesStep(cfg, s, e);
    } else {
      ProbesStep(cfg, s, e);
    }
  }

  lemma {:induction false} ProbesAreBudgeted(cfg: Config, es: seq<Event>)
    requires ValidConfig(cfg) && Automatic(es)
    ensures Budgeted(cfg, Run(cfg, es), HalfOpenEntries(cfg, es))
  {
    if es != [] {
      var before := es[..|es| - 1];
      ProbesAreBudgeted(cfg, before);
      RunRefines(cfg, before);
      BudgetedStep(cfg, Run(cfg, before), ReferenceRun(cfg, before), es[|es| - 1], HalfOpenEntries(cfg, before));
    }
  }

  /** `n` half-open phases within `last - first` took openTimeout each, and the probes number at most
      halfOpenMaxRequests for each whole openTimeout that has passed. */
  ghost predicate RateBounded(cfg: Config, probes: nat, n: nat, first: Option<int>, last: int)
    requires ValidConfig(cfg)
  {
    match first
    case None => probes == 0
    case Some(t) =>
      n * cfg.openTimeout <= last - t && probes <= ((last - t) / cfg.openTimeout) * cfg.halfOpenMaxRequests
  }

  /** Probe rate bound: in every run with a nondecreasing clock and no manual transition. */
  lemma {:induction false} ProbeRateBound(cfg: Config, es: seq<Event>)
    requires ValidConfig(cfg) && Timed(es) && Automatic(es) && es != []
    ensures RateBounded(cfg, |Probes(Run(cfg, es))|, HalfOpenEntries(cfg, es), FirstOpening(cfg, es), es[|es| - 1].now)
  {
    EntriesAreSpaced(cfg, es);
    ProbesWithinEntries(cfg, es);
    RateFromBudget(cfg, Run(cfg, es).core, |Probes(Run(cfg, es))|, HalfOpenEntries(cfg, es), FirstOpening(cfg, es),
                   es[|es| - 1].now);
  }

  lemma {:induction false} ProbesWithinEntries(cfg: Config, es: seq<Event>)
    requires ValidConfig(cfg) && Automatic(es)
    ensures |Probes(Run(cfg, es))| <= HalfOpenEntries(cfg, es) * cfg.halfOpenMaxRequests
  {
    ProbesAreBudgeted(cfg, es);
    RunRefines(cfg, es);
    BudgetWithinLimit(cfg, Run(cfg, es), ReferenceRun(cfg, es), HalfOpenEntries(cfg, es));
  }

  lemma {:induction false} BudgetWithinLimit(cfg: Config, s: System, r: Reference, n: nat)
    requires ValidConfig(cfg) && Refines(cfg, s, r) && Budgeted(cfg, s, n)
    ensures |Probes(s)| <= n * cfg.halfOpenMaxRequests
  {
    var m := cfg.halfOpenMaxRequests;
    assert (n - 1) * m == n * m - m;
  }

  lemma {:induction false} RateFromBudget(cfg: Config, core: Core, probes: nat, n: nat, first: Option<int>, last: int)
    requires ValidConfig(cfg) && Spaced(cfg, core, n, first, last) && probes <= n * cfg.halfOpenMaxRequests
    ensures RateBounded(cfg, probes, n, first, last)
  {
    if first.Some? {
      var q := (last - first.value) / cfg.openTimeout;
      assert n <= q by {
        assert last - first.value < (q + 1) * cfg.openTimeout;
        if q < n {
          ProductMonotone(q + 1, n, cfg.openTimeout);
        }
      }
      ProductMonotone(n, q, cfg.halfOpenMaxRequests);
    }
  }

  lemma ProductMonotone(a: int, b: int, m: int)
    requires a <= b && m >= 0
    ensures a * m <= b * m
  {
  }
}
