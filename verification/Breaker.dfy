/** The circuit breaker of internal/breaker/breaker.go.

    `Core` holds the fields the breaker mutates under its lock. Each locked region is
    one function on `Core`; class `Breaker` and class `Permit` execute the regions in
    place and are proved to follow them. The clock is a parameter, in nanoseconds. */
module CircuitBreaker {
  import opened Options

  datatype State = Closed | Open | HalfOpen

  datatype Config = Config(failureThreshold: int, openTimeout: int, halfOpenMaxRequests: int)

  datatype ConfigError = InvalidFailureThreshold | InvalidOpenTimeout | InvalidHalfOpenMaxRequests

  datatype TransitionError = InvalidState | InvalidTransition

  /** Why a request fails fast. */
  datatype Rejection = OpenCircuit | ProbeLimit

  /** What a permit remembers about its admission. */
  datatype Ticket = Ticket(generation: nat, probe: bool)

  datatype Core = Core(
    state: State,
    consecutiveFailures: nat,
    openedAt: int,
    generation: nat,
    halfOpenAdmitted: nat,
    halfOpenSuccesses: nat)

  const DEFAULT_FAILURE_THRESHOLD := 5
  const DEFAULT_OPEN_TIMEOUT := 30_000_000_000
  const DEFAULT_HALF_OPEN_MAX_REQUESTS := 1

  const INITIAL := Core(Closed, 0, 0, 0, 0, 0)

  predicate ValidConfig(c: Config) {
    c.failureThreshold > 0 && c.openTimeout > 0 && c.halfOpenMaxRequests > 0
  }

  function WithDefaults(c: Config): Config {
    Config(
      if c.failureThreshold == 0 then DEFAULT_FAILURE_THRESHOLD else c.failureThreshold,
      if c.openTimeout == 0 then DEFAULT_OPEN_TIMEOUT else c.openTimeout,
      if c.halfOpenMaxRequests == 0 then DEFAULT_HALF_OPEN_MAX_REQUESTS else c.halfOpenMaxRequests)
  }

  /** The states by their operator-visible codes; other codes name no state. */
  function StateOf(code: nat): Option<State> {
    if code == 0 then Some(Closed) else if code == 1 then Some(Open) else if code == 2 then Some(HalfOpen) else None
  }

  predicate ValidTransition(current: State, next: State) {
    match current
    case Closed => next == Open
    case Open => next == HalfOpen
    case HalfOpen => next == Closed || next == Open
  }

  function Transition(core: Core, next: State, now: int): Core {
    Core(next,
         if next == Closed then 0 else core.consecutiveFailures,
         if next == Open then now else core.openedAt,
         core.generation + 1, 0, 0)
  }

  /** The core once an expired open phase has lazily become half-open. */
  function Awakened(cfg: Config, core: Core, now: int): Core {
    if core.state == Open && now >= core.openedAt + cfg.openTimeout
    then Transition(core, HalfOpen, now) else core
  }

  function AcquireCore(cfg: Config, core: Core, now: int): (Core, Result<Ticket, Rejection>) {
    var c := Awakened(cfg, core, now);
    match c.state
    case Open => (c, Err(OpenCircuit))
    case Closed => (c, Ok(Ticket(c.generation, false)))
    case HalfOpen =>
      if c.halfOpenAdmitted >= cfg.halfOpenMaxRequests then (c, Err(ProbeLimit))
      else (c.(halfOpenAdmitted := c.halfOpenAdmitted + 1), Ok(Ticket(c.generation, true)))
  }

  function RecordCore(cfg: Config, core: Core, t: Ticket, success: bool, now: int): Core {
    if core.generation != t.generation then core
    else if t.probe then
      if core.state != HalfOpen then core
      else if !success then Transition(core, Open, now)
      else
        var c := core.(halfOpenSuccesses := core.halfOpenSuccesses + 1);
        if c.halfOpenSuccesses == cfg.halfOpenMaxRequests then Transition(c, Closed, now) else c
    else if core.state != Closed then core
    else if success then core.(consecutiveFailures := 0)
    else
      var c := core.(consecutiveFailures := core.consecutiveFailures + 1);
      if c.consecutiveFailures == cfg.failureThreshold then Transition(c, Open, now) else c
  }

  function CancelCore(core: Core, t: Ticket): Core {
    if core.generation != t.generation || !t.probe || core.state != HalfOpen || core.halfOpenAdmitted == 0 then core
    else core.(halfOpenAdmitted := core.halfOpenAdmitted - 1)
  }

  function ForceCore(core: Core, code: nat, now: int): (Core, Option<TransitionError>) {
    match StateOf(code)
    case None => (core, Some(InvalidState))
    case Some(next) =>
      if core.state == next then (core, None)
      else if !ValidTransition(core.state, next) then (core, Some(InvalidTransition))
      else (Transition(core, next, now), None)
  }

  class Breaker {
    const cfg: Config
    var state: State
    var consecutiveFailures: nat
    var openedAt: int
    var generation: nat
    var halfOpenAdmitted: nat
    var halfOpenSuccesses: nat

    function Snapshot(): Core
      reads this
    {
      Core(state, consecutiveFailures, openedAt, generation, halfOpenAdmitted, halfOpenSuccesses)
    }

    constructor (config: Config)
      requires ValidConfig(config)
      ensures cfg == config && Snapshot() == INITIAL
    {
      cfg := config;
      state, consecutiveFailures, openedAt, generation := Closed, 0, 0, 0;
      halfOpenAdmitted, halfOpenSuccesses := 0, 0;
    }

    method TransitionLocked(next: State, now: int)
      modifies this
      ensures Snapshot() == Transition(old(Snapshot()), next, now)
    {
      state := next;
      generation := generation + 1;
      halfOpenAdmitted := 0;
      halfOpenSuccesses := 0;
      if next == Open {
        openedAt := now;
      }
      if next == Closed {
        consecutiveFailures := 0;
      }
    }

    method Acquire(now: int) returns (r: Result<Permit, Rejection>)
      modifies this
      ensures Snapshot() == AcquireCore(cfg, old(Snapshot()), now).0
      ensures match AcquireCore(cfg, old(Snapshot()), now).1
              case Err(why) => r == Err(why)
              case Ok(t) => r.Ok? && fresh(r.value) && r.value.breaker == this && !r.value.used && r.value.ticket == t
    {
      if state == Open {
        if now < openedAt + cfg.openTimeout {
          return Err(OpenCircuit);
        }
        TransitionLocked(HalfOpen, now);
      }
      if state == HalfOpen {
        if halfOpenAdmitted >= cfg.halfOpenMaxRequests {
          return Err(ProbeLimit);
        }
        halfOpenAdmitted := halfOpenAdmitted + 1;
      }
      var p := new Permit(this, Ticket(generation, state == HalfOpen));
      r := Ok(p);
    }

    method Record(t: Ticket, success: bool, now: int)
      modifies this
      ensures Snapshot() == RecordCore(cfg, old(Snapshot()), t, success, now)
    {
      if generation != t.generation {
        return;
      }
      if t.probe {
        if state != HalfOpen {
          return;
        }
        if !success {
          TransitionLocked(Open, now);
          return;
        }
        halfOpenSuccesses := halfOpenSuccesses + 1;
        if halfOpenSuccesses == cfg.halfOpenMaxRequests {
          TransitionLocked(Closed, now);
        }
        return;
      }
      if state != Closed {
        return;
      }
      if success {
        consecutiveFailures := 0;
        return;
      }
      consecutiveFailures := consecutiveFailures + 1;
      if consecutiveFailures == cfg.failureThreshold {
        TransitionLocked(Open, now);
      }
    }

    method Cancel(t: Ticket)
      modifies this
      ensures Snapshot() == CancelCore(old(Snapshot()), t)
    {
      if generation != t.generation || !t.probe || state != HalfOpen {
        return;
      }
      if halfOpenAdmitted > 0 {
        halfOpenAdmitted := halfOpenAdmitted - 1;
      }
    }

    method TransitionTo(code: nat, now: int) returns (e: Option<TransitionError>)
      modifies this
      ensures (Snapshot(), e) == ForceCore(old(Snapshot()), code, now)
      ensures e == Some(InvalidState) <==> code > 2
      ensures e == Some(InvalidTransition) <==> (old(state), code) in {(Closed, 2), (Open, 0)}
      ensures e.Some? ==> Snapshot() == old(Snapshot())
    {
      match StateOf(code) {
        case None => return Some(InvalidState);
        case Some(next) =>
          if state == next {
            return None;
          }
          if !ValidTransition(state, next) {
            return Some(InvalidTransition);
          }
          TransitionLocked(next, now);
          return None;
      }
    }
  }

  /** One admitted request. `used` is the state of its sync.Once. */
  class Permit {
    const breaker: Breaker
    const ticket: Ticket
    var used: bool

    constructor (breaker: Breaker, ticket: Ticket)
      ensures this.breaker == breaker && this.ticket == ticket && !used
    {
      this.breaker, this.ticket, used := breaker, ticket, false;
    }

    method Report(success: bool, now: int)
      modifies this, breaker
      ensures used
      ensures breaker.Snapshot() ==
              if old(used) then old(breaker.Snapshot())
              else RecordCore(breaker.cfg, old(breaker.Snapshot()), ticket, success, now)
    {
      if !used {
        used := true;
        breaker.Record(ticket, success, now);
      }
    }

    method Cancel()
      modifies this, breaker
      ensures used
      ensures breaker.Snapshot() ==
              if old(used) then old(breaker.Snapshot()) else CancelCore(old(breaker.Snapshot()), ticket)
    {
      if !used {
        used := true;
        breaker.Cancel(ticket);
      }
    }
  }

  /** Construction rejects negative settings in the order threshold, timeout, probe
      limit; zero settings take the defaults. */
  method NewWithConfig(c: Config) returns (r: Result<Breaker, ConfigError>)
    ensures c.failureThreshold < 0 ==> r == Err(InvalidFailureThreshold)
    ensures c.failureThreshold >= 0 && c.openTimeout < 0 ==> r == Err(InvalidOpenTimeout)
    ensures c.failureThreshold >= 0 && c.openTimeout >= 0 && c.halfOpenMaxRequests < 0
            ==> r == Err(InvalidHalfOpenMaxRequests)
    ensures c.failureThreshold >= 0 && c.openTimeout >= 0 && c.halfOpenMaxRequests >= 0
            ==> r.Ok? && fresh(r.value) && ValidConfig(r.value.cfg) && r.value.Snapshot() == INITIAL
                && r.value.cfg.failureThreshold == (if c.failureThreshold == 0 then 5 else c.failureThreshold)
                && r.value.cfg.openTimeout == (if c.openTimeout == 0 then 30_000_000_000 else c.openTimeout)
                && r.value.cfg.halfOpenMaxRequests == if c.halfOpenMaxRequests == 0 then 1 else c.halfOpenMaxRequests
  {
    if c.failureThreshold < 0 {
      return Err(InvalidFailureThreshold);
    }
    if c.openTimeout < 0 {
      return Err(InvalidOpenTimeout);
    }
    if c.halfOpenMaxRequests < 0 {
      return Err(InvalidHalfOpenMaxRequests);
    }
    var b := new Breaker(WithDefaults(c));
    r := Ok(b);
  }
}
