/** The backend pool of internal/balancer/pool.go: the two selection strategies over shared
    backends, and the pool that owns the cursor. */
module Balancer {
  import opened Options

  datatype PoolError = NoBackends | EmptyBackendURL | UnsupportedStrategy

  const ROUND_ROBIN := "round_robin"
  const LEAST_CONNECTIONS := "least_connections"

  predicate IsSpace(c: char) {
    || '\t' <= c <= '\r' || c == ' ' || c == '\U{0085}' || c == '\U{00A0}' || c == '\U{1680}'
    || '\U{2000}' <= c <= '\U{200A}' || c == '\U{2028}' || c == '\U{2029}' || c == '\U{202F}'
    || c == '\U{205F}' || c == '\U{3000}'
  }

  /** Only white space. */
  predicate Blank(url: string) {
    forall i | 0 <= i < |url| :: IsSpace(url[i])
  }

  /** The index `offset` places after `start` on a ring of `n`. */
  function Ring(n: nat, start: nat, offset: nat): (i: nat)
    requires start <= n && offset < n
    ensures i < n
  {
    if start + offset < n then start + offset else start + offset - n
  }

  lemma {:induction false} RingIsModulo(n: nat, start: nat, offset: nat)
    requires start <= n && offset < n
    ensures (start + offset) % n == Ring(n, start, offset)
  {
    var x := start + offset;
    if x >= n {
      assert x == n * 1 + (x - n);
    }
  }

  /** How many places after `start` index `i` comes on a ring of `n`; a cursor of `n` means 0. */
  function Distance(n: nat, start: nat, i: nat): (d: nat)
    requires start <= n && i < n
    ensures d < n
  {
    if start == n then i else if i >= start then i - start else i + n - start
  }

  lemma RingInverse(n: nat, start: nat, offset: nat)
    requires start <= n && offset < n
    ensures Distance(n, start, Ring(n, start, offset)) == offset
  {
  }

  lemma DistanceInverse(n: nat, start: nat, i: nat)
    requires start <= n && i < n
    ensures Ring(n, start, Distance(n, start, i)) == i
  {
  }

  /** The first index, at `offset` or more places after `start`, that is observed healthy. Each
      index is observed once per scan, so `health` may mix values from different instants. */
  function Scan(health: seq<bool>, start: nat, offset: nat): (r: Option<nat>)
    requires start <= |health| && offset <= |health|
    ensures r.Some? ==> r.value < |health|
    decreases |health| - offset
  {
    if offset == |health| then None
    else if health[Ring(|health|, start, offset)] then Some(Ring(|health|, start, offset))
    else Scan(health, start, offset + 1)
  }

  function PickRoundRobin(health: seq<bool>, next: nat): (r: Option<nat>)
    requires next <= |health|
    ensures r.Some? ==> r.value < |health|
  {
    Scan(health, next, 0)
  }

  function NextCursor(health: seq<bool>, next: nat): (c: nat)
    requires next <= |health|
    ensures c <= |health|
  {
    match PickRoundRobin(health, next)
    case None => next
    case Some(i) => i + 1
  }

  lemma {:induction false} ScanIsNearest(health: seq<bool>, start: nat, offset: nat)
    requires start <= |health| && offset <= |health|
    ensures match Scan(health, start, offset)
            case None => forall j | 0 <= j < |health| && health[j] :: Distance(|health|, start, j) < offset
            case Some(i) =>
              && health[i] && offset <= Distance(|health|, start, i)
              && forall j | 0 <= j < |health| && health[j] ::
                   Distance(|health|, start, j) < offset || Distance(|health|, start, i) <= Distance(|health|, start, j)
    decreases |health| - offset
  {
    if offset < |health| {
      var i := Ring(|health|, start, offset);
      RingInverse(|health|, start, offset);
      ScanIsNearest(health, start, offset + 1);
      forall j | 0 <= j < |health| && j != i
        ensures Distance(|health|, start, j) != offset
      {
        DistanceInverse(|health|, start, j);
      }
    }
  }

  /** Round-robin picks the healthy backend nearest to the cursor, and none only if none is healthy. */
  lemma {:induction false} PickIsNearest(health: seq<bool>, next: nat)
    requires next <= |health|
    ensures match PickRoundRobin(health, next)
            case None => forall j | 0 <= j < |health| :: !health[j]
            case Some(i) =>
              && health[i]
              && forall j | 0 <= j < |health| && health[j] ::
                   Distance(|health|, next, i) <= Distance(|health|, next, j)
  {
    ScanIsNearest(health, next, 0);
  }

  /** Healthy, with the fewest connections, and the earliest of those. */
  ghost predicate IsLeastLoaded(health: seq<bool>, active: seq<nat>, i: int)
    requires |health| == |active|
  {
    && 0 <= i < |health| && health[i]
    && forall j | 0 <= j < |health| && health[j] :: active[i] <= active[j] && (j < i ==> active[i] < active[j])
  }

  /** What the strategy promises of selection `i`: round robin takes the healthy backend nearest to the
      cursor and moves the cursor behind it, least connections the least loaded one. */
  ghost predicate Selected(strategy: string, health: seq<bool>, active: seq<nat>, next: nat, next': nat, i: nat)
    requires |health| == |active| && next <= |health|
  {
    && i < |health| && health[i]
    && if strategy == "round_robin" then
         && next' == i + 1
         && forall j | 0 <= j < |health| && health[j] :: Distance(|health|, next, i) <= Distance(|health|, next, j)
       else next' == next && IsLeastLoaded(health, active, i)
  }

  class Backend {
    const url: string
    var healthy: bool
    var activeConnections: nat

    constructor (url: string)
      ensures this.url == url && healthy && activeConnections == 0
    {
      this.url, healthy, activeConnections := url, true, 0;
    }

    method SetHealthy(value: bool)
      modifies this`healthy
      ensures healthy == value
    {
      healthy := value;
    }

    method Acquire()
      modifies this`activeConnections
      ensures activeConnections == old(activeConnections) + 1
    {
      activeConnections := activeConnections + 1;
    }

    /** Release without interference; module ReleaseProtocol treats the retry loop. */
    method Release()
      modifies this`activeConnections
      ensures activeConnections == if old(activeConnections) == 0 then 0 else old(activeConnections) - 1
    {
      var current := activeConnections;
      if current == 0 {
        return;
      }
      activeConnections := current - 1;
    }
  }

  class Pool {
    const backends: seq<Backend>
    const strategy: string
    var next: nat

    ghost predicate Valid()
      reads this
    {
      && 0 < |backends| && next <= |backends|
      && (strategy == ROUND_ROBIN || strategy == LEAST_CONNECTIONS)
      && forall i, j | 0 <= i < j < |backends| :: backends[i] != backends[j]
    }

    ghost function Health(): (h: seq<bool>)
      reads backends
      ensures |h| == |backends|
    {
      seq(|backends|, i requires 0 <= i < |backends| reads backends => backends[i].healthy)
    }

    ghost function Active(): (a: seq<nat>)
      reads backends
      ensures |a| == |backends|
    {
      seq(|backends|, i requires 0 <= i < |backends| reads backends => backends[i].activeConnections)
    }

    constructor (backends: seq<Backend>, strategy: string)
      requires 0 < |backends| && (strategy == ROUND_ROBIN || strategy == LEAST_CONNECTIONS)
      requires forall i, j | 0 <= i < j < |backends| :: backends[i] != backends[j]
      ensures Valid() && this.backends == backends && this.strategy == strategy && next == 0
    {
      this.backends, this.strategy, next := backends, strategy, 0;
    }

    method NextRoundRobin() returns (r: Option<nat>)
      requires Valid()
      modifies this`next
      ensures r == PickRoundRobin(Health(), old(next)) && next == NextCursor(Health(), old(next))
    {
      var start, offset := next, 0;
      while offset < |backends|
        invariant 0 <= offset <= |backends| && next == start
        invariant PickRoundRobin(Health(), start) == Scan(Health(), start, offset)
      {
        RingIsModulo(|backends|, start, offset);
        var index := (start + offset) % |backends|;
        if backends[index].healthy {
          next := index + 1;
          return Some(index);
        }
        offset := offset + 1;
      }
      return None;
    }

    method NextLeastConnections() returns (r: Option<nat>)
      ensures match r
              case None => forall i | 0 <= i < |backends| :: !Health()[i]
              case Some(i) => IsLeastLoaded(Health(), Active(), i)
    {
      r := None;
      for k := 0 to |backends|
        invariant match r
                  case None => forall i | 0 <= i < k :: !Health()[i]
                  case Some(i) => i < k && IsLeastLoaded(Health()[..k], Active()[..k], i)
      {
        if !backends[k].healthy {
          continue;
        }
        if r == None || backends[k].activeConnections < backends[r.value].activeConnections {
          r := Some(k);
        }
      }
    }

    /** Selects and counts in one step: one more connection on the selected backend, no other
        change; no healthy backend leaves everything as it was. */
    method Acquire() returns (r: Option<nat>)
      requires Valid()
      modifies this`next, backends
      ensures Valid() && Health() == old(Health())
      ensures strategy == ROUND_ROBIN ==> r == PickRoundRobin(old(Health()), old(next))
      ensures match r
              case None => Active() == old(Active()) && next == old(next) && forall i | 0 <= i < |backends| :: !Health()[i]
              case Some(i) =>
                && Selected(strategy, old(Health()), old(Active()), old(next), next, i)
                && Active() == old(Active())[i := old(Active())[i] + 1]
    {
      if strategy == ROUND_ROBIN {
        r := NextRoundRobin();
        PickIsNearest(Health(), old(next));
      } else {
        r := NextLeastConnections();
      }
      if r == None {
        return;
      }
      backends[r.value].Acquire();
    }
  }

  /** A pool of distinct backends, all healthy and idle, in the order of their URLs. */
  method NewPoolWithStrategy(urls: seq<string>, strategy: string) returns (r: Result<Pool, PoolError>)
    ensures r.Err? ==>
      r.error == if urls == [] then NoBackends
                 else if strategy !in {"round_robin", "least_connections"} then UnsupportedStrategy
                 else EmptyBackendURL
    ensures r.Ok? <==> urls != [] && strategy in {"round_robin", "least_connections"}
                       && forall i | 0 <= i < |urls| :: !Blank(urls[i])
    ensures r.Ok? ==>
      && fresh(r.value) && r.value.Valid() && r.value.strategy == strategy && r.value.next == 0
      && |r.value.backends| == |urls|
      && forall i | 0 <= i < |urls| ::
           var b := r.value.backends[i];
           fresh(b) && b.url == urls[i] && b.healthy && b.activeConnections == 0
  {
    if urls == [] {
      return Err(NoBackends);
    }
    if strategy != ROUND_ROBIN && strategy != LEAST_CONNECTIONS {
      return Err(UnsupportedStrategy);
    }
    var backends: seq<Backend> := [];
    for k := 0 to |urls|
      invariant |backends| == k && forall i | 0 <= i < k :: !Blank(urls[i])
      invariant forall i | 0 <= i < k ::
        fresh(backends[i]) && backends[i].url == urls[i] && backends[i].healthy && backends[i].activeConnections == 0
      invariant forall i, j | 0 <= i < j < k :: backends[i] != backends[j]
    {
      if Blank(urls[k]) {
        return Err(EmptyBackendURL);
      }
      var b := new Backend(urls[k]);
      backends := backends + [b];
    }
    var p := new Pool(backends, strategy);
    r := Ok(p);
  }
}

/** Round-robin over whole runs: starvation freedom and fairness; and how level
    least-connections keeps a pool. */
module BalancerRuns {
  import opened Options
  import opened Balancer

  /** The picks of consecutive Acquires, the k-th one observing health `observed[k]`. */
  function Picks(n: nat, cursor: nat, observed: seq<seq<bool>>): (r: seq<Option<nat>>)
    requires cursor <= n && forall k | 0 <= k < |observed| :: |observed[k]| == n
    ensures |r| == |observed|
    decreases |observed|
  {
    if observed == [] then []
    else [PickRoundRobin(observed[0], cursor)] + Picks(n, NextCursor(observed[0], cursor), observed[1..])
  }

  /** After a pick at most as far as `i`, the distance to `i` shrinks past the pick. */
  lemma DistanceAfterPick(n: nat, cursor: nat, picked: nat, i: nat)
    requires cursor <= n && picked < n && i < n
    requires Distance(n, cursor, picked) < Distance(n, cursor, i)
    ensures Distance(n, picked + 1, i) == Distance(n, cursor, i) - Distance(n, cursor, picked) - 1
  {
  }

  lemma {:induction false} ChosenWithinDistance(n: nat, cursor: nat, observed: seq<seq<bool>>, b: nat) returns (k: nat)
    requires cursor <= n && b < n && forall k | 0 <= k < |observed| :: |observed[k]| == n && observed[k][b]
    requires Distance(n, cursor, b) < |observed|
    ensures k <= Distance(n, cursor, b) && Picks(n, cursor, observed)[k] == Some(b)
    decreases |observed|
  {
    PickIsNearest(observed[0], cursor);
    var i := PickRoundRobin(observed[0], cursor).value;
    if i == b {
      k := 0;
    } else {
      DistanceInverse(n, cursor, i);
      DistanceInverse(n, cursor, b);
      DistanceAfterPick(n, cursor, i, b);
      var rest := ChosenWithinDistance(n, i + 1, observed[1..], b);
      k := rest + 1;
    }
  }

  /** Starvation freedom: a backend observed healthy is picked within any n consecutive Acquires of
      an n-backend pool, whatever the other health flags do, between or during scans. */
  lemma {:induction false} NoStarvation(n: nat, cursor: nat, observed: seq<seq<bool>>, b: nat)
    requires cursor <= n && b < n && |observed| == n
    requires forall k | 0 <= k < n :: |observed[k]| == n && observed[k][b]
    ensures Some(b) in Picks(n, cursor, observed)
  {
    var k := ChosenWithinDistance(n, cursor, observed, b);
  }

  // ----- Fairness with fixed health

  function CursorAfter(health: seq<bool>, cursor: nat, k: nat): (c: nat)
    requires cursor <= |health|
    ensures c <= |health|
  {
    if k == 0 then cursor else NextCursor(health, CursorAfter(health, cursor, k - 1))
  }

  /** How often `b` is picked in the first `k` Acquires. */
  function Count(health: seq<bool>, cursor: nat, k: nat, b: nat): nat
    requires cursor <= |health|
  {
    if k == 0 then 0
    else
      Count(health, cursor, k - 1, b)
      + if PickRoundRobin(health, CursorAfter(health, cursor, k - 1)) == Some(b) then 1 else 0
  }

  /** One if `a` comes before `b` from the cursor, else zero. */
  function Ahead(n: nat, cursor: nat, a: nat, b: nat): int
    requires cursor <= n && a < n && b < n
  {
    if Distance(n, cursor, a) < Distance(n, cursor, b) then 1 else 0
  }

  lemma {:induction false} AheadStep(health: seq<bool>, cursor: nat, a: nat, b: nat)
    requires cursor <= |health| && a < |health| && b < |health| && a != b && health[a] && health[b]
    ensures var picked := PickRoundRobin(health, cursor);
            var n := |health|;
            (if picked == Some(a) then 1 else 0) - (if picked == Some(b) then 1 else 0)
            == Ahead(n, cursor, a, b) - Ahead(n, NextCursor(health, cursor), a, b)
  {
    var n := |health|;
    PickIsNearest(health, cursor);
    var i := PickRoundRobin(health, cursor).value;
    DistanceInverse(n, cursor, i);
    DistanceInverse(n, cursor, a);
    DistanceInverse(n, cursor, b);
    if i != a && i != b {
      DistanceAfterPick(n, cursor, i, a);
      DistanceAfterPick(n, cursor, i, b);
    }
  }

  /** Round-robin fairness, exactly: over any block of Acquires the difference between the counts of
      two healthy backends is the change in which of them comes first from the cursor. So it is at
      most one, and unhealthy backends get nothing. */
  lemma {:induction false} RoundRobinIsFair(health: seq<bool>, cursor: nat, k: nat, a: nat, b: nat)
    requires cursor <= |health| && a < |health| && b < |health| && a != b && health[a]
    ensures health[b] ==>
      Count(health, cursor, k, a) - Count(health, cursor, k, b)
      == Ahead(|health|, cursor, a, b) - Ahead(|health|, CursorAfter(health, cursor, k), a, b)
    ensures health[b] ==> -1 <= Count(health, cursor, k, a) - Count(health, cursor, k, b) <= 1
    ensures !health[b] ==> Count(health, cursor, k, b) == 0
  {
    if k > 0 {
      RoundRobinIsFair(health, cursor, k - 1, a, b);
      PickIsNearest(health, CursorAfter(health, cursor, k - 1));
      if health[b] {
        AheadStep(health, CursorAfter(health, cursor, k - 1), a, b);
      }
    }
  }

  // ----- Least connections

  /** Healthy backends differ by at most `d` connections. */
  ghost predicate Within(health: seq<bool>, active: seq<nat>, d: nat)
    requires |health| == |active|
  {
    forall i, j | 0 <= i < |health| && 0 <= j < |health| && health[i] && health[j] :: active[i] <= active[j] + d
  }

  /** A request is assigned to a backend, or one of a backend's requests completes. */
  datatype Change = Assign(b: nat) | Free(b: nat)

  function Apply(active: seq<nat>, c: Change): (r: seq<nat>)
    ensures |r| == |active|
  {
    if c.b >= |active| then active
    else match c
      case Assign(b) => active[b := active[b] + 1]
      case Free(b) => if active[b] == 0 then active else active[b := active[b] - 1]
  }

  /** Each assignment of the run goes to a backend that is least loaded at that moment. */
  ghost predicate LeastLoadedRun(health: seq<bool>, active: seq<nat>, run: seq<Change>)
    requires |health| == |active|
    decreases |run|
  {
    run == [] ||
    ((run[0].Assign? ==> IsLeastLoaded(health, active, run[0].b))
     && LeastLoadedRun(health, Apply(active, run[0]), run[1..]))
  }

  function ApplyAll(active: seq<nat>, run: seq<Change>): (r: seq<nat>)
    ensures |r| == |active|
    decreases |run|
  {
    if run == [] then active else ApplyAll(Apply(active, run[0]), run[1..])
  }

  function Releases(run: seq<Change>): nat {
    if run == [] then 0 else (if run[0].Free? then 1 else 0) + Releases(run[1..])
  }

  /** Over every mix of assignments and releases, the healthy backends of a pool that starts within
      `d >= 1` connections stay within `d` plus the releases made: only releases unbalance it. */
  lemma {:induction false} LeastConnectionsStaysLevel(health: seq<bool>, active: seq<nat>, run: seq<Change>, d: nat)
    requires |health| == |active| && d >= 1 && Within(health, active, d) && LeastLoadedRun(health, active, run)
    ensures Within(health, ApplyAll(active, run), d + Releases(run))
    decreases |run|
  {
    if run != [] {
      var next := d + if run[0].Free? then 1 else 0;
      assert Within(health, Apply(active, run[0]), next);
      LeastConnectionsStaysLevel(health, Apply(active, run[0]), run[1..], next);
    }
  }

  /** The counts are what they should be: as many more as assigned, as many fewer as released. */
  lemma {:induction false} CountsFollowChanges(active: seq<nat>, run: seq<Change>, b: nat)
    requires b < |active| && multiset(run)[Free(b)] <= active[b]
    ensures ApplyAll(active, run)[b] == active[b] + multiset(run)[Assign(b)] - multiset(run)[Free(b)]
    decreases |run|
  {
    if run != [] {
      assert run == [run[0]] + run[1..];
      CountsFollowChanges(Apply(active, run[0]), run[1..], b);
    }
  }

  // ----- Least connections while requests complete during the scan

  /** Counts over time: connections only fall while the selection lock is held. */
  ghost predicate Falling(counts: seq<seq<nat>>, n: nat) {
    && (forall t | 0 <= t < |counts| :: |counts[t]| == n)
    && (forall t, s, b | 0 <= t <= s < |counts| && 0 <= b < n :: counts[s][b] <= counts[t][b])
  }

  /** The scan of the first `k` backends. Backend `i` is read at instant 2i, the best so far after
      it, at instant 2i + 1; `health[i]` is what the scan observed of backend `i`. */
  function ScanLeast(health: seq<bool>, counts: seq<seq<nat>>, k: nat): (r: Option<nat>)
    requires k <= |health| && |counts| == 2 * |health| + 1
    requires forall t | 0 <= t < |counts| :: |counts[t]| == |health|
    ensures r.Some? ==> r.value < k && health[r.value]
  {
    if k == 0 then None
    else
      var i, best := k - 1, ScanLeast(health, counts, k - 1);
      if health[i] && (best.None? || counts[2 * i][i] < counts[2 * i + 1][best.value]) then Some(i) else best
  }

  /** Whatever completes during the scan, the selected backend ends it with no more connections than
      any backend observed healthy had when the scan began. */
  lemma {:induction false} ScanLeastBounds(health: seq<bool>, counts: seq<seq<nat>>, k: nat)
    requires k <= |health| && |counts| == 2 * |health| + 1 && Falling(counts, |health|)
    ensures match ScanLeast(health, counts, k)
            case None => forall j | 0 <= j < k :: !health[j]
            case Some(i) => forall j | 0 <= j < k && health[j] :: counts[2 * k][i] <= counts[0][j]
  {
    if k > 0 {
      ScanLeastBounds(health, counts, k - 1);
    }
  }

  /** If nothing completes meanwhile, the selection is the least loaded backend. */
  lemma {:induction false} StillScanIsLeast(health: seq<bool>, active: seq<nat>, counts: seq<seq<nat>>, k: nat)
    requires k <= |health| == |active| && |counts| == 2 * |health| + 1 && forall t | 0 <= t < |counts| :: counts[t] == active
    ensures match ScanLeast(health, counts, k)
            case None => forall j | 0 <= j < k :: !health[j]
            case Some(i) => IsLeastLoaded(health[..k], active[..k], i)
  {
    if k > 0 {
      StillScanIsLeast(health, active, counts, k - 1);
      assert counts[2 * (k - 1)] == counts[2 * (k - 1) + 1] == active;
    }
  }
}

/** The lock-free release loop of internal/balancer/pool.go, with Load and CompareAndSwap as
    separate atomic steps of any number of threads. */
module ReleaseProtocol {
  /** `stamp` records how many updates other threads had made when the value was loaded. */
  datatype Pc = Outside | Holding | Loaded(current: int, stamp: int)

  datatype Thread = Thread(pc: Pc, updates: nat, failures: nat)

  datatype Counter = Counter(
    count: int,
    updates: nat,         // successful writes of the count
    acquired: nat,
    released: nat,
    earlyReturns: nat,    // Release calls that found zero
    threads: seq<Thread>)

  datatype Step = Acquire(t: nat) | Load(t: nat) | Swap(t: nat)

  function Start(n: nat): Counter {
    Counter(0, 0, 0, 0, 0, seq(n, _ => Thread(Outside, 0, 0)))
  }

  function Others(s: Counter, t: nat): int
    requires t < |s.threads|
  {
    s.updates - s.threads[t].updates
  }

  /** A thread acquires when it holds nothing and releases only what it holds. */
  function Next(s: Counter, e: Step): Counter {
    if e.t >= |s.threads| then s else
    var me := s.threads[e.t];
    match e
    case Acquire(t) =>
      if !me.pc.Outside? then s
      else s.(count := s.count + 1, updates := s.updates + 1, acquired := s.acquired + 1,
              threads := s.threads[t := me.(pc := Holding, updates := me.updates + 1)])
    case Load(t) =>
      if !me.pc.Holding? then s
      else if s.count == 0 then
        s.(earlyReturns := s.earlyReturns + 1, threads := s.threads[t := me.(pc := Outside)])
      else s.(threads := s.threads[t := me.(pc := Loaded(s.count, Others(s, t)))])
    case Swap(t) =>
      if !me.pc.Loaded? then s
      else if s.count == me.pc.current then
        s.(count := s.count - 1, updates := s.updates + 1, released := s.released + 1,
           threads := s.threads[t := me.(pc := Outside, updates := me.updates + 1)])
      else s.(threads := s.threads[t := me.(pc := Holding, failures := me.failures + 1)])
  }

  function Run(n: nat, steps: seq<Step>): Counter {
    if steps == [] then Start(n) else Next(Run(n, steps[..|steps| - 1]), steps[|steps| - 1])
  }

  /** The threads that have acquired and not yet released. */
  ghost function InFlight(s: Counter): set<nat> {
    set t | 0 <= t < |s.threads| && !s.threads[t].pc.Outside?
  }

  ghost predicate ThreadOk(s: Counter, t: nat)
    requires t < |s.threads|
  {
    var me := s.threads[t];
    && me.failures <= Others(s, t)
    && (me.pc.Loaded? ==> me.failures <= me.pc.stamp <= Others(s, t)
                          && (me.pc.stamp == Others(s, t) ==> me.pc.current == s.count))
  }

  ghost predicate Conserved(s: Counter) {
    && s.count == |InFlight(s)| == s.acquired - s.released
    && s.earlyReturns == 0
    && forall t | 0 <= t < |s.threads| :: ThreadOk(s, t)
  }

  lemma {:induction false} InFlightStep(s: Counter, e: Step)
    requires e.t < |s.threads|
    ensures var s' := Next(s, e);
            InFlight(s') == if s'.threads[e.t].pc.Outside? then InFlight(s) - {e.t} else InFlight(s) + {e.t}
  {
    var s' := Next(s, e);
    assert |s'.threads| == |s.threads| && forall t | 0 <= t < |s.threads| && t != e.t :: s'.threads[t] == s.threads[t];
  }

  lemma {:induction false} CountConserved(s: Counter, e: Step)
    requires Conserved(s) && e.t < |s.threads|
    ensures var s' := Next(s, e);
            s'.count == |InFlight(s')| == s'.acquired - s'.released && s'.earlyReturns == 0
  {
    InFlightStep(s, e);
    if s.threads[e.t].pc.Outside? {
      assert e.t !in InFlight(s) && InFlight(s) - {e.t} == InFlight(s);
    } else {
      assert e.t in InFlight(s) && InFlight(s) + {e.t} == InFlight(s);
      assert |InFlight(s)| == |InFlight(s) - {e.t}| + 1;
    }
  }

  lemma ThreadStaysOk(s: Counter, e: Step, t: nat)
    requires e.t < |s.threads| && t < |s.threads| && ThreadOk(s, t) && ThreadOk(s, e.t)
    ensures |Next(s, e).threads| == |s.threads| && ThreadOk(Next(s, e), t)
  {
  }

  lemma {:induction false} NextConserves(s: Counter, e: Step)
    requires Conserved(s)
    ensures Conserved(Next(s, e))
  {
    if e.t < |s.threads| {
      CountConserved(s, e);
      forall t | 0 <= t < |Next(s, e).threads|
        ensures ThreadOk(Next(s, e), t)
      {
        assert |Next(s, e).threads| == |s.threads|;
        ThreadStaysOk(s, e, t);
      }
    }
  }

  /** Release conservation under every interleaving: the count is the number of threads in flight
      and equals acquires minus completed releases; the early return at zero is never taken; and a
      thread's failed swaps never outnumber the updates of other threads. */
  lemma {:induction false} ReleaseConserves(n: nat, steps: seq<Step>)
    ensures Conserved(Run(n, steps))
  {
    if steps == [] {
      assert InFlight(Start(n)) == {};
    } else {
      ReleaseConserves(n, steps[..|steps| - 1]);
      NextConserves(Run(n, steps[..|steps| - 1]), steps[|steps| - 1]);
    }
  }

  /** A swap fails only if another thread has updated the count since this thread's load. */
  lemma {:induction false} FailedSwapHasCulprit(n: nat, steps: seq<Step>, t: nat)
    requires var s := Run(n, steps);
             t < |s.threads| && s.threads[t].pc.Loaded? && Next(s, Swap(t)).released == s.released
    ensures var s := Run(n, steps); Others(s, t) > s.threads[t].pc.stamp
  {
    ReleaseConserves(n, steps);
    assert ThreadOk(Run(n, steps), t);
  }

  // ----- Every acquire and every release counts

  lemma {:induction false} RunSnoc(n: nat, steps: seq<Step>, e: Step)
    ensures Run(n, steps + [e]) == Next(Run(n, steps), e)
  {
    assert (steps + [e])[..|steps|] == steps;
  }

  lemma {:induction false} ThreadsStay(n: nat, steps: seq<Step>)
    ensures |Run(n, steps).threads| == n
  {
    if steps != [] {
      ThreadsStay(n, steps[..|steps| - 1]);
    }
  }

  /** Whoever else is in flight, an acquire counts at once. */
  lemma {:induction false} EveryAcquireCounts(n: nat, steps: seq<Step>, t: nat)
    requires t < n && t !in InFlight(Run(n, steps))
    ensures var s, s' := Run(n, steps), Run(n, steps + [Acquire(t)]);
            s'.count == s.count + 1 && s'.acquired == s.acquired + 1 && InFlight(s') == InFlight(s) + {t}
  {
    ThreadsStay(n, steps);
    RunSnoc(n, steps, Acquire(t));
    InFlightStep(Run(n, steps), Acquire(t));
  }

  /** Step `e` acquires for a thread that is not in flight after `before`. */
  ghost predicate Enters(n: nat, before: seq<Step>, e: Step) {
    e.Acquire? && e.t < n && e.t !in InFlight(Run(n, before))
  }

  ghost function Acquires(n: nat, steps: seq<Step>): set<nat> {
    set k | 0 <= k < |steps| && Enters(n, steps[..k], steps[k])
  }

  lemma {:induction false} AcquiresSnoc(n: nat, steps: seq<Step>, e: Step)
    ensures Acquires(n, steps + [e]) == Acquires(n, steps) + if Enters(n, steps, e) then {|steps|} else {}
  {
    var all := steps + [e];
    forall k | 0 <= k <= |steps|
      ensures k in Acquires(n, all) <==> if k == |steps| then Enters(n, steps, e) else k in Acquires(n, steps)
    {
      assert all[..k] == steps[..k] && steps[..|steps|] == steps;
    }
  }

  /** No acquire is lost and none counts twice, under every interleaving. */
  lemma {:induction false} AcquiredIsExact(n: nat, steps: seq<Step>)
    ensures Run(n, steps).acquired == |Acquires(n, steps)|
  {
    if steps == [] {
      assert Acquires(n, steps) == {};
    } else {
      var before, e := steps[..|steps| - 1], steps[|steps| - 1];
      assert steps == before + [e];
      AcquiredIsExact(n, before);
      AcquiresSnoc(n, before, e);
      ThreadsStay(n, before);
    }
  }

  ghost function AcquireFirst(k: nat): seq<Step> {
    seq(k, (i: nat) => Acquire(i))
  }

  /** Any number of threads can hold at the same time, and all of them count. */
  lemma {:induction false} AllCanHold(n: nat, k: nat)
    requires k <= n
    ensures var s := Run(n, AcquireFirst(k));
            s.count == k && forall t: nat | t < n :: t in InFlight(s) <==> t < k
  {
    if k > 0 {
      assert AcquireFirst(k) == AcquireFirst(k - 1) + [Acquire(k - 1)];
      AllCanHold(n, k - 1);
      EveryAcquireCounts(n, AcquireFirst(k - 1), k - 1);
    }
  }

  /** Obstruction freedom: whatever happened before, a thread in flight that loads and swaps with
      nobody in between completes its release. */
  lemma {:induction false} UndisturbedReleaseCompletes(n: nat, steps: seq<Step>, t: nat)
    requires t in InFlight(Run(n, steps)) && Run(n, steps).threads[t].pc.Holding?
    ensures var s, s' := Run(n, steps), Run(n, steps + [Load(t)] + [Swap(t)]);
            s'.count == s.count - 1 && s'.released == s.released + 1 && InFlight(s') == InFlight(s) - {t}
  {
    ReleaseConserves(n, steps);
    var s := Run(n, steps);
    assert t in InFlight(s) && s.count != 0;
    RunSnoc(n, steps, Load(t));
    RunSnoc(n, steps + [Load(t)], Swap(t));
    InFlightStep(s, Load(t));
    InFlightStep(Next(s, Load(t)), Swap(t));
  }

  /** A swap completes the release exactly if the count is the one loaded; otherwise nothing changes
      and the thread is ready to load again. */
  lemma {:induction false} SwapOutcome(n: nat, steps: seq<Step>, t: nat)
    requires t in InFlight(Run(n, steps)) && Run(n, steps).threads[t].pc.Loaded?
    ensures var s, s' := Run(n, steps), Run(n, steps + [Swap(t)]);
            if s.count == s.threads[t].pc.current
            then s'.count == s.count - 1 && s'.released == s.released + 1 && InFlight(s') == InFlight(s) - {t}
            else s'.count == s.count && InFlight(s') == InFlight(s) && s'.threads[t].pc == Holding
  {
    RunSnoc(n, steps, Swap(t));
    InFlightStep(Run(n, steps), Swap(t));
  }
}
