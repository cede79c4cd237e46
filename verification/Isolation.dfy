/** What one client's answers depend on: its own calls alone, or also when others call. */
module ClientIsolation {
  import opened Options
  import opened TokenBucket
  import opened ClientLimiters
  import opened LimiterRuns
  import opened IdleEviction

  function Only(calls: seq<Call>, key: string): seq<Call> {
    if calls == [] then []
    else Only(calls[..|calls| - 1], key) + if calls[|calls| - 1].key == key then [calls[|calls| - 1]] else []
  }

  lemma {:induction false} OnlyTimed(start: int, calls: seq<Call>, key: string, until: int)
    requires Timed(start, calls, until)
    ensures Timed(start, Only(calls, key), until)
  {
    if calls != [] {
      OnlyTimed(start, calls[..|calls| - 1], key, calls[|calls| - 1].now);
    }
  }

  // ----- A refill that fits into the idle TTL isolates clients

  lemma {:induction false} IdealIgnoresOthers(l: Limit, calls: seq<Call>, c: Call)
    ensures IdealBucket(l, IdealRun(l, calls), c) == IdealBucket(l, IdealRun(l, Only(calls, c.key)), c)
    ensures c.key in IdealRun(l, calls) <==> c.key in IdealRun(l, Only(calls, c.key))
  {
    if calls != [] {
      var before, last := calls[..|calls| - 1], calls[|calls| - 1];
      IdealIgnoresOthers(l, before, c);
      if last.key == c.key {
        var kept := Only(before, c.key);
        assert (kept + [last])[..|kept|] == kept;
        IdealIgnoresOthers(l, before, last);
      } else {
        assert Only(before, c.key) + [] == Only(before, c.key);
      }
    }
  }

  // ----- So does a cleanup at every new instant

  /** The entry a call of `k` at `now` will find. */
  function Remembered(cfg: Settings, s: Shard, k: string, now: int): Option<Client> {
    if k in s.clients && !Idle(cfg, s.clients[k], now) then Some(s.clients[k]) else None
  }

  function Found(cfg: Settings, e: Option<Client>, now: int): Client {
    match e
    case None => Client(Full(cfg.limit, now), now)
    case Some(c) => if now > c.lastSeen then c.(lastSeen := now) else c
  }

  /** With cleanup at every new instant, a call sees only what it remembers of its own client. */
  lemma {:induction false} CallFromMemory(cfg: Settings, s: Shard, c: Call)
    requires cfg.interval == 1 && 0 < cfg.idleTTL && Tidy(cfg, s, c.now)
    ensures var (s', allowed) := AllowInShard(cfg, s, c.key, c.now);
            var e := Found(cfg, Remembered(cfg, s, c.key, c.now), c.now);
            var (bucket, answer) := AllowAt(cfg.limit, e.bucket, c.now);
            allowed == answer && c.key in s'.clients && s'.clients[c.key] == e.(bucket := bucket)
  {
    assert Seen(cfg, CleanupShard(cfg, s, c.now), c.key, c.now) == Found(cfg, Remembered(cfg, s, c.key, c.now), c.now);
  }

  /** Calls of others never change what is remembered later. */
  lemma {:induction false} OthersLeaveMemory(cfg: Settings, s: Shard, c: Call, k: string, later: int)
    requires c.key != k && c.now <= later
    ensures Remembered(cfg, AllowInShard(cfg, s, c.key, c.now).0, k, later) == Remembered(cfg, s, k, later)
  {
  }

  lemma {:induction false} ShardSnoc(u: Setup, calls: seq<Call>, c: Call, k: string)
    requires u.count > 0
    ensures ShardAfter(u, calls + [c], k) ==
            if ShardOf(u.hash, u.count, k) == ShardOf(u.hash, u.count, c.key)
            then AllowInShard(u.cfg, ShardAfter(u, calls, k), c.key, c.now).0 else ShardAfter(u, calls, k)
    ensures Allowed(u, calls, c) == AllowInShard(u.cfg, ShardAfter(u, calls, c.key), c.key, c.now).1
  {
    assert (calls + [c])[..|calls|] == calls;
  }

  lemma {:induction false} SameMemory(u: Setup, v: Setup, calls: seq<Call>, k: string, until: int)
    requires u.count > 0 && v.count > 0 && v.cfg == u.cfg && u.cfg.interval == 1 && 0 < u.cfg.idleTTL
    requires Timed(u.start, calls, until) && Timed(v.start, calls, until)
    ensures Remembered(u.cfg, ShardAfter(u, calls, k), k, until)
            == Remembered(u.cfg, ShardAfter(v, Only(calls, k), k), k, until)
  {
    if calls != [] {
      var before, c := calls[..|calls| - 1], calls[|calls| - 1];
      assert calls == before + [c];
      ShardSnoc(u, before, c, k);
      var mine := Only(before, k);
      if c.key == k {
        SameMemory(u, v, before, k, c.now);
        OnlyTimed(v.start, before, k, c.now);
        RunTidies(u, before, ShardOf(u.hash, u.count, k), c.now);
        RunTidies(v, mine, ShardOf(v.hash, v.count, k), c.now);
        ShardSnoc(v, mine, c, k);
        CallFromMemory(u.cfg, ShardAfter(u, before, k), c);
        CallFromMemory(u.cfg, ShardAfter(v, mine, k), c);
      } else {
        SameMemory(u, v, before, k, until);
        OthersLeaveMemory(u.cfg, ShardAfter(u, before, k), c, k, until);
        assert mine + [] == mine;
      }
    }
  }

  /** An idle TTL that covers a refill, or a cleanup at every new instant. */
  predicate Isolating(cfg: Settings) {
    CoversRefill(cfg) || (cfg.interval == 1 && 0 < cfg.idleTTL)
  }

  /** Client isolation: an answer depends on the client's own calls alone, not on other clients,
      the hash or the number of shards. */
  lemma {:induction false} ClientsAreIndependent(u: Setup, v: Setup, calls: seq<Call>, c: Call)
    requires u.count > 0 && v.count > 0 && Isolating(u.cfg) && v.cfg == u.cfg
    requires Timed(u.start, calls, c.now) && Timed(v.start, calls, c.now)
    ensures Allowed(u, calls, c) == Allowed(v, Only(calls, c.key), c)
  {
    var mine := Only(calls, c.key);
    OnlyTimed(v.start, calls, c.key, c.now);
    if CoversRefill(u.cfg) {
      EvictionIsTransparent(u, calls, c);
      EvictionIsTransparent(v, mine, c);
      IdealIgnoresOthers(u.cfg.limit, calls, c);
    } else {
      SameMemory(u, v, calls, c.key, c.now);
      RunTidies(u, calls, ShardOf(u.hash, u.count, c.key), c.now);
      RunTidies(v, mine, ShardOf(v.hash, v.count, c.key), c.now);
      ShardSnoc(u, calls, c, c.key);
      ShardSnoc(v, mine, c, c.key);
      CallFromMemory(u.cfg, ShardAfter(u, calls, c.key), c);
      CallFromMemory(u.cfg, ShardAfter(v, mine, c.key), c);
    }
  }

  // ----- Nothing else does

  /** `n + 1` pigeons in `n` holes. */
  lemma {:induction false} Pigeonhole(holes: seq<nat>, n: nat) returns (i: nat, j: nat)
    requires |holes| == n + 1 && forall k | 0 <= k < |holes| :: holes[k] < n
    ensures i < j < |holes| && holes[i] == holes[j]
    decreases n
  {
    var last := holes[n];
    if k :| 0 <= k < n && holes[k] == last {
      i, j := k, n;
    } else {
      var rest := seq(n, k requires 0 <= k < n => if holes[k] < last then holes[k] else holes[k] - 1);
      i, j := Pigeonhole(rest, n - 1);
    }
  }

  /** Two clients that share a shard, whatever the hash. */
  lemma {:induction false} ShardMates(hash: string -> nat, count: nat) returns (key: string, mate: string)
    requires count > 0
    ensures key != mate && ShardOf(hash, count, key) == ShardOf(hash, count, mate)
  {
    var names := seq(count + 1, (n: nat) => seq(n, _ => 'a'));
    var holes := seq(count + 1, n requires 0 <= n <= count => ShardOf(hash, count, names[n]));
    var i, j := Pigeonhole(holes, count);
    key, mate := names[i], names[j];
    assert |key| == i && |mate| == j;
  }

  /** The client is known with these tokens, last seen and refilled at `at`. */
  ghost predicate Stuck(s: Shard, key: string, x: real, at: int) {
    key in s.clients && s.clients[key] == Client(Tokens(x, at), at)
  }

  /** A burst spends the bucket of a new client if no cleanup is due. */
  lemma {:induction false} BurstSpends(u: Setup, key: string, at: int)
    requires u.count > 0 && ValidLimit(u.cfg.limit) && u.start <= at < u.start + u.cfg.interval
    ensures var s := ShardAfter(u, Burst(key, at, u.cfg.limit.burst), key);
            Stuck(s, key, 0.0, at) && s.lastCleanup == u.start
  {
    var l, n, c := u.cfg.limit, u.cfg.limit.burst, Call(key, at);
    assert [] + Burst(key, at, n) == Burst(key, at, n);
    LimiterBurst(u, [], c, n);
    DrainLevel(l, Full(l, at), at, n);
  }

  /** A shard-mate's call one nanosecond before the client becomes idle cleans the shard and keeps it. */
  lemma {:induction false} MateKeepsClient(cfg: Settings, s: Shard, key: string, mate: Call, x: real, at: int)
    requires Stuck(s, key, x, at) && mate.key != key && s.lastCleanup + cfg.interval <= mate.now < at + cfg.idleTTL
    ensures var s' := AllowInShard(cfg, s, mate.key, mate.now).0;
            Stuck(s', key, x, at) && s'.lastCleanup == mate.now
  {
  }

  lemma {:induction false} OnlyConcat(a: seq<Call>, b: seq<Call>, key: string)
    ensures Only(a + b, key) == Only(a, key) + Only(b, key)
    decreases |b|
  {
    if b == [] {
      assert a + b == a;
    } else {
      var all, early := a + b, b[..|b| - 1];
      assert all[..|all| - 1] == a + early && all[|all| - 1] == b[|b| - 1];
      OnlyConcat(a, early, key);
    }
  }

  lemma {:induction false} OnlyOwn(calls: seq<Call>, key: string)
    requires forall i | 0 <= i < |calls| :: calls[i].key == key
    ensures Only(calls, key) == calls
  {
    if calls != [] {
      OnlyOwn(calls[..|calls| - 1], key);
    }
  }

  /** The client is drained, a shard-mate's cleanup just misses it, and it is refused what it would
      have been allowed on its own. */
  lemma {:induction false} MateShows(u: Setup) returns (calls: seq<Call>, c: Call)
    requires u.count > 0 && ValidLimit(u.cfg.limit) && !Refillable(u.cfg.limit)
    requires u.cfg.idleTTL == MAX_DURATION && 2 <= u.cfg.interval
    ensures Timed(u.start, calls, c.now) && !Allowed(u, calls, c) && Allowed(u, Only(calls, c.key), c)
  {
    var n := u.cfg.limit.burst;
    var key, mate := ShardMates(u.hash, u.count);
    var at := u.start + 1;
    c := Call(key, at + MAX_DURATION);
    var spent, again, visit := Burst(key, at, n), Burst(key, c.now, n - 1), Call(mate, u.start + MAX_DURATION);
    calls := spent + [visit] + again;
    RefusedBesideMate(u, visit, c);
    OnlyBursts(spent, visit, again, key);
    AllowedAlone(u, c);
    VisitTimed(u.start, key, mate, n);
  }

  lemma {:induction false} AllowedAlone(u: Setup, c: Call)
    requires u.count > 0 && ValidLimit(u.cfg.limit) && u.cfg.idleTTL == MAX_DURATION && 2 <= u.cfg.interval
    requires c.now == u.start + 1 + MAX_DURATION
    ensures var n := u.cfg.limit.burst;
            Allowed(u, Burst(c.key, u.start + 1, n) + Burst(c.key, c.now, n - 1), c)
  {
    var spent := Burst(c.key, u.start + 1, u.cfg.limit.burst);
    BurstSpends(u, c.key, u.start + 1);
    LimiterAllows(u, spent, c);
  }

  lemma {:induction false} RefusedBesideMate(u: Setup, visit: Call, c: Call)
    requires u.count > 0 && ValidLimit(u.cfg.limit) && !Refillable(u.cfg.limit)
    requires u.cfg.idleTTL == MAX_DURATION && 2 <= u.cfg.interval
    requires visit.now == u.start + MAX_DURATION && c.now == visit.now + 1
    requires visit.key != c.key && ShardOf(u.hash, u.count, visit.key) == ShardOf(u.hash, u.count, c.key)
    ensures var n := u.cfg.limit.burst;
            !Allowed(u, Burst(c.key, u.start + 1, n) + [visit] + Burst(c.key, c.now, n - 1), c)
  {
    BurstSpends(u, c.key, u.start + 1);
    WithMate(u, Burst(c.key, u.start + 1, u.cfg.limit.burst), visit, c, u.start + 1);
  }

  lemma {:induction false} VisitTimed(start: int, key: string, mate: string, n: nat)
    requires n > 0
    ensures var at := start + 1;
            var calls := Burst(key, at, n) + [Call(mate, start + MAX_DURATION)] + Burst(key, at + MAX_DURATION, n - 1);
            Timed(start, calls, at + MAX_DURATION)
  {
  }

  lemma {:induction false} OnlyBursts(spent: seq<Call>, visit: Call, again: seq<Call>, key: string)
    requires visit.key != key
    requires forall i | 0 <= i < |spent| :: spent[i].key == key
    requires forall i | 0 <= i < |again| :: again[i].key == key
    ensures Only(spent + [visit] + again, key) == spent + again
  {
    OnlyConcat(spent + [visit], again, key);
    OnlyConcat(spent, [visit], key);
    OnlyOwn(spent, key);
    OnlyOwn(again, key);
    assert [visit][..0] == [] && Only([visit], key) == [] && spent + [] == spent;
  }

  lemma {:induction false} WithMate(u: Setup, spent: seq<Call>, visit: Call, c: Call, at: int)
    requires u.count > 0 && ValidLimit(u.cfg.limit) && !Refillable(u.cfg.limit)
    requires u.cfg.idleTTL == MAX_DURATION && 2 <= u.cfg.interval && c.now == at + MAX_DURATION == visit.now + 1
    requires visit.key != c.key && ShardOf(u.hash, u.count, visit.key) == ShardOf(u.hash, u.count, c.key)
    requires var s := ShardAfter(u, spent, c.key);
             Stuck(s, c.key, 0.0, at) && s.lastCleanup + u.cfg.interval <= visit.now
    ensures !Allowed(u, spent + [visit] + Burst(c.key, c.now, u.cfg.limit.burst - 1), c)
  {
    var l, n := u.cfg.limit, u.cfg.limit.burst - 1;
    ShardSnoc(u, spent, visit, c.key);
    MateKeepsClient(u.cfg, ShardAfter(u, spent, c.key), c.key, visit, 0.0, at);
    LimiterBurst(u, spent + [visit], c, n);
    DrainLevel(l, Tokens(0.0, at), c.now, n);
    ShardSnoc(u, spent + [visit] + Burst(c.key, c.now, n), c, c.key);
  }

  ghost predicate Alone(u: Setup, calls: seq<Call>, c: Call)
    requires u.count > 0
  {
    Allowed(u, calls, c) == Allowed(u, Only(calls, c.key), c)
  }

  ghost predicate Isolated(u: Setup)
    requires u.count > 0
  {
    forall calls: seq<Call>, c: Call | Timed(u.start, calls, c.now) :: Alone(u, calls, c)
  }

  /** Client isolation, exactly: for every valid configuration, no client's answers depend on other
      clients if and only if an empty bucket refills within the longest duration or every new instant
      is a cleanup. */
  lemma {:induction false} IsolatedExactly(l: Limit, o: LimiterOptions, hash: string -> nat, start: int)
    requires ValidLimit(l) && ValidOptions(o)
    ensures Isolated(Setup(Configure(l, o), hash, o.shardCount, start)) <==> Refillable(l) || o.cleanupInterval == 1
  {
    var u := Setup(Configure(l, o), hash, o.shardCount, start);
    ConfiguredTTLCoversRefill(l, o);
    if Refillable(l) || o.cleanupInterval == 1 {
      forall calls: seq<Call>, c: Call | Timed(u.start, calls, c.now)
        ensures Alone(u, calls, c)
      {
        ClientsAreIndependent(u, u, calls, c);
      }
    } else {
      var calls, c := MateShows(u);
      assert !Alone(u, calls, c);
    }
  }
}
