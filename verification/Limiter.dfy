/** The sharded per-client limiter of internal/ratelimiter/client_limiter.go. The hash that
    picks a shard is a parameter: everything holds for every deterministic hash. */
module ClientLimiters {
  import opened Options
  import opened TokenBucket

  type Duration = d: int | -MAX_DURATION - 1 <= d <= MAX_DURATION

  datatype Client = Client(bucket: Tokens, lastSeen: int)

  datatype Shard = Shard(clients: map<string, Client>, lastCleanup: int)

  datatype Settings = Settings(limit: Limit, idleTTL: Duration, interval: Duration)

  datatype LimiterOptions = LimiterOptions(shardCount: int, clientIdleTTL: Duration, cleanupInterval: Duration)

  datatype LimiterError = InvalidLimit(reason: LimitError) | InvalidShardCount | InvalidIdleTTL | InvalidInterval

  /** The time a bucket needs to refill completely, saturated to a duration. */
  function RefillDuration(l: Limit): Duration
    requires ValidLimit(l)
  {
    var ns := Ceil(l.burst as real / l.rate * 1_000_000_000.0);
    if ns > MAX_DURATION then MAX_DURATION
    else
      assert l.burst as real / l.rate * 1_000_000_000.0 > 0.0;
      ns
  }

  /** The idle TTL in force is raised to the refill time. */
  function Configure(l: Limit, o: LimiterOptions): Settings
    requires ValidLimit(l)
  {
    Settings(l, if o.clientIdleTTL < RefillDuration(l) then RefillDuration(l) else o.clientIdleTTL, o.cleanupInterval)
  }

  predicate ValidOptions(o: LimiterOptions) {
    o.shardCount > 0 && o.clientIdleTTL > 0 && o.cleanupInterval > 0
  }

  predicate Idle(cfg: Settings, c: Client, now: int) {
    now >= c.lastSeen + cfg.idleTTL
  }

  function CleanupShard(cfg: Settings, s: Shard, now: int): Shard {
    if now < s.lastCleanup + cfg.interval then s
    else Shard(map k | k in s.clients && !Idle(cfg, s.clients[k], now) :: s.clients[k], now)
  }

  /** The entry of `key`, created on first sight and marked as seen. */
  function Seen(cfg: Settings, s: Shard, key: string, now: int): Client {
    if key !in s.clients then Client(Full(cfg.limit, now), now)
    else
      var c := s.clients[key];
      if now > c.lastSeen then c.(lastSeen := now) else c
  }

  function AllowInShard(cfg: Settings, s: Shard, key: string, now: int): (Shard, bool) {
    var clean := CleanupShard(cfg, s, now);
    var c := Seen(cfg, clean, key, now);
    var (bucket, allowed) := AllowAt(cfg.limit, c.bucket, now);
    (clean.(clients := clean.clients[key := c.(bucket := bucket)]), allowed)
  }

  function ShardOf(hash: string -> nat, count: nat, key: string): (i: nat)
    requires count > 0
    ensures i < count
  {
    hash(key) % count
  }

  function AllowKey(cfg: Settings, hash: string -> nat, shards: seq<Shard>, key: string, now: int): (seq<Shard>, bool)
    requires |shards| > 0
  {
    var i := ShardOf(hash, |shards|, key);
    var (shard, allowed) := AllowInShard(cfg, shards[i], key, now);
    (shards[i := shard], allowed)
  }

  class ClientLimiter {
    const settings: Settings
    const hash: string -> nat
    const shards: array<Shard>

    constructor (settings: Settings, hash: string -> nat, count: nat, now: int)
      requires count > 0
      ensures this.settings == settings && this.hash == hash && fresh(shards)
      ensures shards[..] == seq(count, _ => Shard(map[], now))
    {
      this.settings, this.hash := settings, hash;
      shards := new Shard[count](_ => Shard(map[], now));
    }

    method Cleanup(i: nat, now: int)
      requires i < shards.Length
      modifies shards
      ensures shards[..] == old(shards[..])[i := CleanupShard(settings, old(shards[i]), now)]
    {
      var s := shards[i];
      if now < s.lastCleanup + settings.interval {
        assert shards[..] == shards[..][i := s];
        return;
      }
      var clients, pending := s.clients, s.clients.Keys;
      while pending != {}
        invariant pending <= s.clients.Keys
        invariant clients == map k | k in s.clients && (k in pending || !Idle(settings, s.clients[k], now)) :: s.clients[k]
      {
        var key :| key in pending;
        if now >= s.clients[key].lastSeen + settings.idleTTL {
          clients := clients - {key};
        }
        pending := pending - {key};
      }
      assert clients == CleanupShard(settings, s, now).clients;
      shards[i] := Shard(clients, now);
    }

    method Allow(key: string, now: int) returns (allowed: bool)
      requires shards.Length > 0
      modifies shards
      ensures (shards[..], allowed) == AllowKey(settings, hash, old(shards[..]), key, now)
      ensures forall i | 0 <= i < shards.Length && i != hash(key) % shards.Length :: shards[i] == old(shards[i])
    {
      var i := ShardOf(hash, shards.Length, key);
      Cleanup(i, now);
      var s := shards[i];
      var entry: Client;
      if key !in s.clients {
        entry := Client(Full(settings.limit, now), now);
      } else {
        entry := s.clients[key];
        if now > entry.lastSeen {
          entry := entry.(lastSeen := now);
        }
      }
      var r := AllowAt(settings.limit, entry.bucket, now);
      shards[i] := s.(clients := s.clients[key := entry.(bucket := r.0)]);
      allowed := r.1;
      assert shards[..] == old(shards[..])[i := shards[i]];
    }
  }

  method NewClientLimiter(l: Limit, o: LimiterOptions, hash: string -> nat, now: int)
    returns (r: Result<ClientLimiter, LimiterError>)
    ensures r.Ok? <==> ValidLimit(l) && ValidOptions(o)
    ensures r.Ok? ==> fresh(r.value) && fresh(r.value.shards) && r.value.settings == Configure(l, o)
                      && r.value.hash == hash && r.value.shards[..] == seq(o.shardCount, _ => Shard(map[], now))
    ensures r.Err? ==>
      r.error == if l.rate <= 0.0 then InvalidLimit(InvalidRate)
                 else if l.burst <= 0 then InvalidLimit(InvalidBurst)
                 else if o.shardCount <= 0 then InvalidShardCount
                 else if o.clientIdleTTL <= 0 then InvalidIdleTTL
                 else InvalidInterval
  {
    if l.rate <= 0.0 {
      return Err(InvalidLimit(InvalidRate));
    }
    if l.burst <= 0 {
      return Err(InvalidLimit(InvalidBurst));
    }
    if o.shardCount <= 0 {
      return Err(InvalidShardCount);
    }
    if o.clientIdleTTL <= 0 {
      return Err(InvalidIdleTTL);
    }
    if o.cleanupInterval <= 0 {
      return Err(InvalidInterval);
    }
    var c := new ClientLimiter(Configure(l, o), hash, o.shardCount, now);
    r := Ok(c);
  }
}

/** Eviction transparency: the sharded limiter that forgets idle clients against an ideal
    limiter that keeps one bucket per client forever. */
module LimiterRuns {
  import opened TokenBucket
  import opened ClientLimiters

  datatype Call = Call(key: string, now: int)

  /** What identifies a limiter: its settings, its hash, its shard count and its start. */
  datatype Setup = Setup(cfg: Settings, hash: string -> nat, count: nat, start: int)

  function Run(u: Setup, calls: seq<Call>): (shards: seq<Shard>)
    requires u.count > 0
    ensures |shards| == u.count
  {
    if calls == [] then seq(u.count, _ => Shard(map[], u.start))
    else AllowKey(u.cfg, u.hash, Run(u, calls[..|calls| - 1]), calls[|calls| - 1].key, calls[|calls| - 1].now).0
  }

  predicate Allowed(u: Setup, calls: seq<Call>, c: Call)
    requires u.count > 0
  {
    AllowKey(u.cfg, u.hash, Run(u, calls), c.key, c.now).1
  }

  /** One bucket per client, never deleted. */
  function IdealBucket(l: Limit, m: map<string, Tokens>, c: Call): Tokens {
    if c.key in m then m[c.key] else Full(l, c.now)
  }

  function IdealRun(l: Limit, calls: seq<Call>): map<string, Tokens> {
    if calls == [] then map[]
    else
      var m, c := IdealRun(l, calls[..|calls| - 1]), calls[|calls| - 1];
      m[c.key := AllowAt(l, IdealBucket(l, m, c), c.now).0]
  }

  predicate IdealAllowed(l: Limit, calls: seq<Call>, c: Call) {
    AllowAt(l, IdealBucket(l, IdealRun(l, calls), c), c.now).1
  }

  ghost predicate Timed(start: int, calls: seq<Call>, until: int) {
    && start <= until
    && (forall i | 0 <= i < |calls| :: start <= calls[i].now <= until)
    && (forall i, j | 0 <= i < j < |calls| :: calls[i].now <= calls[j].now)
  }

  // ----- Forgetting an idle client is harmless

  /** An idle TTL in which an empty bucket refills completely. */
  predicate CoversRefill(cfg: Settings) {
    ValidLimit(cfg.limit) && 0 < cfg.idleTTL && cfg.limit.burst as real <= Gain(cfg.limit, cfg.idleTTL)
  }

  /** The bucket would be full if it were asked now or later. */
  predicate WouldBeFull(l: Limit, b: Tokens, now: int) {
    b.lastRefill < now && l.burst as real <= b.tokens + Gain(l, Elapsed(b.lastRefill, now))
  }

  /** `k` is remembered exactly, or it is forgotten and its ideal bucket is full anyway. */
  ghost predicate Simulates(u: Setup, shards: seq<Shard>, m: map<string, Tokens>, k: string, now: int)
    requires |shards| == u.count > 0
  {
    var clients := shards[ShardOf(u.hash, u.count, k)].clients;
    && (k in clients ==> k in m && clients[k].bucket == m[k] && clients[k].lastSeen == m[k].lastRefill)
    && (k in m ==> m[k].lastRefill <= now && ValidTokens(u.cfg.limit, m[k]))
    && (k in m && k !in clients ==> WouldBeFull(u.cfg.limit, m[k], now))
  }

  lemma {:induction false} SimulatesLater(u: Setup, shards: seq<Shard>, m: map<string, Tokens>, k: string, now: int, later: int)
    requires |shards| == u.count > 0 && now <= later && ValidLimit(u.cfg.limit)
    requires Simulates(u, shards, m, k, now)
    ensures Simulates(u, shards, m, k, later)
  {
    if k in m {
      GainMonotone(u.cfg.limit, Elapsed(m[k].lastRefill, now), Elapsed(m[k].lastRefill, later));
    }
  }

  /** Cleaning a shard keeps the simulation for every key. */
  lemma {:induction false} CleanupSimulates(u: Setup, shards: seq<Shard>, m: map<string, Tokens>, i: nat, k: string, now: int)
    requires |shards| == u.count > 0 && i < u.count && CoversRefill(u.cfg)
    requires Simulates(u, shards, m, k, now)
    ensures Simulates(u, shards[i := CleanupShard(u.cfg, shards[i], now)], m, k, now)
  {
    var s := ShardOf(u.hash, u.count, k);
    if s == i && k in shards[i].clients && Idle(u.cfg, shards[i].clients[k], now) {
      GainMonotone(u.cfg.limit, u.cfg.idleTTL, Elapsed(m[k].lastRefill, now));
    }
  }

  /** A forgotten client that returns finds the bucket the ideal limiter would have refilled. */
  lemma SameBucket(u: Setup, s: Shard, m: map<string, Tokens>, c: Call)
    requires ValidLimit(u.cfg.limit)
    requires c.key in s.clients ==> c.key in m && s.clients[c.key].bucket == m[c.key]
    requires c.key in m && c.key !in s.clients ==> WouldBeFull(u.cfg.limit, m[c.key], c.now)
    ensures AllowAt(u.cfg.limit, Seen(u.cfg, s, c.key, c.now).bucket, c.now)
            == AllowAt(u.cfg.limit, IdealBucket(u.cfg.limit, m, c), c.now)
  {
  }

  lemma {:induction false} CallSimulates(u: Setup, shards: seq<Shard>, m: map<string, Tokens>, c: Call, k: string)
    requires |shards| == u.count > 0 && CoversRefill(u.cfg)
    requires Simulates(u, shards, m, k, c.now) && Simulates(u, shards, m, c.key, c.now)
    ensures var (shards', allowed) := AllowKey(u.cfg, u.hash, shards, c.key, c.now);
            var (bucket, ideal) := AllowAt(u.cfg.limit, IdealBucket(u.cfg.limit, m, c), c.now);
            allowed == ideal && Simulates(u, shards', m[c.key := bucket], k, c.now)
  {
    var i := ShardOf(u.hash, u.count, c.key);
    var clean := CleanupShard(u.cfg, shards[i], c.now);
    CleanupSimulates(u, shards, m, i, k, c.now);
    CleanupSimulates(u, shards, m, i, c.key, c.now);
    SameBucket(u, clean, m, c);
    if k == c.key {
      RefillValid(u.cfg.limit, IdealBucket(u.cfg.limit, m, c), c.now);
    }
  }

  lemma {:induction false} RunSimulates(u: Setup, calls: seq<Call>, k: string, now: int)
    requires u.count > 0 && CoversRefill(u.cfg) && Timed(u.start, calls, now)
    ensures Simulates(u, Run(u, calls), IdealRun(u.cfg.limit, calls), k, now)
  {
    if calls != [] {
      var before, c := calls[..|calls| - 1], calls[|calls| - 1];
      RunSimulates(u, before, k, c.now);
      RunSimulates(u, before, c.key, c.now);
      CallSimulates(u, Run(u, before), IdealRun(u.cfg.limit, before), c, k);
      SimulatesLater(u, Run(u, calls), IdealRun(u.cfg.limit, calls), k, c.now, now);
    }
  }

  /** The limiter and the ideal limiter agree on the call that follows the run. */
  ghost predicate SameAnswer(u: Setup, calls: seq<Call>, c: Call)
    requires u.count > 0
  {
    Allowed(u, calls, c) == IdealAllowed(u.cfg.limit, calls, c)
  }

  lemma {:induction false} EvictionIsTransparent(u: Setup, calls: seq<Call>, c: Call)
    requires u.count > 0 && CoversRefill(u.cfg) && Timed(u.start, calls, c.now)
    ensures SameAnswer(u, calls, c)
  {
    RunSimulates(u, calls, c.key, c.now);
    CallSimulates(u, Run(u, calls), IdealRun(u.cfg.limit, calls), c, c.key);
  }

  // ----- When the configured TTL covers a refill

  /** The raised TTL covers a refill exactly when a refill fits into a duration at all. */
  lemma {:induction false} ConfiguredTTLCoversRefill(l: Limit, o: LimiterOptions)
    requires ValidLimit(l) && ValidOptions(o)
    ensures CoversRefill(Configure(l, o)) <==> Refillable(l)
    ensures !Refillable(l) ==> Configure(l, o).idleTTL == MAX_DURATION
  {
    var x := l.burst as real / l.rate * 1_000_000_000.0;
    var cfg := Configure(l, o);
    CeilBounds(x);
    assert x > 0.0;
    GainOf(l, cfg.idleTTL);
    GainOf(l, MAX_DURATION);
  }

  /** The limiter keeps its options: the idle TTL is the one given if a refill fits into it, and
      otherwise the shortest longer one that covers a refill, as far as durations go. */
  lemma {:induction false} ConfiguredTTLIsLeast(l: Limit, o: LimiterOptions)
    requires ValidLimit(l) && ValidOptions(o)
    ensures var cfg := Configure(l, o);
            && cfg.limit == l && cfg.interval == o.cleanupInterval && o.clientIdleTTL <= cfg.idleTTL
            && (l.burst as real <= Gain(l, o.clientIdleTTL) ==> cfg.idleTTL == o.clientIdleTTL)
            && forall d | o.clientIdleTTL <= d < cfg.idleTTL :: Gain(l, d) < l.burst as real
  {
    var x := l.burst as real / l.rate * 1_000_000_000.0;
    var cfg := Configure(l, o);
    CeilBounds(x);
    assert x > 0.0;
    GainOf(l, o.clientIdleTTL);
    forall d | o.clientIdleTTL <= d < cfg.idleTTL
      ensures Gain(l, d) < l.burst as real
    {
      GainOf(l, d);
    }
  }

  // ----- The only way eviction can show: a refill longer than any duration

  function Burst(key: string, now: int, n: nat): seq<Call> {
    seq(n, _ => Call(key, now))
  }

  lemma BurstSnoc(calls: seq<Call>, key: string, now: int, n: nat)
    requires n > 0
    ensures var all := calls + Burst(key, now, n);
            all[..|all| - 1] == calls + Burst(key, now, n - 1) && all[|all| - 1] == Call(key, now)
  {
  }

  lemma {:induction false} IdealBurst(l: Limit, calls: seq<Call>, c: Call, n: nat)
    ensures IdealBucket(l, IdealRun(l, calls + Burst(c.key, c.now, n)), c)
            == Drained(l, IdealBucket(l, IdealRun(l, calls), c), c.now, n)
  {
    if n == 0 {
      assert calls + Burst(c.key, c.now, 0) == calls;
    } else {
      BurstSnoc(calls, c.key, c.now, n);
      IdealBurst(l, calls, c, n - 1);
    }
  }

  function ShardAfter(u: Setup, calls: seq<Call>, key: string): Shard
    requires u.count > 0
  {
    Run(u, calls)[ShardOf(u.hash, u.count, key)]
  }

  /** In a shard with no cleanup due, simultaneous calls drain the client's bucket. */
  lemma {:induction false} LimiterBurst(u: Setup, calls: seq<Call>, c: Call, n: nat)
    requires u.count > 0 && c.now < ShardAfter(u, calls, c.key).lastCleanup + u.cfg.interval
    ensures var s := ShardAfter(u, calls + Burst(c.key, c.now, n), c.key);
            && s.lastCleanup == ShardAfter(u, calls, c.key).lastCleanup
            && Seen(u.cfg, s, c.key, c.now).bucket
               == Drained(u.cfg.limit, Seen(u.cfg, ShardAfter(u, calls, c.key), c.key, c.now).bucket, c.now, n)
            && (n > 0 && (c.key in ShardAfter(u, calls, c.key).clients
                          ==> ShardAfter(u, calls, c.key).clients[c.key].lastSeen <= c.now)
                ==> c.key in s.clients && s.clients[c.key].lastSeen == c.now)
  {
    if n == 0 {
      assert calls + Burst(c.key, c.now, 0) == calls;
    } else {
      BurstSnoc(calls, c.key, c.now, n);
      LimiterBurst(u, calls, c, n - 1);
    }
  }

  /** If a refill takes longer than any duration, draining a client, waiting for its eviction and
      draining it again tells the limiter from the ideal one. */
  lemma {:induction false} SaturationShows(u: Setup, key: string) returns (calls: seq<Call>, c: Call)
    requires u.count > 0 && ValidLimit(u.cfg.limit) && !Refillable(u.cfg.limit)
    requires u.cfg.idleTTL == MAX_DURATION && u.cfg.interval > 0
    ensures Timed(u.start, calls, c.now) && Allowed(u, calls, c) && !IdealAllowed(u.cfg.limit, calls, c)
  {
    var n := u.cfg.limit.burst;
    c := Call(key, u.start + MAX_DURATION);
    var spent := Burst(key, u.start, n);
    calls := spent + Burst(key, c.now, n - 1);
    FirstBurst(u, key);
    IdealRefuses(u.cfg.limit, spent, c, u.start);
    LimiterAllows(u, spent, c);
  }

  /** A burst spends a new client's bucket, in the limiter and in the ideal one. */
  lemma {:induction false} FirstBurst(u: Setup, key: string)
    requires u.count > 0 && ValidLimit(u.cfg.limit) && u.cfg.interval > 0
    ensures var spent := Burst(key, u.start, u.cfg.limit.burst);
            var m, s := IdealRun(u.cfg.limit, spent), ShardAfter(u, spent, key);
            && key in m && m[key] == Tokens(0.0, u.start)
            && key in s.clients && s.clients[key].lastSeen == s.lastCleanup == u.start
  {
    var l, n, first := u.cfg.limit, u.cfg.limit.burst, Call(key, u.start);
    assert [] + Burst(key, u.start, n) == Burst(key, u.start, n);
    LimiterBurst(u, [], first, n);
    IdealBurst(l, [], first, n);
    DrainLevel(l, Full(l, u.start), u.start, n);
    BurstSnoc([], key, u.start, n);
  }

  lemma {:induction false} IdealRefuses(l: Limit, spent: seq<Call>, c: Call, start: int)
    requires ValidLimit(l) && !Refillable(l) && c.now == start + MAX_DURATION
    requires c.key in IdealRun(l, spent) && IdealRun(l, spent)[c.key] == Tokens(0.0, start)
    ensures !IdealAllowed(l, spent + Burst(c.key, c.now, l.burst - 1), c)
  {
    IdealBurst(l, spent, c, l.burst - 1);
    DrainLevel(l, Tokens(0.0, start), c.now, l.burst - 1);
  }

  lemma {:induction false} LimiterAllows(u: Setup, spent: seq<Call>, c: Call)
    requires u.count > 0 && u.cfg.interval > 0 && ValidLimit(u.cfg.limit)
    requires var s := ShardAfter(u, spent, c.key);
             && c.key in s.clients && Idle(u.cfg, s.clients[c.key], c.now) && s.lastCleanup + u.cfg.interval <= c.now
    ensures Allowed(u, spent + Burst(c.key, c.now, u.cfg.limit.burst - 1), c)
  {
    var l, n := u.cfg.limit, u.cfg.limit.burst - 1;
    if n > 0 {
      SecondBurst(u, spent, c, n);
      DrainLevel(l, Full(l, c.now), c.now, n);
    } else {
      assert spent + Burst(c.key, c.now, 0) == spent;
    }
  }

  /** After eviction the client starts again with a full bucket. */
  lemma {:induction false} SecondBurst(u: Setup, spent: seq<Call>, c: Call, n: nat)
    requires u.count > 0 && u.cfg.interval > 0 && n > 0 && ValidLimit(u.cfg.limit)
    requires var s := ShardAfter(u, spent, c.key);
             && c.key in s.clients && Idle(u.cfg, s.clients[c.key], c.now) && s.lastCleanup + u.cfg.interval <= c.now
    ensures var s := ShardAfter(u, spent + Burst(c.key, c.now, n), c.key);
            && s.lastCleanup == c.now
            && Seen(u.cfg, s, c.key, c.now).bucket == Drained(u.cfg.limit, Full(u.cfg.limit, c.now), c.now, n)
  {
    var one := spent + Burst(c.key, c.now, 1);
    BurstSnoc(spent, c.key, c.now, 1);
    assert spent + Burst(c.key, c.now, 0) == spent;
    assert ShardAfter(u, one, c.key).clients[c.key].bucket == AllowAt(u.cfg.limit, Full(u.cfg.limit, c.now), c.now).0;
    LimiterBurst(u, one, c, n - 1);
    assert one + Burst(c.key, c.now, n - 1) == spent + Burst(c.key, c.now, n);
    DrainedTwice(u.cfg.limit, Full(u.cfg.limit, c.now), c.now, n);
  }

  lemma {:induction false} DrainedTwice(l: Limit, b: Tokens, now: int, n: nat)
    requires n > 0
    ensures Drained(l, AllowAt(l, b, now).0, now, n - 1) == Drained(l, b, now, n)
  {
    if n > 1 {
      DrainedTwice(l, b, now, n - 1);
    } else {
      assert Drained(l, b, now, 0) == b;
    }
  }

  ghost predicate Transparent(u: Setup)
    requires u.count > 0
  {
    forall calls: seq<Call>, c: Call | Timed(u.start, calls, c.now) :: SameAnswer(u, calls, c)
  }

  /** Eviction transparency: for every valid configuration, every answer over every run with
      nondecreasing times is the ideal limiter's answer if and only if an empty bucket refills
      within the longest duration. */
  lemma {:induction false} TransparentExactly(l: Limit, o: LimiterOptions, hash: string -> nat, start: int)
    requires ValidLimit(l) && ValidOptions(o)
    ensures Transparent(Setup(Configure(l, o), hash, o.shardCount, start)) <==> Refillable(l)
  {
    var u := Setup(Configure(l, o), hash, o.shardCount, start);
    ConfiguredTTLCoversRefill(l, o);
    if Refillable(l) {
      forall calls: seq<Call>, c: Call | Timed(u.start, calls, c.now)
        ensures SameAnswer(u, calls, c)
      {
        EvictionIsTransparent(u, calls, c);
      }
    } else {
      var calls, c := SaturationShows(u, "");
      assert !SameAnswer(u, calls, c);
    }
  }
}

/** The memory side of eviction: who is still remembered. */
module IdleEviction {
  import opened Options
  import opened TokenBucket
  import opened ClientLimiters
  import opened LimiterRuns

  /** Nobody in the shard was idle at its last cleanup. */
  ghost predicate Tidy(cfg: Settings, s: Shard, until: int) {
    s.lastCleanup <= until && forall k | k in s.clients :: s.lastCleanup < s.clients[k].lastSeen + cfg.idleTTL
  }

  lemma {:induction false} CallTidies(cfg: Settings, s: Shard, c: Call, until: int)
    requires 0 < cfg.idleTTL && 0 < cfg.interval && Tidy(cfg, s, until) && until <= c.now
    ensures var s' := AllowInShard(cfg, s, c.key, c.now).0;
            Tidy(cfg, s', c.now) && c.now < s'.lastCleanup + cfg.interval
  {
  }

  lemma {:induction false} RunTidies(u: Setup, calls: seq<Call>, i: nat, until: int)
    requires i < u.count && 0 < u.cfg.idleTTL && 0 < u.cfg.interval && Timed(u.start, calls, until)
    ensures Tidy(u.cfg, Run(u, calls)[i], until)
  {
    if calls != [] {
      var before, c := calls[..|calls| - 1], calls[|calls| - 1];
      RunTidies(u, before, i, c.now);
      CallTidies(u.cfg, Run(u, before)[i], c, c.now);
    }
  }

  /** Bounded memory: after a call, its shard remembers no client that has been silent for the idle
      TTL plus one cleanup interval. */
  lemma {:induction false} IdleClientsAreForgotten(u: Setup, calls: seq<Call>, c: Call, k: string)
    requires u.count > 0 && 0 < u.cfg.idleTTL && 0 < u.cfg.interval && Timed(u.start, calls, c.now)
    requires k in ShardAfter(u, calls + [c], c.key).clients
    ensures c.now < ShardAfter(u, calls + [c], c.key).clients[k].lastSeen + u.cfg.idleTTL + u.cfg.interval
  {
    assert (calls + [c])[..|calls|] == calls;
    RunTidies(u, calls, ShardOf(u.hash, u.count, c.key), c.now);
    CallTidies(u.cfg, ShardAfter(u, calls, c.key), c, c.now);
  }

  // ----- In terms of the calls and the options

  /** When `k` called last. */
  function LastCall(calls: seq<Call>, k: string): Option<int> {
    if calls == [] then None
    else if calls[|calls| - 1].key == k then Some(calls[|calls| - 1].now)
    else LastCall(calls[..|calls| - 1], k)
  }

  lemma {:induction false} LastCallTimed(start: int, calls: seq<Call>, until: int, k: string)
    requires Timed(start, calls, until)
    ensures LastCall(calls, k).Some? ==> LastCall(calls, k).value <= until
  {
    if calls != [] {
      LastCallTimed(start, calls[..|calls| - 1], calls[|calls| - 1].now, k);
    }
  }

  /** Memory follows the calls: a client is stored with the instant of its last call, and stored as
      long as this is less than the idle TTL ago. */
  lemma {:induction false} MemoryFollowsCalls(u: Setup, calls: seq<Call>, k: string, until: int)
    requires u.count > 0 && 0 < u.cfg.idleTTL && Timed(u.start, calls, until)
    ensures var clients, last := ShardAfter(u, calls, k).clients, LastCall(calls, k);
            && (k in clients ==> last == Some(clients[k].lastSeen))
            && (last.Some? && until < last.value + u.cfg.idleTTL ==> k in clients)
  {
    if calls != [] {
      var before, c := calls[..|calls| - 1], calls[|calls| - 1];
      MemoryFollowsCalls(u, before, k, c.now);
      LastCallTimed(u.start, before, c.now, k);
      MemoryStep(u.cfg, ShardAfter(u, before, k), c, k, LastCall(before, k), until);
    }
  }

  lemma {:induction false} MemoryStep(cfg: Settings, s: Shard, c: Call, k: string, last: Option<int>, until: int)
    requires 0 < cfg.idleTTL && c.now <= until && (last.Some? ==> last.value <= c.now)
    requires k in s.clients ==> last == Some(s.clients[k].lastSeen)
    requires last.Some? && c.now < last.value + cfg.idleTTL ==> k in s.clients
    ensures var clients := AllowInShard(cfg, s, c.key, c.now).0.clients;
            if c.key == k then k in clients && clients[k].lastSeen == c.now
            else && (k in clients ==> last == Some(clients[k].lastSeen))
                 && (last.Some? && until < last.value + cfg.idleTTL ==> k in clients)
  {
  }

  /** With an idle TTL that covers a refill: after a call, no client of its shard is stored whose last
      call is the configured TTL plus one cleanup interval ago. */
  lemma {:induction false} SilentClientsAreForgotten(
    l: Limit, o: LimiterOptions, hash: string -> nat, start: int, calls: seq<Call>, c: Call, k: string)
    requires ValidLimit(l) && ValidOptions(o) && l.burst as real <= Gain(l, o.clientIdleTTL)
    requires Timed(start, calls, c.now) && hash(k) % o.shardCount == hash(c.key) % o.shardCount
    ensures var s := ShardAfter(Setup(Configure(l, o), hash, o.shardCount, start), calls + [c], k);
            k in s.clients ==>
              var last := LastCall(calls + [c], k);
              last.Some? && c.now < last.value + o.clientIdleTTL + o.cleanupInterval
  {
    var u := Setup(Configure(l, o), hash, o.shardCount, start);
    ConfiguredTTLIsLeast(l, o);
    MemoryFollowsCalls(u, calls + [c], k, c.now);
    if k in ShardAfter(u, calls + [c], k).clients {
      IdleClientsAreForgotten(u, calls, c, k);
    }
  }
}
