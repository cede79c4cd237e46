/** The Retry-After value of internal/proxy/gateway.go against the evicting limiter it advertises
    for: when the advertised wait is enough, and that no shorter one is. */
module RetryAfter {
  import opened TokenBucket
  import opened ClientLimiters
  import opened LimiterRuns
  import opened IdleEviction
  import opened ClientIsolation

  /** Whole seconds for one token, at least one and at most a 64-bit count. */
  function RetryAfterSeconds(rate: real): int
    requires rate > 0.0
  {
    var s := Ceil(1.0 / rate);
    var seconds := if s < 1 then 1 else s;
    if seconds > MAX_DURATION then MAX_DURATION else seconds
  }

  /** A token is earned within the longest duration. */
  predicate EarnsInTime(l: Limit) {
    1.0 <= Gain(l, MAX_DURATION)
  }

  predicate Running(u: Setup) {
    u.count > 0 && ValidLimit(u.cfg.limit) && 0 < u.cfg.idleTTL && 0 < u.cfg.interval
  }

  // ----- Time that counts

  /** The longest gap between two calls of a client that is not forgotten between them. */
  function LongestGap(cfg: Settings): (gap: int)
    ensures gap >= MAX_DURATION
  {
    if cfg.idleTTL + cfg.interval - 2 > MAX_DURATION then cfg.idleTTL + cfg.interval - 2 else MAX_DURATION
  }

  /** The least time credited to a client that waits for `d` without being forgotten: each of its
      gaps counts for the longest duration at most. */
  function Credited(cfg: Settings, d: int): int
    decreases d
  {
    if d <= MAX_DURATION then d
    else if d <= LongestGap(cfg) then MAX_DURATION
    else MAX_DURATION + Credited(cfg, d - LongestGap(cfg))
  }

  lemma {:induction false} CreditedMonotone(cfg: Settings, d: int, e: int)
    requires 0 <= d <= e
    ensures 0 <= Credited(cfg, d) <= Credited(cfg, e) <= e
    decreases e
  {
    var gap := LongestGap(cfg);
    if e > gap {
      CreditedMonotone(cfg, if d > gap then d - gap else 0, e - gap);
    }
  }

  /** A gap counts in full up to the longest duration, on top of whatever was credited before. */
  lemma {:induction false} CreditedGap(cfg: Settings, d: int, gap: int)
    requires 0 <= d && 0 <= gap <= LongestGap(cfg)
    ensures Credited(cfg, d + gap) <= Credited(cfg, d) + if gap < MAX_DURATION then gap else MAX_DURATION
    decreases d
  {
    var g := LongestGap(cfg);
    if d > g {
      CreditedGap(cfg, d - g, gap);
    } else if d + gap > g {
      CreditedMonotone(cfg, d + gap - g, d + gap - g);
    }
  }

  /** Whether the advertised wait is credited with a token. */
  predicate CreditsToken(cfg: Settings)
    requires ValidLimit(cfg.limit)
  {
    1.0 <= Gain(cfg.limit, Credited(cfg, RetryAfterSeconds(cfg.limit.rate) * SECOND))
  }

  lemma {:induction false} SecondsEarn(l: Limit, seconds: int)
    ensures Gain(l, seconds * SECOND) == seconds as real * l.rate
  {
    assert (seconds * SECOND) as real / 1_000_000_000.0 == seconds as real;
  }

  /** The advertised wait earns a token, unless it is the longest there is. */
  lemma {:induction false} WaitEarnsToken(l: Limit)
    requires ValidLimit(l)
    ensures var s := RetryAfterSeconds(l.rate); s == MAX_DURATION || 1.0 <= Gain(l, s * SECOND)
  {
    var q, s := 1.0 / l.rate, RetryAfterSeconds(l.rate);
    assert q * l.rate == 1.0;
    CeilBounds(q);
    if s as real >= q {
      Product(q, s as real, l.rate);
      SecondsEarn(l, s);
    }
  }

  /** A token that is earned within the longest duration is credited, whatever the TTL and the interval. */
  lemma {:induction false} FastTokensAreCredited(cfg: Settings)
    requires ValidLimit(cfg.limit) && EarnsInTime(cfg.limit)
    ensures CreditsToken(cfg)
  {
    var l := cfg.limit;
    var wait := RetryAfterSeconds(l.rate) * SECOND;
    WaitEarnsToken(l);
    if wait > MAX_DURATION {
      CreditedMonotone(cfg, MAX_DURATION, wait);
      GainMonotone(l, MAX_DURATION, Credited(cfg, wait));
    }
  }

  /** No smaller positive whole number of seconds earns a token. */
  lemma {:induction false} LessEarnsLess(l: Limit, seconds: int)
    requires ValidLimit(l) && 1 <= seconds < RetryAfterSeconds(l.rate)
    ensures Gain(l, seconds * SECOND) < 1.0
  {
    var q, y := 1.0 / l.rate, seconds as real;
    assert q * l.rate == 1.0;
    CeilBounds(q);
    assert y < q;
    assert (q - y) * l.rate > 0.0;
    assert (q - y) * l.rate == q * l.rate - y * l.rate;
    SecondsEarn(l, seconds);
  }

  /** The header is a positive 64-bit number of seconds: the least that earns a token, or the largest if
      none does. */
  lemma {:induction false} AdvertisedSeconds(l: Limit, less: int)
    requires ValidLimit(l)
    ensures var seconds := RetryAfterSeconds(l.rate);
            && 1 <= seconds <= 9_223_372_036_854_775_807
            && (seconds < 9_223_372_036_854_775_807 ==> 1.0 <= seconds as real * l.rate)
            && (1 <= less < seconds ==> less as real * l.rate < 1.0)
  {
    var seconds := RetryAfterSeconds(l.rate);
    WaitEarnsToken(l);
    SecondsEarn(l, seconds);
    if 1 <= less < seconds {
      LessEarnsLess(l, less);
      SecondsEarn(l, less);
    }
  }

  // ----- Runs after a refusal

  /** Every call of `key` in `mid` is refused. */
  ghost predicate Refused(u: Setup, before: seq<Call>, mid: seq<Call>, key: string)
    requires u.count > 0
  {
    forall j | 0 <= j < |mid| :: mid[j].key == key ==> !Allowed(u, before + mid[..j], mid[j])
  }

  /** `key` is refused at `t` and not allowed since; `now` is a later instant. */
  ghost predicate RefusedSince(u: Setup, pre: seq<Call>, key: string, t: int, mid: seq<Call>, now: int)
    requires u.count > 0
  {
    && Timed(u.start, pre + [Call(key, t)] + mid, now)
    && !Allowed(u, pre, Call(key, t))
    && Refused(u, pre + [Call(key, t)], mid, key)
  }

  // ----- The advertised wait is enough

  ghost predicate Sound(l: Limit, s: Shard, key: string, until: int) {
    key in s.clients ==>
      var c := s.clients[key];
      ValidTokens(l, c.bucket) && c.bucket.lastRefill == c.lastSeen <= until
  }

  /** Since the refusal at `t` the client has been forgotten, or its bucket holds all that was credited. */
  ghost predicate Waiting(cfg: Settings, s: Shard, key: string, t: int, until: int) {
    && Sound(cfg.limit, s, key, until)
    && (key in s.clients ==>
          var b := s.clients[key].bucket;
          t <= b.lastRefill && Gain(cfg.limit, Credited(cfg, b.lastRefill - t)) <= b.tokens)
  }

  /** A call of another client keeps the entry or drops it. */
  lemma {:induction false} OthersKeepOrDrop(cfg: Settings, s: Shard, c: Call, key: string)
    requires c.key != key
    ensures var s' := AllowInShard(cfg, s, c.key, c.now).0;
            key in s'.clients ==> key in s.clients && s'.clients[key] == s.clients[key]
  {
  }

  lemma {:induction false} OwnCall(cfg: Settings, s: Shard, c: Call)
    requires ValidLimit(cfg.limit)
    ensures var (s', allowed) := AllowInShard(cfg, s, c.key, c.now);
            && c.key in s'.clients
            && (c.key !in CleanupShard(cfg, s, c.now).clients ==> allowed)
            && (c.key in CleanupShard(cfg, s, c.now).clients ==>
                  c.key in s.clients
                  && (s'.clients[c.key].bucket, allowed) == AllowAt(cfg.limit, s.clients[c.key].bucket, c.now))
  {
  }

  lemma {:induction false} CallSound(cfg: Settings, s: Shard, c: Call, key: string, until: int)
    requires ValidLimit(cfg.limit) && Sound(cfg.limit, s, key, until) && until <= c.now
    ensures Sound(cfg.limit, AllowInShard(cfg, s, c.key, c.now).0, key, c.now)
  {
    if c.key == key {
      RefillValid(cfg.limit, Seen(cfg, CleanupShard(cfg, s, c.now), key, c.now).bucket, c.now);
    } else {
      OthersKeepOrDrop(cfg, s, c, key);
    }
  }

  lemma {:induction false} RunSound(u: Setup, calls: seq<Call>, key: string, until: int)
    requires u.count > 0 && ValidLimit(u.cfg.limit) && Timed(u.start, calls, until)
    ensures Sound(u.cfg.limit, ShardAfter(u, calls, key), key, until)
  {
    if calls != [] {
      var before, c := calls[..|calls| - 1], calls[|calls| - 1];
      assert calls == before + [c];
      RunSound(u, before, key, c.now);
      ShardSnoc(u, before, c, key);
      CallSound(u.cfg, ShardAfter(u, before, key), c, key, c.now);
    }
  }

  /** A bucket that holds what was credited since `t` keeps doing so while it refuses, and allows as
      soon as a token was credited. */
  lemma {:induction false} RefusalClimbs(cfg: Settings, b: Tokens, t: int, now: int)
    requires ValidLimit(cfg.limit) && ValidTokens(cfg.limit, b) && t <= b.lastRefill <= now <= b.lastRefill + LongestGap(cfg)
    requires Gain(cfg.limit, Credited(cfg, b.lastRefill - t)) <= b.tokens
    ensures var (b', allowed) := AllowAt(cfg.limit, b, now);
            !allowed ==> Gain(cfg.limit, Credited(cfg, now - t)) < 1.0
                         && b'.lastRefill == now && ValidTokens(cfg.limit, b')
                         && Gain(cfg.limit, Credited(cfg, now - t)) <= b'.tokens
  {
    var l, before, gap := cfg.limit, Credited(cfg, b.lastRefill - t), now - b.lastRefill;
    var counted := if gap < MAX_DURATION then gap else MAX_DURATION;
    RefillValid(l, b, now);
    CreditedGap(cfg, b.lastRefill - t, gap);
    CreditedMonotone(cfg, 0, now - t);
    GainMonotone(l, Credited(cfg, now - t), before + counted);
    GainAdds(l, before, counted);
  }

  /** A client that is remembered by its own call was not silent for longer than the longest gap. */
  lemma {:induction false} GapIsBounded(cfg: Settings, s: Shard, key: string, now: int)
    requires Tidy(cfg, s, now) && key in CleanupShard(cfg, s, now).clients
    ensures key in s.clients && now <= s.clients[key].lastSeen + LongestGap(cfg)
  {
  }

  lemma {:induction false} CallWaits(cfg: Settings, s: Shard, c: Call, key: string, t: int)
    requires ValidLimit(cfg.limit) && Waiting(cfg, s, key, t, c.now) && Tidy(cfg, s, c.now)
    requires c.key == key ==> !AllowInShard(cfg, s, key, c.now).1
    ensures Waiting(cfg, AllowInShard(cfg, s, c.key, c.now).0, key, t, c.now)
  {
    CallSound(cfg, s, c, key, c.now);
    if c.key == key {
      OwnCall(cfg, s, c);
      GapIsBounded(cfg, s, key, c.now);
      RefusalClimbs(cfg, s.clients[key].bucket, t, c.now);
    } else {
      OthersKeepOrDrop(cfg, s, c, key);
    }
  }

  lemma {:induction false} StepWaits(u: Setup, calls: seq<Call>, c: Call, key: string, t: int)
    requires Running(u) && (c.key == key ==> !Allowed(u, calls, c))
    requires var s := ShardAfter(u, calls, key); Waiting(u.cfg, s, key, t, c.now) && Tidy(u.cfg, s, c.now)
    ensures Waiting(u.cfg, ShardAfter(u, calls + [c], key), key, t, c.now)
  {
    ShardSnoc(u, calls, c, key);
    CallWaits(u.cfg, ShardAfter(u, calls, key), c, key, t);
  }

  lemma {:induction false} RefusedBefore(u: Setup, pre: seq<Call>, early: seq<Call>, c: Call, key: string)
    requires u.count > 0 && Refused(u, pre, early + [c], key)
    ensures Refused(u, pre, early, key) && (c.key == key ==> !Allowed(u, pre + early, c))
  {
    var mid := early + [c];
    assert mid[|early|] == c && mid[..|early|] == early;
    assert forall j | 0 <= j < |early| :: early[..j] == mid[..j] && early[j] == mid[j];
  }

  lemma {:induction false} TidyAt(u: Setup, pre: seq<Call>, mid: seq<Call>, key: string, t: int, now: int)
    requires Running(u) && Timed(u.start, pre, t) && Timed(t, mid, now)
    ensures Tidy(u.cfg, ShardAfter(u, pre + mid, key), now)
  {
    RunTidies(u, pre + mid, ShardOf(u.hash, u.count, key), now);
  }

  lemma {:induction false} RunWaits(u: Setup, pre: seq<Call>, mid: seq<Call>, key: string, t: int, now: int)
    requires Running(u) && Timed(u.start, pre, t) && Timed(t, mid, now)
    requires Waiting(u.cfg, ShardAfter(u, pre, key), key, t, t) && Refused(u, pre, mid, key)
    ensures Waiting(u.cfg, ShardAfter(u, pre + mid, key), key, t, now)
  {
    if mid == [] {
      assert pre + mid == pre;
    } else {
      var early, c := mid[..|mid| - 1], mid[|mid| - 1];
      assert mid == early + [c] && pre + mid == pre + early + [c];
      RefusedBefore(u, pre, early, c, key);
      RunWaits(u, pre, early, key, t, c.now);
      TidyAt(u, pre, early, key, t, c.now);
      StepWaits(u, pre + early, c, key, t);
    }
  }

  /** A refused client starts to wait. */
  lemma {:induction false} RefusalStarts(u: Setup, pre: seq<Call>, c: Call)
    requires u.count > 0 && ValidLimit(u.cfg.limit) && Timed(u.start, pre, c.now) && !Allowed(u, pre, c)
    ensures Waiting(u.cfg, ShardAfter(u, pre + [c], c.key), c.key, c.now, c.now)
  {
    var l, s := u.cfg.limit, ShardAfter(u, pre, c.key);
    RunSound(u, pre, c.key, c.now);
    ShardSnoc(u, pre, c, c.key);
    CallSound(u.cfg, s, c, c.key, c.now);
    OwnCall(u.cfg, s, c);
    GainMonotone(l, 0, 0);
  }

  lemma {:induction false} CutTimed(start: int, pre: seq<Call>, c: Call, mid: seq<Call>, now: int)
    requires Timed(start, pre + [c] + mid, now)
    ensures Timed(start, pre, c.now) && Timed(c.now, mid, now)
  {
    var all := pre + [c] + mid;
    assert all[|pre|] == c && forall i | 0 <= i < |pre| :: pre[i] == all[i];
    assert forall j | 0 <= j < |mid| :: mid[j] == all[|pre| + 1 + j];
  }

  /** Retry-After is sufficient: a client refused at `t`, and not allowed since, is allowed once the
      advertised seconds have passed, whether or not its bucket was evicted meanwhile; whenever the wait
      is credited with a token, and so for every limit that earns one within the longest duration. */
  lemma {:induction false} RetryAfterSuffices(u: Setup, pre: seq<Call>, key: string, t: int, mid: seq<Call>, now: int)
    requires Running(u) && (CreditsToken(u.cfg) || EarnsInTime(u.cfg.limit))
    requires RefusedSince(u, pre, key, t, mid, now)
    requires now >= t + RetryAfterSeconds(u.cfg.limit.rate) * SECOND
    ensures Allowed(u, pre + [Call(key, t)] + mid, Call(key, now))
  {
    var refused := pre + [Call(key, t)];
    CutTimed(u.start, pre, Call(key, t), mid, now);
    RefusalStarts(u, pre, Call(key, t));
    RunWaits(u, refused, mid, key, t, now);
    TidyAt(u, refused, mid, key, t, now);
    LongerIsCredited(u.cfg, now - t);
    WaitingEnds(u, refused + mid, key, t, now);
  }

  lemma {:induction false} WaitingEnds(u: Setup, calls: seq<Call>, key: string, t: int, now: int)
    requires Running(u) && 1.0 <= Gain(u.cfg.limit, Credited(u.cfg, now - t))
    requires var s := ShardAfter(u, calls, key); Waiting(u.cfg, s, key, t, now) && Tidy(u.cfg, s, now)
    ensures Allowed(u, calls, Call(key, now))
  {
    var s, c := ShardAfter(u, calls, key), Call(key, now);
    ShardSnoc(u, calls, c, key);
    OwnCall(u.cfg, s, c);
    if key in CleanupShard(u.cfg, s, now).clients {
      GapIsBounded(u.cfg, s, key, now);
      RefusalClimbs(u.cfg, s.clients[key].bucket, t, now);
    }
  }

  lemma {:induction false} LongerIsCredited(cfg: Settings, d: int)
    requires ValidLimit(cfg.limit) && (CreditsToken(cfg) || EarnsInTime(cfg.limit))
    requires d >= RetryAfterSeconds(cfg.limit.rate) * SECOND
    ensures 1.0 <= Gain(cfg.limit, Credited(cfg, d))
  {
    var wait := RetryAfterSeconds(cfg.limit.rate) * SECOND;
    if EarnsInTime(cfg.limit) {
      FastTokensAreCredited(cfg);
    }
    CreditedMonotone(cfg, wait, d);
    GainMonotone(cfg.limit, Credited(cfg, wait), Credited(cfg, d));
  }

  // ----- Staying refused

  /** A call that comes before the client is idle only refills. */
  lemma {:induction false} CallWhileStuck(cfg: Settings, s: Shard, key: string, x: real, at: int, now: int)
    requires ValidLimit(cfg.limit) && Stuck(s, key, x, at) && at <= now < at + cfg.idleTTL
    requires x + Gain(cfg.limit, now - at) < 1.0
    ensures var (s', allowed) := AllowInShard(cfg, s, key, now);
            !allowed && Stuck(s', key, x + Gain(cfg.limit, now - at), now)
  {
    GainMonotone(cfg.limit, 0, 0);
  }

  /** A client whose tokens do not reach one by `end` can call often enough not to be forgotten, and
      is refused every time, at `end` as well. */
  lemma {:induction false} StaysRefused(u: Setup, calls: seq<Call>, key: string, x: real, at: int, end: int)
    returns (mid: seq<Call>)
    requires u.count > 0 && ValidLimit(u.cfg.limit) && Stuck(ShardAfter(u, calls, key), key, x, at)
    requires at <= end && x + Gain(u.cfg.limit, end - at) < 1.0
    requires end - at < u.cfg.idleTTL || 2 <= u.cfg.idleTTL
    ensures Timed(at, mid, end) && Refused(u, calls, mid, key) && !Allowed(u, calls + mid, Call(key, end))
    decreases end - at
  {
    var l, s := u.cfg.limit, ShardAfter(u, calls, key);
    if end - at < u.cfg.idleTTL {
      mid := [];
      assert calls + mid == calls;
      ShardSnoc(u, calls, Call(key, end), key);
      CallWhileStuck(u.cfg, s, key, x, at, end);
    } else {
      var next := at + u.cfg.idleTTL - 1;
      var c := Call(key, next);
      GainAdds(l, next - at, end - next);
      GainMonotone(l, 0, end - next);
      CallWhileStuck(u.cfg, s, key, x, at, next);
      ShardSnoc(u, calls, c, key);
      var rest := StaysRefused(u, calls + [c], key, x + Gain(l, next - at), next, end);
      mid := [c] + rest;
      assert calls + mid == calls + [c] + rest;
      RefusedCons(u, calls, c, rest, key);
    }
  }

  lemma {:induction false} RefusedCons(u: Setup, calls: seq<Call>, c: Call, rest: seq<Call>, key: string)
    requires u.count > 0 && (c.key == key ==> !Allowed(u, calls, c)) && Refused(u, calls + [c], rest, key)
    ensures Refused(u, calls, [c] + rest, key)
  {
    var mid := [c] + rest;
    forall j | 0 <= j < |mid|
      ensures mid[j].key == key ==> !Allowed(u, calls + mid[..j], mid[j])
    {
      if j == 0 {
        assert calls + mid[..0] == calls;
      } else {
        assert calls + mid[..j] == calls + [c] + rest[..j - 1] && mid[j] == rest[j - 1];
      }
    }
  }

  /** A drained client is refused at once and stays as it is. */
  lemma {:induction false} DrainedAndRefused(u: Setup, key: string, at: int)
    requires u.count > 0 && ValidLimit(u.cfg.limit) && u.start <= at < u.start + u.cfg.interval && 0 < u.cfg.idleTTL
    ensures var spent, c := Burst(key, at, u.cfg.limit.burst), Call(key, at);
            var s := ShardAfter(u, spent + [c], key);
            !Allowed(u, spent, c) && Stuck(s, key, 0.0, at) && s.lastCleanup == u.start
  {
    var spent, c := Burst(key, at, u.cfg.limit.burst), Call(key, at);
    BurstSpends(u, key, at);
    GainMonotone(u.cfg.limit, 0, 0);
    CallWhileStuck(u.cfg, ShardAfter(u, spent, key), key, 0.0, at, at);
    ShardSnoc(u, spent, c, key);
  }

  lemma {:induction false} BurstTimed(start: int, key: string, at: int, n: nat, mid: seq<Call>, now: int)
    requires start <= at && Timed(at, mid, now)
    ensures Timed(start, Burst(key, at, n) + [Call(key, at)] + mid, now)
  {
    var all := Burst(key, at, n) + [Call(key, at)] + mid;
    assert forall i | 0 <= i <= n :: all[i].now == at;
    assert forall j | 0 <= j < |mid| :: all[n + 1 + j] == mid[j];
  }

  /** A client that drains its bucket at `at` and then stays refused is refused since `at`. */
  lemma {:induction false} RefusedSinceDrained(u: Setup, key: string, at: int, mid: seq<Call>, now: int)
    requires Running(u) && u.start <= at < u.start + u.cfg.interval && Timed(at, mid, now)
    requires Refused(u, Burst(key, at, u.cfg.limit.burst) + [Call(key, at)], mid, key)
    ensures RefusedSince(u, Burst(key, at, u.cfg.limit.burst), key, at, mid, now)
  {
    BurstTimed(u.start, key, at, u.cfg.limit.burst, mid, now);
    DrainedAndRefused(u, key, at);
  }

  /** A drained client whose wait earns no token is refused all along. */
  lemma {:induction false} WaitsInVain(u: Setup, key: string, d: int) returns (mid: seq<Call>)
    requires Running(u) && 0 <= d && Gain(u.cfg.limit, d) < 1.0 && (d < u.cfg.idleTTL || 2 <= u.cfg.idleTTL)
    ensures var pre, t := Burst(key, u.start, u.cfg.limit.burst), u.start;
            RefusedSince(u, pre, key, t, mid, t + d) && !Allowed(u, pre + [Call(key, t)] + mid, Call(key, t + d))
  {
    var refused := Burst(key, u.start, u.cfg.limit.burst) + [Call(key, u.start)];
    DrainedAndRefused(u, key, u.start);
    mid := StaysRefused(u, refused, key, 0.0, u.start, u.start + d);
    RefusedSinceDrained(u, key, u.start, mid, u.start + d);
  }

  /** The advertised wait is the least: for every configuration and every smaller whole number of
      seconds, a run in which a client refused at some instant is refused again that much later. */
  lemma {:induction false} RetryAfterIsLeast(
    l: Limit, o: LimiterOptions, hash: string -> nat, start: int, key: string, seconds: int)
    returns (pre: seq<Call>, t: int, mid: seq<Call>)
    requires ValidLimit(l) && ValidOptions(o) && 1 <= seconds < RetryAfterSeconds(l.rate)
    ensures var u := Setup(Configure(l, o), hash, o.shardCount, start);
            && RefusedSince(u, pre, key, t, mid, t + seconds * SECOND)
            && !Allowed(u, pre + [Call(key, t)] + mid, Call(key, t + seconds * SECOND))
  {
    var u := Setup(Configure(l, o), hash, o.shardCount, start);
    pre, t := Burst(key, start, l.burst), start;
    LessEarnsLess(l, seconds);
    TTLOutlasts(l, o, seconds * SECOND);
    mid := WaitsInVain(u, key, seconds * SECOND);
  }

  /** A wait that earns no token is shorter than the idle TTL, unless the TTL is the longest duration. */
  lemma {:induction false} TTLOutlasts(l: Limit, o: LimiterOptions, d: int)
    requires ValidLimit(l) && ValidOptions(o) && Gain(l, d) < 1.0
    ensures d < Configure(l, o).idleTTL || Configure(l, o).idleTTL == MAX_DURATION
  {
    ConfiguredTTLCoversRefill(l, o);
    var ttl := Configure(l, o).idleTTL;
    if Refillable(l) && ttl <= d {
      GainMonotone(l, ttl, d);
    }
  }

  // ----- When the advertised wait is not enough

  /** A call after a gap of the longest duration or more, with no cleanup due, earns that duration only. */
  lemma {:induction false} CallSaturates(cfg: Settings, s: Shard, key: string, x: real, at: int, now: int)
    requires ValidLimit(cfg.limit) && Stuck(s, key, x, at) && x + Gain(cfg.limit, MAX_DURATION) < 1.0
    requires at + MAX_DURATION <= now < s.lastCleanup + cfg.interval
    ensures var (s', allowed) := AllowInShard(cfg, s, key, now);
            !allowed && Stuck(s', key, x + Gain(cfg.limit, MAX_DURATION), now) && s'.lastCleanup == s.lastCleanup
  {
    GainMonotone(cfg.limit, 0, MAX_DURATION);
  }

  /** The client is stuck, and the next cleanup is due before it is idle. */
  ghost predicate Missable(u: Setup, calls: seq<Call>, key: string, x: real, at: int)
    requires u.count > 0
  {
    var s := ShardAfter(u, calls, key);
    Stuck(s, key, x, at) && s.lastCleanup + u.cfg.interval < at + MAX_DURATION
  }

  /** A shard-mate's cleanup just misses the client, whose next call then loses all beyond the longest duration. */
  lemma {:induction false} MissedCall(u: Setup, calls: seq<Call>, key: string, mate: string, x: real, at: int, now: int)
    requires Running(u) && u.cfg.idleTTL == MAX_DURATION && Missable(u, calls, key, x, at)
    requires key != mate && ShardOf(u.hash, u.count, key) == ShardOf(u.hash, u.count, mate)
    requires x + Gain(u.cfg.limit, MAX_DURATION) < 1.0 && at + MAX_DURATION <= now < at + MAX_DURATION + u.cfg.interval - 1
    ensures var visited, c := calls + [Call(mate, at + MAX_DURATION - 1)], Call(key, now);
            !Allowed(u, visited, c) && Missable(u, visited + [c], key, x + Gain(u.cfg.limit, MAX_DURATION), now)
  {
    var visit, c := Call(mate, at + MAX_DURATION - 1), Call(key, now);
    ShardSnoc(u, calls, visit, key);
    MateKeepsClient(u.cfg, ShardAfter(u, calls, key), key, visit, x, at);
    ShardSnoc(u, calls + [visit], c, key);
    CallSaturates(u.cfg, ShardAfter(u, calls + [visit], key), key, x, at, now);
  }

  /** A client whose credited time does not earn a token by `end` can be refused all along: each of its
      calls but the last comes after the longest gap, just missed by a shard-mate's cleanup. */
  lemma {:induction false} MissedRounds(
    u: Setup, calls: seq<Call>, key: string, mate: string, x: real, at: int, end: int)
    returns (mid: seq<Call>)
    requires Running(u) && u.cfg.idleTTL == MAX_DURATION && 3 <= u.cfg.interval && Missable(u, calls, key, x, at)
    requires key != mate && ShardOf(u.hash, u.count, key) == ShardOf(u.hash, u.count, mate)
    requires at <= end && x + Gain(u.cfg.limit, Credited(u.cfg, end - at)) < 1.0
    ensures Timed(at, mid, end) && Refused(u, calls, mid, key) && !Allowed(u, calls + mid, Call(key, end))
    decreases end - at
  {
    var l, gap := u.cfg.limit, LongestGap(u.cfg);
    if end - at < MAX_DURATION {
      mid := [];
      assert calls + mid == calls;
      ShardSnoc(u, calls, Call(key, end), key);
      CallWhileStuck(u.cfg, ShardAfter(u, calls, key), key, x, at, end);
    } else {
      var visit := Call(mate, at + MAX_DURATION - 1);
      if end - at <= gap {
        mid := [visit];
        MissedCall(u, calls, key, mate, x, at, end);
      } else {
        var c := Call(key, at + gap);
        var left := Credited(u.cfg, end - c.now);
        CreditedMonotone(u.cfg, 0, end - c.now);
        GainAdds(l, MAX_DURATION, left);
        GainMonotone(l, 0, left);
        MissedCall(u, calls, key, mate, x, at, c.now);
        var rest := MissedRounds(u, calls + [visit] + [c], key, mate, x + Gain(l, MAX_DURATION), c.now, end);
        mid := RefusedRound(u, calls, visit, c, rest, key, at, end);
      }
    }
  }

  lemma {:induction false} RefusedRound(
    u: Setup, calls: seq<Call>, visit: Call, c: Call, rest: seq<Call>, key: string, at: int, end: int)
    returns (mid: seq<Call>)
    requires u.count > 0 && visit.key != key && !Allowed(u, calls + [visit], c)
    requires at <= visit.now <= c.now && Timed(c.now, rest, end) && Refused(u, calls + [visit] + [c], rest, key)
    requires !Allowed(u, calls + [visit] + [c] + rest, Call(key, end))
    ensures Timed(at, mid, end) && Refused(u, calls, mid, key) && !Allowed(u, calls + mid, Call(key, end))
  {
    mid := [visit] + ([c] + rest);
    RefusedCons(u, calls + [visit], c, rest, key);
    RefusedCons(u, calls, visit, [c] + rest, key);
    assert calls + mid == calls + [visit] + [c] + rest;
  }

  /** If the advertised wait is not credited with a token, a client that waits for it can be refused again. */
  lemma {:induction false} RetryAfterFails(u: Setup) returns (pre: seq<Call>, key: string, t: int, mid: seq<Call>)
    requires Running(u) && u.cfg.idleTTL == MAX_DURATION && !CreditsToken(u.cfg)
    ensures var now := t + RetryAfterSeconds(u.cfg.limit.rate) * SECOND;
            RefusedSince(u, pre, key, t, mid, now) && !Allowed(u, pre + [Call(key, t)] + mid, Call(key, now))
  {
    var wait, n, mate := RetryAfterSeconds(u.cfg.limit.rate) * SECOND, u.cfg.limit.burst, "";
    if u.cfg.interval <= 2 {
      key, t, pre := "", u.start, Burst("", u.start, n);
      CreditedInFull(u.cfg, wait);
      mid := WaitsInVain(u, key, wait);
    } else {
      key, mate := ShardMates(u.hash, u.count);
      t := u.start + 1;
      pre := Burst(key, t, n);
      DrainedAndRefused(u, key, t);
      mid := MissedRounds(u, pre + [Call(key, t)], key, mate, 0.0, t, t + wait);
      RefusedSinceDrained(u, key, t, mid, t + wait);
    }
  }

  lemma {:induction false} CreditedInFull(cfg: Settings, d: int)
    requires LongestGap(cfg) == MAX_DURATION && 0 <= d
    ensures Credited(cfg, d) == d
    decreases d
  {
    if d > MAX_DURATION {
      CreditedInFull(cfg, d - MAX_DURATION);
    }
  }

  /** Whoever waits the advertised seconds after a refusal is allowed. */
  ghost predicate WaitIsEnough(u: Setup)
    requires u.count > 0 && ValidLimit(u.cfg.limit)
  {
    forall pre, key, t, mid, now |
      RefusedSince(u, pre, key, t, mid, now) && now >= t + RetryAfterSeconds(u.cfg.limit.rate) * SECOND ::
      Allowed(u, pre + [Call(key, t)] + mid, Call(key, now))
  }

  /** Retry-After, exactly: for every valid configuration, the advertised wait is enough in every run
      if and only if the time credited for it, with the longest gaps, earns a token. */
  lemma {:induction false} RetryAfterExactly(l: Limit, o: LimiterOptions, hash: string -> nat, start: int)
    requires ValidLimit(l) && ValidOptions(o)
    ensures WaitIsEnough(Setup(Configure(l, o), hash, o.shardCount, start)) <==> CreditsToken(Configure(l, o))
  {
    var u := Setup(Configure(l, o), hash, o.shardCount, start);
    ConfiguredTTLCoversRefill(l, o);
    if CreditsToken(u.cfg) {
      forall pre, key, t, mid, now |
        RefusedSince(u, pre, key, t, mid, now) && now >= t + RetryAfterSeconds(l.rate) * SECOND
        ensures Allowed(u, pre + [Call(key, t)] + mid, Call(key, now))
      {
        RetryAfterSuffices(u, pre, key, t, mid, now);
      }
    } else {
      if EarnsInTime(l) {
        FastTokensAreCredited(u.cfg);
        assert false;
      }
      var pre, key, t, mid := RetryAfterFails(u);
      assert RefusedSince(u, pre, key, t, mid, t + RetryAfterSeconds(l.rate) * SECOND);
    }
  }

  /** With cleanups rarer than about once a second (the gateway: once a minute), the advertised wait is
      enough if and only if a token is earned within the longest duration. */
  lemma {:induction false} RetryAfterInProduction(l: Limit, o: LimiterOptions, hash: string -> nat, start: int)
    requires ValidLimit(l) && ValidOptions(o) && SECOND + 2 <= o.cleanupInterval
    ensures WaitIsEnough(Setup(Configure(l, o), hash, o.shardCount, start)) <==> EarnsInTime(l)
  {
    RetryAfterExactly(l, o, hash, start);
    if EarnsInTime(l) {
      FastTokensAreCredited(Configure(l, o));
    } else {
      ConfiguredTTLCoversRefill(l, o);
      SlowTokensAreNot(Configure(l, o));
    }
  }

  lemma {:induction false} SlowTokensAreNot(cfg: Settings)
    requires ValidLimit(cfg.limit) && !EarnsInTime(cfg.limit) && cfg.idleTTL == MAX_DURATION && SECOND + 2 <= cfg.interval
    ensures !CreditsToken(cfg)
  {
    var l, seconds, gap := cfg.limit, RetryAfterSeconds(cfg.limit.rate), LongestGap(cfg);
    var counted := Credited(cfg, seconds * SECOND);
    if seconds * SECOND <= MAX_DURATION {
      WaitEarnsToken(l);
      GainMonotone(l, seconds * SECOND, MAX_DURATION);
      assert false;
    } else if seconds * SECOND > gap {
      CreditedMonotone(cfg, 0, seconds * SECOND - gap);
      LessEarnsLess(l, seconds - 1);
      GainMonotone(l, counted, (seconds - 1) * SECOND);
    }
  }
}
