/** The token bucket of internal/ratelimiter/bucket.go. Token counts are reals; instants and
    durations are integer nanoseconds, and a duration saturates at 64 bits as Go's does. */
module TokenBucket {
  import opened Options

  const SECOND := 1_000_000_000
  const MAX_DURATION := 0x7FFF_FFFF_FFFF_FFFF

  datatype Limit = Limit(rate: real, burst: int)

  datatype LimitError = InvalidRate | InvalidBurst

  predicate ValidLimit(l: Limit) {
    l.rate > 0.0 && l.burst > 0
  }

  datatype Tokens = Tokens(tokens: real, lastRefill: int)

  /** Tokens earned in `d` nanoseconds. */
  function Gain(l: Limit, d: int): real {
    (d as real / 1_000_000_000.0) * l.rate
  }

  function Elapsed(from: int, to: int): int {
    if to - from > MAX_DURATION then MAX_DURATION else to - from
  }

  function Min(a: real, b: real): real {
    if a < b then a else b
  }

  function Full(l: Limit, now: int): Tokens {
    Tokens(l.burst as real, now)
  }

  function Refill(l: Limit, b: Tokens, now: int): Tokens {
    if now <= b.lastRefill then b
    else Tokens(Min(l.burst as real, b.tokens + Gain(l, Elapsed(b.lastRefill, now))), now)
  }

  function AllowAt(l: Limit, b: Tokens, now: int): (Tokens, bool) {
    var r := Refill(l, b, now);
    if r.tokens < 1.0 then (r, false) else (r.(tokens := r.tokens - 1.0), true)
  }

  class Bucket {
    const limit: Limit
    var tokens: real
    var lastRefill: int

    function Value(): Tokens
      reads this
    {
      Tokens(tokens, lastRefill)
    }

    constructor (l: Limit, startedAt: int)
      ensures limit == l && Value() == Full(l, startedAt)
    {
      limit, tokens, lastRefill := l, l.burst as real, startedAt;
    }

    method RefillInPlace(now: int)
      modifies this
      ensures Value() == Refill(limit, old(Value()), now)
      ensures now <= old(lastRefill) ==> Value() == old(Value())
    {
      if now <= lastRefill {
        return;
      }
      var elapsed := Elapsed(lastRefill, now);
      tokens := Min(limit.burst as real, tokens + Gain(limit, elapsed));
      lastRefill := now;
    }

    method Allow(now: int) returns (allowed: bool)
      modifies this
      ensures (Value(), allowed) == AllowAt(limit, old(Value()), now)
      ensures now <= old(lastRefill) ==>
        && allowed == (old(tokens) >= 1.0)
        && Value() == Tokens(old(tokens) - if allowed then 1.0 else 0.0, old(lastRefill))
    {
      RefillInPlace(now);
      if tokens < 1.0 {
        return false;
      }
      tokens := tokens - 1.0;
      return true;
    }
  }

  method NewBucket(l: Limit, now: int) returns (r: Result<Bucket, LimitError>)
    ensures l.rate <= 0.0 ==> r == Err(InvalidRate)
    ensures l.rate > 0.0 && l.burst <= 0 ==> r == Err(InvalidBurst)
    ensures ValidLimit(l) ==> r.Ok? && fresh(r.value) && r.value.limit == l && r.value.Value() == Full(l, now)
  {
    if l.rate <= 0.0 {
      return Err(InvalidRate);
    }
    if l.burst <= 0 {
      return Err(InvalidBurst);
    }
    var b := new Bucket(l, now);
    r := Ok(b);
  }

  // ----- Refilling

  lemma {:induction false} GainAdds(l: Limit, a: int, b: int)
    ensures Gain(l, a + b) == Gain(l, a) + Gain(l, b)
  {
    var x, y := a as real / 1_000_000_000.0, b as real / 1_000_000_000.0;
    assert (a + b) as real / 1_000_000_000.0 == x + y;
    assert (x + y) * l.rate == x * l.rate + y * l.rate;
  }

  lemma {:induction false} GainMonotone(l: Limit, a: int, b: int)
    requires l.rate > 0.0 && a <= b
    ensures Gain(l, a) <= Gain(l, b) && Gain(l, 0) == 0.0
  {
    Product(a as real / 1_000_000_000.0, b as real / 1_000_000_000.0, l.rate);
  }

  lemma {:induction false} Product(x: real, y: real, r: real)
    requires x <= y && r > 0.0
    ensures x * r <= y * r
  {
    assert (y - x) * r >= 0.0;
    assert (y - x) * r == y * r - x * r;
  }

  /** Whether an empty bucket refills within the longest representable duration. */
  predicate Refillable(l: Limit) {
    l.burst as real <= Gain(l, MAX_DURATION)
  }

  /** Saturated durations cannot be seen between these instants. */
  predicate Unsaturated(l: Limit, from: int, to: int) {
    Refillable(l) || to - from <= MAX_DURATION
  }

  predicate ValidTokens(l: Limit, b: Tokens) {
    0.0 <= b.tokens <= l.burst as real
  }

  lemma {:induction false} RefillValid(l: Limit, b: Tokens, now: int)
    requires ValidLimit(l) && ValidTokens(l, b)
    ensures ValidTokens(l, Refill(l, b, now)) && ValidTokens(l, AllowAt(l, b, now).0)
    ensures b.tokens <= Refill(l, b, now).tokens
  {
    if now > b.lastRefill {
      GainMonotone(l, 0, Elapsed(b.lastRefill, now));
    }
  }

  /** A refill adds the exact gain, capped at the burst. */
  lemma {:induction false} RefillExact(l: Limit, b: Tokens, now: int)
    requires ValidLimit(l) && ValidTokens(l, b) && b.lastRefill <= now && Unsaturated(l, b.lastRefill, now)
    ensures Refill(l, b, now) == Tokens(Min(l.burst as real, b.tokens + Gain(l, now - b.lastRefill)), now)
  {
    GainMonotone(l, 0, 0);
    if now - b.lastRefill > MAX_DURATION {
      GainMonotone(l, MAX_DURATION, now - b.lastRefill);
    }
  }

  /** Capped refills compose. */
  lemma {:induction false} RefillComposes(l: Limit, b: Tokens, mid: int, now: int)
    requires ValidLimit(l) && ValidTokens(l, b) && b.lastRefill <= mid <= now && Unsaturated(l, b.lastRefill, now)
    ensures Refill(l, Refill(l, b, mid), now) == Refill(l, b, now)
  {
    RefillExact(l, b, mid);
    RefillExact(l, b, now);
    RefillValid(l, b, mid);
    RefillExact(l, Refill(l, b, mid), now);
    GainAdds(l, mid - b.lastRefill, now - mid);
    GainMonotone(l, 0, now - mid);
  }

  // ----- Whole refills and simultaneous calls

  function Ceil(x: real): int {
    -((-x).Floor)
  }

  lemma CeilBounds(x: real)
    ensures x <= Ceil(x) as real < x + 1.0
  {
  }

  /** A duration earns the burst exactly when it reaches burst / rate seconds. */
  lemma {:induction false} GainOf(l: Limit, d: int)
    requires ValidLimit(l)
    ensures l.burst as real <= Gain(l, d) <==> l.burst as real / l.rate * 1_000_000_000.0 <= d as real
  {
    var b, q, y := l.burst as real, l.burst as real / l.rate, d as real / 1_000_000_000.0;
    assert q * l.rate == b;
    if q <= y {
      Product(q, y, l.rate);
    } else {
      assert (q - y) * l.rate > 0.0;
      assert (q - y) * l.rate == q * l.rate - y * l.rate;
    }
  }

  /** In plain numbers: a refill fits into the longest duration, 2^63 - 1 nanoseconds, exactly when the
      burst is earned in 9223372036.854775807 seconds. */
  lemma {:induction false} RefillableInSeconds(l: Limit)
    ensures Refillable(l) <==> l.burst as real <= 9_223_372_036.854775807 * l.rate
  {
    assert MAX_DURATION as real / 1_000_000_000.0 == 9_223_372_036.854775807;
  }

  /** A bucket after `n` simultaneous calls. */
  function Drained(l: Limit, b: Tokens, now: int, n: nat): Tokens {
    if n == 0 then b else AllowAt(l, Drained(l, b, now, n - 1), now).0
  }

  /** Simultaneous calls spend one token each until less than one is left. */
  lemma {:induction false} DrainLevel(l: Limit, b: Tokens, now: int, n: nat)
    requires b.lastRefill <= now
    ensures var full, left := Refill(l, b, now).tokens, Refill(l, Drained(l, b, now, n), now).tokens;
            if full >= n as real then left == full - n as real else left < 1.0
    ensures Drained(l, b, now, n).lastRefill <= now && (n > 0 ==> Drained(l, b, now, n).lastRefill == now)
  {
    if n > 0 {
      DrainLevel(l, b, now, n - 1);
    }
  }

  /** Refilling at an intermediate instant makes no difference to this bucket. */
  ghost predicate Composes(l: Limit, b: Tokens, mid: int, now: int) {
    Refill(l, Refill(l, b, mid), now) == Refill(l, b, now)
  }

  /** Lazy refilling is independent of when it happens, for all buckets and instants, exactly when an
      empty bucket refills within the longest duration. */
  lemma {:induction false} ComposesExactly(l: Limit)
    requires ValidLimit(l)
    ensures Refillable(l) <==>
            forall b, mid, now | ValidTokens(l, b) && b.lastRefill <= mid <= now :: Composes(l, b, mid, now)
  {
    if Refillable(l) {
      forall b, mid, now | ValidTokens(l, b) && b.lastRefill <= mid <= now
        ensures Composes(l, b, mid, now)
      {
        RefillComposes(l, b, mid, now);
      }
    } else {
      GainMonotone(l, 0, MAX_DURATION);
      assert Gain(l, MAX_DURATION) > 0.0;
      assert !Composes(l, Tokens(0.0, 0), MAX_DURATION, 2 * MAX_DURATION);
    }
  }
}

/** Whole-run properties of one bucket: the window bound, its exactness, and the invisibility
    of rejected calls. */
module BucketRuns {
  import opened TokenBucket

  /** The bucket after calls at the given instants. */
  function Run(l: Limit, start: int, times: seq<int>): Tokens {
    if times == [] then Full(l, start)
    else AllowAt(l, Run(l, start, times[..|times| - 1]), times[|times| - 1]).0
  }

  /** The answer to a call at `now` that follows the calls at `times`. */
  predicate Allowed(l: Limit, start: int, times: seq<int>, now: int) {
    AllowAt(l, Run(l, start, times), now).1
  }

  predicate Timed(start: int, times: seq<int>) {
    && (forall i | 0 <= i < |times| :: start <= times[i])
    && (forall i, j | 0 <= i < j < |times| :: times[i] <= times[j])
  }

  lemma {:induction false} RunValid(l: Limit, start: int, times: seq<int>)
    requires ValidLimit(l) && Timed(start, times)
    ensures ValidTokens(l, Run(l, start, times))
    ensures Run(l, start, times).lastRefill == if times == [] then start else times[|times| - 1]
  {
    if times != [] {
      var before, now := times[..|times| - 1], times[|times| - 1];
      RunValid(l, start, before);
      RefillValid(l, Run(l, start, before), now);
      if before != [] {
        assert times[|times| - 2] <= times[|times| - 1];
      }
    }
  }

  // ----- Window bound

  /** How many calls in the window [s, t] were allowed. */
  function AllowedWithin(l: Limit, start: int, times: seq<int>, s: int, t: int): nat {
    if times == [] then 0
    else
      var before, now := times[..|times| - 1], times[|times| - 1];
      AllowedWithin(l, start, before, s, t) + if s <= now <= t && Allowed(l, start, before, now) then 1 else 0
  }

  /** While the window is open, what was allowed plus what is left stays within the bound. */
  lemma {:induction false} WindowInvariant(l: Limit, start: int, times: seq<int>, s: int, t: int)
    requires ValidLimit(l) && Timed(start, times) && s <= t
    ensures var n := AllowedWithin(l, start, times, s, t) as real;
            var cap := l.burst as real;
            if times == [] || times[|times| - 1] < s then n == 0.0
            else if times[|times| - 1] <= t
            then n + Run(l, start, times).tokens <= cap + Gain(l, times[|times| - 1] - s)
            else n <= cap + Gain(l, t - s)
  {
    GainMonotone(l, 0, t - s);
    if times != [] {
      var before, now := times[..|times| - 1], times[|times| - 1];
      WindowInvariant(l, start, before, s, t);
      RunValid(l, start, before);
      var b := Run(l, start, before);
      RefillValid(l, b, now);
      if before != [] {
        var last := before[|before| - 1];
        assert times[|times| - 2] <= times[|times| - 1];
        if s <= last <= t {
          GainAdds(l, last - s, now - last);
          GainMonotone(l, 0, now - last);
          GainMonotone(l, Elapsed(last, now), now - last);
          GainMonotone(l, last - s, t - s);
        }
      }
      if s <= now {
        GainMonotone(l, 0, now - s);
      }
    }
  }

  /** Token-bucket window bound: at most burst + rate * (t - s) calls are allowed in any [s, t]. */
  lemma {:induction false} WindowBound(l: Limit, start: int, times: seq<int>, s: int, t: int)
    requires ValidLimit(l) && Timed(start, times) && s <= t
    ensures AllowedWithin(l, start, times, s, t) as real <= l.burst as real + Gain(l, t - s)
  {
    WindowInvariant(l, start, times, s, t);
    GainMonotone(l, 0, t - s);
    if times != [] && s <= times[|times| - 1] <= t {
      RunValid(l, start, times);
      GainMonotone(l, times[|times| - 1] - s, t - s);
    }
  }

  // ----- Exactness: the bucket refuses a call only when some window is exhausted

  /** How many of the calls from index `i` on were allowed. */
  function AllowedFrom(l: Limit, start: int, times: seq<int>, i: nat): nat {
    if |times| <= i then 0
    else
      var before, now := times[..|times| - 1], times[|times| - 1];
      AllowedFrom(l, start, before, i) + if Allowed(l, start, before, now) then 1 else 0
  }

  /** What the window from call `i` to `now` still permits. */
  function Allowance(l: Limit, start: int, times: seq<int>, i: nat, now: int): real
    requires i <= |times|
  {
    l.burst as real + Gain(l, now - (times + [now])[i]) - AllowedFrom(l, start, times, i) as real
  }

  function Level(l: Limit, start: int, times: seq<int>, now: int): real {
    Refill(l, Run(l, start, times), now).tokens
  }

  lemma {:induction false} LevelStep(l: Limit, start: int, times: seq<int>, now: int)
    requires ValidLimit(l) && times != [] && Timed(start, times + [now]) && Unsaturated(l, times[0], now)
    ensures var before, last := times[..|times| - 1], times[|times| - 1];
            var spent := if Allowed(l, start, before, last) then 1.0 else 0.0;
            Level(l, start, times, now) == Min(l.burst as real, Level(l, start, before, last) + (Gain(l, now - last) - spent))
  {
    var all := times + [now];
    assert all[0] <= all[|times| - 1] <= all[|times|];
    assert Timed(start, times) by {
      assert forall i | 0 <= i < |times| :: times[i] == all[i];
    }
    RunValid(l, start, times);
    RefillExact(l, Run(l, start, times), now);
  }

  lemma {:induction false} AllowanceStep(l: Limit, start: int, times: seq<int>, now: int, i: nat)
    requires times != [] && i < |times|
    ensures var before, last := times[..|times| - 1], times[|times| - 1];
            var spent := if Allowed(l, start, before, last) then 1.0 else 0.0;
            Allowance(l, start, times, i, now) == Allowance(l, start, before, i, last) - spent + Gain(l, now - last)
  {
    var before, last := times[..|times| - 1], times[|times| - 1];
    assert (times + [now])[i] == times[i] == (before + [last])[i];
    GainAdds(l, last - times[i], now - last);
  }

  // The least element of a list of allowances, and how it moves when time passes and tokens are spent.

  ghost predicate Least(x: real, a: seq<real>) {
    x in a && forall i | 0 <= i < |a| :: x <= a[i]
  }

  function Shift(a: seq<real>, d: real): (r: seq<real>)
    ensures |r| == |a|
  {
    seq(|a|, i requires 0 <= i < |a| => a[i] + d)
  }

  lemma {:induction false} LeastShift(x: real, a: seq<real>, d: real, cap: real)
    requires Least(x, a)
    ensures Least(Min(cap, x + d), Shift(a, d) + [cap])
  {
    var i :| 0 <= i < |a| && a[i] == x;
    var b := Shift(a, d) + [cap];
    assert b[i] == x + d && b[|a|] == cap;
  }

  /** The allowances of all windows ending now, by the call they start at. */
  function Allowances(l: Limit, start: int, times: seq<int>, now: int): (r: seq<real>)
    ensures |r| == |times| + 1
  {
    seq(|times| + 1, i requires 0 <= i <= |times| => Allowance(l, start, times, i, now))
  }

  lemma {:induction false} LatestAllowance(l: Limit, start: int, times: seq<int>, now: int)
    ensures Allowance(l, start, times, |times|, now) == l.burst as real
  {
    assert (times + [now])[|times|] == now;
  }

  lemma {:induction false} AllowancesStep(l: Limit, start: int, times: seq<int>, now: int)
    requires times != []
    ensures var before, last := times[..|times| - 1], times[|times| - 1];
            var spent := if Allowed(l, start, before, last) then 1.0 else 0.0;
            Allowances(l, start, times, now)
            == Shift(Allowances(l, start, before, last), Gain(l, now - last) - spent) + [l.burst as real]
  {
    LatestAllowance(l, start, times, now);
    forall i | 0 <= i < |times|
      ensures var before, last := times[..|times| - 1], times[|times| - 1];
              var spent := if Allowed(l, start, before, last) then 1.0 else 0.0;
              Allowances(l, start, times, now)[i] == Allowances(l, start, before, last)[i] + (Gain(l, now - last) - spent)
    {
      AllowanceStep(l, start, times, now, i);
    }
  }

  lemma {:induction false} TimedSnoc(l: Limit, start: int, times: seq<int>, now: int)
    requires times != [] && Timed(start, times + [now]) && Unsaturated(l, times[0], now)
    ensures Timed(start, times) && Unsaturated(l, times[0], times[|times| - 1])
  {
    var all := times + [now];
    assert forall k | 0 <= k < |times| :: times[k] == all[k];
    assert all[|times| - 1] <= all[|times|];
  }

  lemma {:induction false} FirstLevel(l: Limit, start: int, now: int)
    requires ValidLimit(l)
    ensures Least(Level(l, start, [], now), Allowances(l, start, [], now))
  {
    RefillValid(l, Full(l, start), now);
    LatestAllowance(l, start, [], now);
    assert Allowances(l, start, [], now)[0] == l.burst as real;
  }

  lemma {:induction false} LeastStep(l: Limit, start: int, times: seq<int>, now: int)
    requires ValidLimit(l) && times != [] && Timed(start, times + [now]) && Unsaturated(l, times[0], now)
    requires var before, last := times[..|times| - 1], times[|times| - 1];
             Least(Level(l, start, before, last), Allowances(l, start, before, last))
    ensures Least(Level(l, start, times, now), Allowances(l, start, times, now))
  {
    var before, last := times[..|times| - 1], times[|times| - 1];
    var spent := if Allowed(l, start, before, last) then 1.0 else 0.0;
    LevelStep(l, start, times, now);
    AllowancesStep(l, start, times, now);
    LeastShift(Level(l, start, before, last), Allowances(l, start, before, last), Gain(l, now - last) - spent,
               l.burst as real);
  }

  /** The level is the least allowance over all windows ending now. */
  lemma {:induction false} LevelIsLeastAllowance(l: Limit, start: int, times: seq<int>, now: int)
    requires ValidLimit(l) && Timed(start, times + [now]) && Unsaturated(l, (times + [now])[0], now)
    ensures Least(Level(l, start, times, now), Allowances(l, start, times, now))
    decreases |times|
  {
    if times == [] {
      FirstLevel(l, start, now);
    } else {
      var before, last := times[..|times| - 1], times[|times| - 1];
      assert before + [last] == times && (times + [now])[0] == times[0];
      TimedSnoc(l, start, times, now);
      LevelIsLeastAllowance(l, start, before, last);
      LeastStep(l, start, times, now);
    }
  }

  /** The window from call `i` on has room for one more call now. */
  predicate HasRoom(l: Limit, start: int, times: seq<int>, i: nat, now: int)
    requires i <= |times|
  {
    AllowedFrom(l, start, times, i) as real + 1.0 <= l.burst as real + Gain(l, now - (times + [now])[i])
  }

  /** The call is allowed exactly when admitting it overdraws no window that ends with it. */
  ghost predicate ExactAt(l: Limit, start: int, times: seq<int>, now: int) {
    Allowed(l, start, times, now) <==> forall i | 0 <= i <= |times| :: HasRoom(l, start, times, i, now)
  }

  lemma {:induction false} BucketIsExact(l: Limit, start: int, times: seq<int>, now: int)
    requires ValidLimit(l) && Timed(start, times + [now]) && Unsaturated(l, (times + [now])[0], now)
    ensures ExactAt(l, start, times, now)
  {
    LevelIsLeastAllowance(l, start, times, now);
    var a, level := Allowances(l, start, times, now), Level(l, start, times, now);
    forall i | 0 <= i <= |times|
      ensures HasRoom(l, start, times, i, now) <==> 1.0 <= a[i]
    {
      assert a[i] == Allowance(l, start, times, i, now);
    }
    var w :| 0 <= w < |a| && a[w] == level;
    assert Allowed(l, start, times, now) <==> 1.0 <= level;
  }

  function Repeat(t: int, n: nat): seq<int> {
    seq(n, _ => t)
  }

  lemma {:induction false} RunRepeat(l: Limit, start: int, pre: seq<int>, t: int, n: nat)
    ensures Run(l, start, pre + Repeat(t, n)) == Drained(l, Run(l, start, pre), t, n)
  {
    var all := pre + Repeat(t, n);
    if n == 0 {
      assert all == pre;
    } else {
      RunRepeat(l, start, pre, t, n - 1);
      assert all[..|all| - 1] == pre + Repeat(t, n - 1) && all[|all| - 1] == t;
    }
  }

  lemma {:induction false} AllowedFromBound(l: Limit, start: int, times: seq<int>, i: nat)
    requires i <= |times|
    ensures AllowedFrom(l, start, times, i) <= |times| - i
    decreases |times|
  {
    if i < |times| {
      AllowedFromBound(l, start, times[..|times| - 1], i);
    }
  }

  /** If a refill takes longer than any duration, a drained bucket is still refused calls after a wait
      in which every window has room again. */
  lemma {:induction false} SaturationIsInexact(l: Limit) returns (times: seq<int>, now: int)
    requires ValidLimit(l) && !Refillable(l)
    ensures Timed(0, times + [now]) && !ExactAt(l, 0, times, now)
  {
    var b := l.burst;
    now := Ceil(b as real / l.rate * 1_000_000_000.0);
    times := Repeat(0, b) + Repeat(now, b - 1);
    CeilBounds(b as real / l.rate * 1_000_000_000.0);
    GainOf(l, now);
    GainOf(l, MAX_DURATION);
    assert MAX_DURATION < now;
    StillRefused(l, now);
    GainMonotone(l, 0, 0);
    forall i | 0 <= i <= |times|
      ensures HasRoom(l, 0, times, i, now)
    {
      AllowedFromBound(l, 0, times, i);
      assert (times + [now])[i] == if i < b then 0 else now;
    }
  }

  lemma {:induction false} StillRefused(l: Limit, now: int)
    requires ValidLimit(l) && !Refillable(l) && MAX_DURATION < now
    ensures !Allowed(l, 0, Repeat(0, l.burst) + Repeat(now, l.burst - 1), now)
  {
    assert [] + Repeat(0, l.burst) == Repeat(0, l.burst);
    RunRepeat(l, 0, [], 0, l.burst);
    DrainLevel(l, Full(l, 0), 0, l.burst);
    RunRepeat(l, 0, Repeat(0, l.burst), now, l.burst - 1);
    DrainLevel(l, Tokens(0.0, 0), now, l.burst - 1);
  }

  /** The bucket is the greedy enforcer of its window bound, over all runs, exactly when an empty
      bucket refills within the longest duration. */
  lemma {:induction false} ExactExactly(l: Limit)
    requires ValidLimit(l)
    ensures Refillable(l) <==> forall start, times, now | Timed(start, times + [now]) :: ExactAt(l, start, times, now)
  {
    if Refillable(l) {
      forall start, times, now | Timed(start, times + [now])
        ensures ExactAt(l, start, times, now)
      {
        BucketIsExact(l, start, times, now);
      }
    } else {
      var times, now := SaturationIsInexact(l);
    }
  }

  // ----- A rejected call leaves no trace

  /** The first call after a rejected one finds the bucket as if there had been no rejected call. */
  lemma {:induction false} NextAfterRejected(l: Limit, start: int, pre: seq<int>, t: int, now: int)
    requires ValidLimit(l) && Timed(start, pre) && !Allowed(l, start, pre, t)
    requires start <= t <= now && (pre != [] ==> pre[|pre| - 1] <= t) && Unsaturated(l, start, now)
    ensures AllowAt(l, Run(l, start, pre + [t]), now) == AllowAt(l, Run(l, start, pre), now)
  {
    assert (pre + [t])[..|pre|] == pre;
    RunValid(l, start, pre);
    RefillComposes(l, Run(l, start, pre), t, now);
  }

  /** The bucket after further calls from a given state. */
  function RunFrom(l: Limit, b: Tokens, times: seq<int>): Tokens
    decreases |times|
  {
    if times == [] then b else RunFrom(l, AllowAt(l, b, times[0]).0, times[1..])
  }

  lemma {:induction false} RunConcat(l: Limit, start: int, pre: seq<int>, post: seq<int>)
    ensures Run(l, start, pre + post) == RunFrom(l, Run(l, start, pre), post)
    decreases |post|
  {
    if post == [] {
      assert pre + post == pre;
    } else {
      var longer := pre + [post[0]];
      assert longer[..|pre|] == pre && pre + post == longer + post[1..];
      RunConcat(l, start, longer, post[1..]);
    }
  }

  lemma {:induction false} CutTimed(start: int, pre: seq<int>, t: int, post: seq<int>)
    requires Timed(start, pre + [t] + post)
    ensures Timed(start, pre) && start <= t && (pre != [] ==> pre[|pre| - 1] <= t) && (post != [] ==> t <= post[0])
  {
    var all := pre + [t] + post;
    assert all[|pre|] == t && forall i | 0 <= i < |pre| :: all[i] == pre[i];
    assert post != [] ==> all[|pre| + 1] == post[0];
  }

  /** Deleting a rejected call from a run changes no later answer. */
  lemma {:induction false} DroppingRejectedCall(l: Limit, start: int, pre: seq<int>, t: int, post: seq<int>, now: int)
    requires ValidLimit(l) && Timed(start, pre + [t] + (post + [now])) && !Allowed(l, start, pre, t)
    requires Unsaturated(l, start, now)
    ensures Allowed(l, start, pre + [t] + post, now) == Allowed(l, start, pre + post, now)
  {
    CutTimed(start, pre, t, post + [now]);
    RunConcat(l, start, pre + [t], post);
    RunConcat(l, start, pre, post);
    var next := (post + [now])[0];
    assert next <= now by {
      var all := pre + [t] + (post + [now]);
      assert all[|pre| + 1] == next && all[|all| - 1] == now;
    }
    NextAfterRejected(l, start, pre, t, next);
  }

  // ----- Exactly when rejected calls leave no trace

  /** A run with a rejected call at `t`. */
  ghost predicate RejectedAt(l: Limit, start: int, pre: seq<int>, t: int, post: seq<int>, now: int) {
    Timed(start, pre + [t] + (post + [now])) && !Allowed(l, start, pre, t)
  }

  ghost predicate Invisible(l: Limit, start: int, pre: seq<int>, t: int, post: seq<int>, now: int) {
    Allowed(l, start, pre + [t] + post, now) == Allowed(l, start, pre + post, now)
  }

  lemma {:induction false} GainPositive(l: Limit, d: int)
    requires ValidLimit(l) && d > 0
    ensures Gain(l, d) > 0.0
  {
    assert d as real / 1_000_000_000.0 > 0.0;
  }

  /** The last multiple of `step`, from the `k`-th on, that earns less than a token. */
  lemma {:induction false} LastBelowToken(l: Limit, step: nat, k: nat, enough: int) returns (last: nat)
    requires ValidLimit(l) && step > 0 && Gain(l, k * step) < 1.0 <= Gain(l, enough)
    ensures last >= k && Gain(l, last * step) < 1.0 <= Gain(l, (last + 1) * step)
    decreases enough - k * step
  {
    assert (k + 1) * step == k * step + step;
    if Gain(l, (k + 1) * step) >= 1.0 {
      last := k;
    } else {
      assert k * step < enough by {
        if enough <= k * step {
          GainMonotone(l, enough, k * step);
        }
      }
      last := LastBelowToken(l, step, k + 1, enough);
    }
  }

  /** A time that earns a token. */
  lemma {:induction false} TokenTime(l: Limit) returns (enough: int)
    requires ValidLimit(l)
    ensures Gain(l, enough) >= 1.0
  {
    var one := Limit(l.rate, 1);
    enough := Ceil(1.0 / l.rate * 1_000_000_000.0);
    CeilBounds(1.0 / l.rate * 1_000_000_000.0);
    GainOf(one, enough);
  }

  lemma {:induction false} DrainedAtZero(l: Limit)
    requires ValidLimit(l)
    ensures Run(l, 0, Repeat(0, l.burst)) == Tokens(0.0, 0)
  {
    assert [] + Repeat(0, l.burst) == Repeat(0, l.burst);
    RunRepeat(l, 0, [], 0, l.burst);
    DrainLevel(l, Full(l, 0), 0, l.burst);
  }

  /** `n` calls, one longest duration apart, after the instant `p` longest durations. */
  function Spread(p: nat, n: nat): seq<int> {
    seq(n, i => (p + 1 + i) * MAX_DURATION)
  }

  /** If a longest duration earns less than a token, a call in each of them earns them all. */
  lemma {:induction false} SlowClimb(l: Limit, j: nat, p: nat, n: nat)
    requires ValidLimit(l) && Gain(l, (j + n) * MAX_DURATION) < 1.0
    ensures RunFrom(l, Tokens(Gain(l, j * MAX_DURATION), p * MAX_DURATION), Spread(p, n))
            == Tokens(Gain(l, (j + n) * MAX_DURATION), (p + n) * MAX_DURATION)
    decreases n
  {
    if n > 0 {
      ClimbStep(l, j, p * MAX_DURATION, (p + 1) * MAX_DURATION);
      GainMonotone(l, (j + 1) * MAX_DURATION, (j + n) * MAX_DURATION);
      SlowClimb(l, j + 1, p + 1, n - 1);
      assert Spread(p, n)[0] == (p + 1) * MAX_DURATION && Spread(p, n)[1..] == Spread(p + 1, n - 1);
    }
  }

  /** Whatever the gap, if at least the longest duration, a call earns one such duration. */
  lemma {:induction false} ClimbStep(l: Limit, j: nat, last: int, now: int)
    requires ValidLimit(l) && last + MAX_DURATION <= now
    ensures var (b, allowed) := AllowAt(l, Tokens(Gain(l, j * MAX_DURATION), last), now);
            if Gain(l, (j + 1) * MAX_DURATION) < 1.0 then !allowed && b == Tokens(Gain(l, (j + 1) * MAX_DURATION), now)
            else allowed
  {
    GainAdds(l, j * MAX_DURATION, MAX_DURATION);
  }

  /** One rejected call in each longest duration; without the first one, a duration is lost. */
  lemma {:induction false} SlowDropShows(l: Limit) returns (pre: seq<int>, t: int, post: seq<int>, now: int)
    requires ValidLimit(l) && Gain(l, MAX_DURATION) < 1.0
    ensures RejectedAt(l, 0, pre, t, post, now) && !Invisible(l, 0, pre, t, post, now)
  {
    var enough := TokenTime(l);
    var k := LastBelowToken(l, MAX_DURATION, 1, enough);
    pre, t, post, now := Repeat(0, l.burst), MAX_DURATION, Spread(1, k - 1), (k + 1) * MAX_DURATION;
    DrainedAtZero(l);
    KeepingClimbs(l, pre, k);
    DroppingLags(l, pre, k);
  }

  lemma {:induction false} KeepingClimbs(l: Limit, pre: seq<int>, k: nat)
    requires ValidLimit(l) && Run(l, 0, pre) == Tokens(0.0, 0) && k >= 1
    requires Gain(l, k * MAX_DURATION) < 1.0 <= Gain(l, (k + 1) * MAX_DURATION)
    ensures !Allowed(l, 0, pre, MAX_DURATION)
    ensures Allowed(l, 0, pre + [MAX_DURATION] + Spread(1, k - 1), (k + 1) * MAX_DURATION)
  {
    GainMonotone(l, 0, 0);
    GainMonotone(l, MAX_DURATION, k * MAX_DURATION);
    assert (pre + [MAX_DURATION])[..|pre|] == pre;
    ClimbStep(l, 0, 0, MAX_DURATION);
    RunConcat(l, 0, pre + [MAX_DURATION], Spread(1, k - 1));
    SlowClimb(l, 1, 1, k - 1);
    ClimbStep(l, k, k * MAX_DURATION, (k + 1) * MAX_DURATION);
  }

  lemma {:induction false} DroppingLags(l: Limit, pre: seq<int>, k: nat)
    requires ValidLimit(l) && Run(l, 0, pre) == Tokens(0.0, 0) && k >= 1
    requires Gain(l, k * MAX_DURATION) < 1.0
    ensures !Allowed(l, 0, pre + Spread(1, k - 1), (k + 1) * MAX_DURATION)
  {
    GainMonotone(l, 0, 0);
    RunConcat(l, 0, pre, Spread(1, k - 1));
    if k == 1 {
      ClimbStep(l, 0, 0, 2 * MAX_DURATION);
    } else {
      GainMonotone(l, MAX_DURATION, k * MAX_DURATION);
      GainMonotone(l, (k - 1) * MAX_DURATION, k * MAX_DURATION);
      ClimbStep(l, 0, 0, 2 * MAX_DURATION);
      assert Spread(1, k - 1)[0] == 2 * MAX_DURATION && Spread(1, k - 1)[1..] == Spread(2, k - 2);
      SlowClimb(l, 1, 2, k - 2);
      ClimbStep(l, k - 1, k * MAX_DURATION, (k + 1) * MAX_DURATION);
    }
  }

  lemma {:induction false} NanosecondEarnsLess(l: Limit)
    requires ValidLimit(l) && l.burst <= MAX_DURATION && Gain(l, MAX_DURATION) < l.burst as real
    ensures Gain(l, 1) < 1.0
  {
    var r, m := l.rate, MAX_DURATION as real;
    assert Gain(l, MAX_DURATION) == m * Gain(l, 1);
    if Gain(l, 1) >= 1.0 {
      Product(1.0, Gain(l, 1), m);
    }
  }

  /** The last instant after a drain at which a call is still refused. */
  lemma {:induction false} LastRefusal(l: Limit) returns (k: nat)
    requires ValidLimit(l) && l.burst <= MAX_DURATION && 1.0 <= Gain(l, MAX_DURATION) < l.burst as real
    ensures 0 < k < MAX_DURATION && 0.0 < Gain(l, 1) <= Gain(l, k) < 1.0 <= Gain(l, k) + Gain(l, 1)
  {
    NanosecondEarnsLess(l);
    k := LastBelowToken(l, 1, 1, MAX_DURATION);
    assert k < MAX_DURATION by {
      if k >= MAX_DURATION {
        GainMonotone(l, MAX_DURATION, k);
      }
    }
    GainMonotone(l, 1, k);
    GainPositive(l, 1);
    GainAdds(l, k, 1);
  }

  /** The two levels answer differently, at once or a nanosecond later. */
  lemma {:induction false} LevelsDiffer(l: Limit, kept: real, dropped: real, at: int) returns (now: int)
    requires ValidLimit(l) && 0.0 <= dropped < 1.0 && kept <= l.burst as real
    requires kept < 1.0 ==> dropped + Gain(l, 1) < 1.0 <= kept + Gain(l, 1)
    ensures at <= now <= at + 1
    ensures AllowAt(l, Tokens(kept, at), now).1 && !AllowAt(l, Tokens(dropped, at), now).1
  {
    now := if kept >= 1.0 then at else at + 1;
  }

  lemma {:induction false} LateTimed(n: nat, k: nat, q: nat, now: int)
    requires k + MAX_DURATION <= now
    ensures Timed(0, Repeat(0, n) + [k] + (Repeat(k + MAX_DURATION, q) + [now]))
  {
  }

  /** A rejected call as late as possible, then a burst one longest duration after it. */
  lemma {:induction false} FastDropShows(l: Limit) returns (pre: seq<int>, t: int, post: seq<int>, now: int)
    requires ValidLimit(l) && l.burst <= MAX_DURATION && 1.0 <= Gain(l, MAX_DURATION) < l.burst as real
    ensures RejectedAt(l, 0, pre, t, post, now) && !Invisible(l, 0, pre, t, post, now)
  {
    var k := LastRefusal(l);
    var q := WholePart(Gain(l, MAX_DURATION));
    pre, t, post := Repeat(0, l.burst), k, Repeat(k + MAX_DURATION, q);
    DrainedAtZero(l);
    var kept := KeptLevel(l, pre, k, q);
    var dropped := DroppedLevel(l, pre, k, q);
    LateLevels(l.burst, q, Gain(l, MAX_DURATION), Gain(l, k), Gain(l, 1));
    now := LevelsDiffer(l, kept, dropped, k + MAX_DURATION);
    LateTimed(l.burst, k, q, now);
  }

  lemma {:induction false} WholePart(x: real) returns (q: nat)
    requires x >= 1.0
    ensures 1 <= q && q as real <= x < (q + 1) as real
  {
    q := x.Floor;
  }

  lemma {:induction false} LateLevels(burst: int, q: nat, g: real, late: real, unit: real)
    requires q as real <= g < (q + 1) as real && g < burst as real
    requires 0.0 < unit <= late < 1.0 <= late + unit
    ensures var kept, dropped := Min(burst as real, late + g) - q as real, g - q as real;
            0.0 <= dropped < 1.0 && kept <= burst as real && (kept < 1.0 ==> dropped + unit < 1.0 <= kept + unit)
  {
    assert burst >= q + 1;
  }

  /** The level after the burst, with the rejected call. */
  lemma {:induction false} KeptLevel(l: Limit, pre: seq<int>, t: nat, q: nat) returns (level: real)
    requires ValidLimit(l) && Run(l, 0, pre) == Tokens(0.0, 0) && 0 < t < MAX_DURATION
    requires 0.0 <= Gain(l, t) < 1.0 && 1 <= q && q as real <= Gain(l, MAX_DURATION) < l.burst as real
    requires Gain(l, MAX_DURATION) < (q + 1) as real
    ensures !Allowed(l, 0, pre, t)
    ensures level == Min(l.burst as real, Gain(l, t) + Gain(l, MAX_DURATION)) - q as real
    ensures Run(l, 0, pre + [t] + Repeat(t + MAX_DURATION, q)) == Tokens(level, t + MAX_DURATION)
  {
    assert (pre + [t])[..|pre|] == pre;
    var b := Run(l, 0, pre + [t]);
    assert b == Tokens(Gain(l, t), t);
    RunRepeat(l, 0, pre + [t], t + MAX_DURATION, q);
    DrainLevel(l, b, t + MAX_DURATION, q);
    level := Refill(l, b, t + MAX_DURATION).tokens - q as real;
  }

  /** The level after the burst, without it: the elapsed time saturates. */
  lemma {:induction false} DroppedLevel(l: Limit, pre: seq<int>, t: nat, q: nat) returns (level: real)
    requires ValidLimit(l) && Run(l, 0, pre) == Tokens(0.0, 0) && 0 < t
    requires 1 <= q && q as real <= Gain(l, MAX_DURATION) < l.burst as real
    ensures level == Gain(l, MAX_DURATION) - q as real
    ensures Run(l, 0, pre + Repeat(t + MAX_DURATION, q)) == Tokens(level, t + MAX_DURATION)
  {
    RunRepeat(l, 0, pre, t + MAX_DURATION, q);
    DrainLevel(l, Tokens(0.0, 0), t + MAX_DURATION, q);
    level := Gain(l, MAX_DURATION) - q as real;
  }

  /** Deleting a rejected call from any run changes no later answer, for all runs, exactly when an
      empty bucket refills within the longest duration. The burst is a 64-bit integer. */
  lemma {:induction false} DroppingExactly(l: Limit)
    requires ValidLimit(l) && l.burst <= MAX_DURATION
    ensures Refillable(l) <==>
            forall start, pre, t, post, now | RejectedAt(l, start, pre, t, post, now) ::
              Invisible(l, start, pre, t, post, now)
  {
    if Refillable(l) {
      forall start, pre, t, post, now | RejectedAt(l, start, pre, t, post, now)
        ensures Invisible(l, start, pre, t, post, now)
      {
        DroppingRejectedCall(l, start, pre, t, post, now);
      }
    } else if Gain(l, MAX_DURATION) < 1.0 {
      var pre, t, post, now := SlowDropShows(l);
    } else {
      var pre, t, post, now := FastDropShows(l);
    }
  }

  // ----- Calls in any order

  function Max(a: int, b: int): int {
    if a < b then b else a
  }

  /** The latest instant so far. */
  function Latest(start: int, times: seq<int>): int {
    if times == [] then start else Max(Latest(start, times[..|times| - 1]), times[|times| - 1])
  }

  /** Each instant replaced by the latest so far. */
  function Settled(start: int, times: seq<int>): seq<int> {
    if times == [] then [] else Settled(start, times[..|times| - 1]) + [Latest(start, times)]
  }

  lemma {:induction false} SettledTimed(start: int, times: seq<int>)
    ensures Timed(start, Settled(start, times)) && |Settled(start, times)| == |times|
    ensures forall i | 0 <= i < |times| :: times[i] <= Settled(start, times)[i] <= Latest(start, times)
    ensures start <= Latest(start, times)
  {
    if times != [] {
      SettledTimed(start, times[..|times| - 1]);
    }
  }

  /** A call with an instant earlier than one before it earns and loses nothing: in every run, ordered or
      not, calls are answered as if each came at the latest instant so far. */
  lemma {:induction false} LateCallsCountAsLatest(l: Limit, start: int, times: seq<int>, now: int)
    requires ValidLimit(l)
    ensures Run(l, start, times) == Run(l, start, Settled(start, times))
    ensures Run(l, start, times).lastRefill == Latest(start, times)
    ensures Allowed(l, start, times, now) == Allowed(l, start, Settled(start, times), Max(Latest(start, times), now))
  {
    if times != [] {
      var before := times[..|times| - 1];
      LateCallsCountAsLatest(l, start, before, times[|times| - 1]);
      assert Settled(start, times)[..|times| - 1] == Settled(start, before) by {
        SettledTimed(start, before);
      }
    }
  }

  function AllowedInAll(l: Limit, start: int, times: seq<int>): nat {
    if times == [] then 0
    else
      AllowedInAll(l, start, times[..|times| - 1])
      + if Allowed(l, start, times[..|times| - 1], times[|times| - 1]) then 1 else 0
  }

  lemma {:induction false} AllWithin(l: Limit, start: int, times: seq<int>, until: int)
    requires ValidLimit(l) && Latest(start, times) <= until
    ensures AllowedInAll(l, start, times) == AllowedWithin(l, start, Settled(start, times), start, until)
  {
    if times != [] {
      var before := times[..|times| - 1];
      AllWithin(l, start, before, until);
      LateCallsCountAsLatest(l, start, before, times[|times| - 1]);
      SettledTimed(start, times);
      SettledTimed(start, before);
      assert Settled(start, times)[..|times| - 1] == Settled(start, before);
    }
  }

  /** The rate holds for calls in any order: no clock that jumps back earns a token. */
  lemma {:induction false} AnyOrderBound(l: Limit, start: int, times: seq<int>)
    requires ValidLimit(l)
    ensures AllowedInAll(l, start, times) as real <= l.burst as real + Gain(l, Latest(start, times) - start)
  {
    SettledTimed(start, times);
    AllWithin(l, start, times, Latest(start, times));
    WindowBound(l, start, Settled(start, times), start, Latest(start, times));
  }
}
