/** Whole-run properties of the response cache: agreement with a timestamped map,
    retention of recently used keys, and inclusion between capacities. */
module CacheRuns {
  import opened Options
  import opened HttpValues
  import opened ResponseCache

  datatype Op = Get(key: string, now: int) | Set(key: string, response: Response, now: int)

  function Apply(ttl: int, cap: nat, items: seq<Item>, op: Op): seq<Item> {
    match op
    case Get(key, now) => AfterGet(items, key, now)
    case Set(key, response, now) => AfterSet(ttl, cap, items, key, response, now)
  }

  function Run(ttl: int, cap: nat, ops: seq<Op>): seq<Item> {
    if ops == [] then [] else Apply(ttl, cap, Run(ttl, cap, ops[..|ops| - 1]), ops[|ops| - 1])
  }

  ghost predicate Timed(ops: seq<Op>, until: int) {
    && (forall i, j | 0 <= i < j < |ops| :: ops[i].now <= ops[j].now)
    && (forall i | 0 <= i < |ops| :: ops[i].now <= until)
  }

  // ----- Distinct keys within capacity

  ghost predicate Bounded(cap: nat, items: seq<Item>) {
    DistinctKeys(items) && |items| <= cap
  }

  lemma {:induction false} OthersShrink(items: seq<Item>, key: string)
    requires DistinctKeys(items) && Find(items, key).Some?
    ensures |Keep(items, OtherThan(key))| == |items| - 1
    ensures DistinctKeys(Keep(items, OtherThan(key)))
    ensures forall x | x in Keep(items, OtherThan(key)) :: x.key != key && x in items
  {
    FindCorrect(items, key);
    var i :| 0 <= i < |items| && items[i] == Find(items, key).value;
    KeepOthersAt(items, i);
    KeepDistinct(items, OtherThan(key));
    KeepMembers(items, OtherThan(key));
  }

  lemma {:induction false} FrontDistinct(i: Item, rest: seq<Item>)
    requires DistinctKeys(rest) && forall x | x in rest :: x.key != i.key
    ensures DistinctKeys([i] + rest)
  {
    assert forall j | 0 <= j < |rest| :: rest[j] in rest;
  }

  lemma {:induction false} ApplyBounded(ttl: int, cap: nat, items: seq<Item>, op: Op)
    requires cap > 0 && Bounded(cap, items)
    ensures Bounded(cap, Apply(ttl, cap, items, op))
  {
    FindCorrect(items, op.key);
    if Find(items, op.key).Some? {
      var rest := Keep(items, OtherThan(op.key));
      OthersShrink(items, op.key);
      FrontDistinct(if op.Get? then Find(items, op.key).value else Item(op.key, op.response, op.now + ttl), rest);
    } else if op.Set? {
      KeepDistinct(items, Unexpired(op.now));
      KeepMembers(items, Unexpired(op.now));
      var kept := if |items| >= cap then Keep(items, Unexpired(op.now)) else items;
      FrontDistinct(Item(op.key, op.response, op.now + ttl), kept);
    }
  }

  lemma {:induction false} RunBounded(ttl: int, cap: nat, ops: seq<Op>)
    requires cap > 0
    ensures Bounded(cap, Run(ttl, cap, ops))
  {
    if ops != [] {
      RunBounded(ttl, cap, ops[..|ops| - 1]);
      ApplyBounded(ttl, cap, Run(ttl, cap, ops[..|ops| - 1]), ops[|ops| - 1]);
    }
  }

  // ----- The cache against a timestamped map

  /** The latest Set on `key`: its response and its time. */
  function LastSet(ops: seq<Op>, key: string): Option<(Response, int)> {
    if ops == [] then None
    else
      var op := ops[|ops| - 1];
      if op.Set? && op.key == key then Some((op.response, op.now)) else LastSet(ops[..|ops| - 1], key)
  }

  ghost predicate Agrees(ttl: int, items: seq<Item>, ops: seq<Op>) {
    forall i | i in items :: LastSet(ops, i.key) == Some((i.response, i.expiresAt - ttl))
  }

  lemma {:induction false} ApplyMembers(ttl: int, cap: nat, items: seq<Item>, op: Op)
    requires Bounded(cap, items)
    ensures forall x | x in Apply(ttl, cap, items, op) ::
              (x in items && (op.Set? ==> x.key != op.key))
              || (op.Set? && x == Item(op.key, op.response, op.now + ttl))
  {
    FindCorrect(items, op.key);
    KeepMembers(items, OtherThan(op.key));
    KeepMembers(items, Unexpired(op.now));
  }

  lemma {:induction false} LastSetSnoc(ops: seq<Op>, op: Op, key: string)
    ensures LastSet(ops + [op], key) ==
            if op.Set? && op.key == key then Some((op.response, op.now)) else LastSet(ops, key)
  {
    assert (ops + [op])[..|ops|] == ops;
  }

  lemma {:induction false} ApplyAgrees(ttl: int, cap: nat, items: seq<Item>, ops: seq<Op>, op: Op)
    requires Bounded(cap, items) && Agrees(ttl, items, ops)
    ensures Agrees(ttl, Apply(ttl, cap, items, op), ops + [op])
  {
    ApplyMembers(ttl, cap, items, op);
    forall i | i in Apply(ttl, cap, items, op)
      ensures LastSet(ops + [op], i.key) == Some((i.response, i.expiresAt - ttl))
    {
      LastSetSnoc(ops, op, i.key);
    }
  }

  lemma {:induction false} RunAgrees(ttl: int, cap: nat, ops: seq<Op>)
    requires cap > 0
    ensures Agrees(ttl, Run(ttl, cap, ops), ops)
  {
    if ops != [] {
      var before := ops[..|ops| - 1];
      RunAgrees(ttl, cap, before);
      RunBounded(ttl, cap, before);
      ApplyAgrees(ttl, cap, Run(ttl, cap, before), before, ops[|ops| - 1]);
      assert before + [ops[|ops| - 1]] == ops;
    }
  }

  /** Every hit returns the response of the latest Set on its key, less than TTL after it;
      and whatever the run, the store holds distinct keys within its capacity. */
  lemma {:induction false} HitsAreLatest(ttl: int, cap: nat, ops: seq<Op>, key: string, now: int)
    requires cap > 0
    ensures Bounded(cap, Run(ttl, cap, ops))
    ensures match Lookup(Run(ttl, cap, ops), key, now)
            case None => true
            case Some(r) =>
              var last := LastSet(ops, key);
              last.Some? && r == last.value.0 && now < last.value.1 + ttl
  {
    RunBounded(ttl, cap, ops);
    RunAgrees(ttl, cap, ops);
    FindCorrect(Run(ttl, cap, ops), key);
  }

  // ----- What a cache evicts, and what it keeps

  /** A live entry of another key survives Set, unless the cache was full of live entries and it was
      the least recently used one. */
  lemma {:induction false} EvictsOnlyWhenAllLive(ttl: int, cap: nat, items: seq<Item>, op: Op, x: Item)
    requires cap > 0 && |items| <= cap && op.Set?
    requires x in items && x.key != op.key && op.now < x.expiresAt
    ensures x in Apply(ttl, cap, items, op) ||
            (|items| == cap && x == items[cap - 1] && forall i | 0 <= i < cap :: op.now < items[i].expiresAt)
  {
    var front := Item(op.key, op.response, op.now + ttl);
    if Find(items, op.key).Some? {
      KeepMember(items, OtherThan(op.key), x);
      assert x in [front] + Keep(items, OtherThan(op.key));
    } else {
      InsertEvicts(cap, items, front, op.now, x);
    }
  }

  lemma {:induction false} InsertEvicts(cap: nat, items: seq<Item>, front: Item, now: int, x: Item)
    requires 0 < cap && |items| <= cap && x in items && now < x.expiresAt
    ensures var kept := if |items| >= cap then Keep(items, Unexpired(now)) else items;
            x in (if |kept| + 1 > cap then ([front] + kept)[..|kept|] else [front] + kept)
            || (|items| == cap && x == items[cap - 1] && forall i | 0 <= i < cap :: now < items[i].expiresAt)
  {
    var t := Unexpired(now);
    KeepMember(items, t, x);
    KeepLength(items, t);
    if |items| < cap {
      assert x in [front] + items;
    } else if |Keep(items, t)| < cap {
      assert x in [front] + Keep(items, t);
    } else {
      assert Keep(items, t) == items && |items| == cap;
      AllPass(items, t);
      LastFallsOut(front, items, x);
    }
  }

  lemma {:induction false} KeepMember(items: seq<Item>, t: Test, x: Item)
    requires x in items && Passes(t, x)
    ensures x in Keep(items, t)
  {
    KeepMembers(items, t);
  }

  lemma {:induction false} LastFallsOut(front: Item, kept: seq<Item>, x: Item)
    requires x in kept
    ensures x in ([front] + kept)[..|kept|] || x == kept[|kept| - 1]
  {
    var i :| 0 <= i < |kept| && kept[i] == x;
    if i < |kept| - 1 {
      assert ([front] + kept)[..|kept|][i + 1] == x;
    }
  }

  lemma {:induction false} AllPass(items: seq<Item>, t: Test)
    requires Keep(items, t) == items
    ensures forall i | 0 <= i < |items| :: Passes(t, items[i])
  {
    KeepMembers(items, t);
    assert forall i | 0 <= i < |items| :: items[i] in items;
  }

  lemma KeepLength(items: seq<Item>, t: Test)
    ensures |Keep(items, t)| <= |items|
    ensures |Keep(items, t)| == |items| ==> Keep(items, t) == items
  {
  }

  /** The items in front of `key`. */
  function Before(items: seq<Item>, key: string): seq<Item> {
    if items == [] || items[0].key == key then [] else [items[0]] + Before(items[1..], key)
  }

  ghost function Keys(items: seq<Item>): set<string> {
    set i | 0 <= i < |items| :: items[i].key
  }

  lemma BeforeFacts(items: seq<Item>, key: string)
    ensures var b := Before(items, key);
            && |b| <= |items| && b == items[..|b|]
            && (Find(items, key).Some? <==> |b| < |items|)
            && (|b| < |items| ==> items[|b|] == Find(items, key).value)
  {
  }

  lemma {:induction false} BeforeKeep(items: seq<Item>, key: string, t: Test)
    requires Find(items, key).Some? && Passes(t, Find(items, key).value)
    ensures Before(Keep(items, t), key) == Keep(Before(items, key), t)
    ensures Find(Keep(items, t), key) == Find(items, key)
  {
    if items[0].key != key {
      BeforeKeep(items[1..], key, t);
      assert ([items[0]] + Before(items[1..], key))[1..] == Before(items[1..], key);
      assert Passes(t, items[0]) ==> Keep(items, t)[1..] == Keep(items[1..], t);
    }
  }

  lemma {:induction false} DistinctKeysCount(items: seq<Item>)
    requires DistinctKeys(items)
    ensures |Keys(items)| == |items|
  {
    if items != [] {
      DistinctKeysCount(items[1..]);
      assert Keys(items) == Keys(items[1..]) + {items[0].key};
    }
  }

  lemma {:induction false} KeysKeep(items: seq<Item>, t: Test)
    ensures Keys(Keep(items, t)) <= Keys(items)
  {
    KeepMembers(items, t);
    forall k | k in Keys(Keep(items, t))
      ensures k in Keys(items)
    {
      var i :| 0 <= i < |Keep(items, t)| && Keep(items, t)[i].key == k;
      assert Keep(items, t)[i] in items;
    }
  }

  /** Whether `op` stores its key or hits it. */
  predicate Touches(items: seq<Item>, op: Op) {
    op.Set? || Lookup(items, op.key, op.now).Some?
  }

  /** The other keys stored or hit by the operations from index `m` up to index `k`. */
  ghost function TouchedBetween(ttl: int, cap: nat, ops: seq<Op>, m: nat, k: nat, key: string): set<string>
    requires m <= k <= |ops|
    decreases k
  {
    if k == m then {}
    else TouchedBetween(ttl, cap, ops, m, k - 1, key) + OtherTouched(Run(ttl, cap, ops[..k - 1]), ops[k - 1], key)
  }

  ghost function OtherTouched(items: seq<Item>, op: Op, key: string): set<string> {
    if Touches(items, op) && op.key != key then {op.key} else {}
  }

  /** `i` is stored, and only keys from `touched` stand in front of it. */
  ghost predicate Retained(items: seq<Item>, i: Item, touched: set<string>) {
    Find(items, i.key) == Some(i) && Keys(Before(items, i.key)) <= touched
  }

  lemma {:induction false} FrontRetained(items: seq<Item>, i: Item, touched: set<string>, t: Test, front: Item)
    requires Retained(items, i, touched) && Passes(t, i) && front.key != i.key
    ensures Retained(Keep(items, t), i, touched)
    ensures Retained([front] + Keep(items, t), i, touched + {front.key})
  {
    var kept := Keep(items, t);
    BeforeKeep(items, i.key, t);
    KeysKeep(Before(items, i.key), t);
    PushRetained(kept, i, touched, front);
  }

  lemma {:induction false} PushRetained(items: seq<Item>, i: Item, touched: set<string>, front: Item)
    requires Retained(items, i, touched) && front.key != i.key
    ensures Retained([front] + items, i, touched + {front.key})
  {
    assert ([front] + items)[1..] == items;
    var b := Before(items, i.key);
    assert Before([front] + items, i.key) == [front] + b;
    forall k | k in Keys([front] + b)
      ensures k in touched + {front.key}
    {
      var j :| 0 <= j < |b| + 1 && ([front] + b)[j].key == k;
      if j > 0 {
        assert b[j - 1].key in Keys(b);
      }
    }
  }

  /** Dropping the last item cannot hurt a key with fewer items in front of it. */
  lemma {:induction false} TrimRetained(items: seq<Item>, i: Item, touched: set<string>)
    requires Retained(items, i, touched) && DistinctKeys(items) && |touched| < |items| - 1
    ensures Retained(items[..|items| - 1], i, touched)
  {
    var b := Before(items, i.key);
    BeforeFacts(items, i.key);
    DistinctKeysCount(b);
    SubsetSize(Keys(b), touched);
    TrimFind(items, i.key, |items| - 1);
  }

  lemma {:induction false} SubsetSize(a: set<string>, b: set<string>)
    requires a <= b
    ensures |a| <= |b|
  {
    if a != {} {
      var x :| x in a;
      SubsetSize(a - {x}, b - {x});
    }
  }

  lemma {:induction false} TrimFind(items: seq<Item>, key: string, n: nat)
    requires |Before(items, key)| < n <= |items|
    ensures Before(items[..n], key) == Before(items, key) && Find(items[..n], key) == Find(items, key)
  {
    if items[0].key != key {
      TrimFind(items[1..], key, n - 1);
      assert items[..n][1..] == items[1..][..n - 1];
    }
  }

  lemma {:induction false} ApplyRetains(ttl: int, cap: nat, items: seq<Item>, op: Op, i: Item, touched: set<string>)
    requires cap > 0 && Bounded(cap, items) && Retained(items, i, touched)
    requires Spares(op, i)
    requires |touched + OtherTouched(items, op, i.key)| < cap
    ensures Retained(Apply(ttl, cap, items, op), i, touched + OtherTouched(items, op, i.key))
  {
    var items' := Apply(ttl, cap, items, op);
    if op.key == i.key {
      assert items' == [i] + Keep(items, OtherThan(op.key));
    } else if op.Get? {
      var found := Find(items, op.key);
      if found.Some? {
        FindCorrect(items, op.key);
        FrontRetained(items, i, touched, OtherThan(op.key), found.value);
        assert [] + Keep(items, OtherThan(op.key)) == Keep(items, OtherThan(op.key));
      }
    } else {
      var front := Item(op.key, op.response, op.now + ttl);
      if Find(items, op.key).Some? {
        FrontRetained(items, i, touched, OtherThan(op.key), front);
      } else {
        InsertRetains(ttl, cap, items, op, i, touched);
      }
    }
  }

  lemma {:induction false} InsertRetains(ttl: int, cap: nat, items: seq<Item>, op: Op, i: Item, touched: set<string>)
    requires cap > 0 && Bounded(cap, items) && Retained(items, i, touched)
    requires op.Set? && Find(items, op.key).None? && op.now < i.expiresAt && |touched + {op.key}| < cap
    ensures Retained(Apply(ttl, cap, items, op), i, touched + {op.key})
  {
    var t, front := Unexpired(op.now), Item(op.key, op.response, op.now + ttl);
    FindCorrect(items, op.key);
    if |items| < cap {
      PushRetained(items, i, touched, front);
    } else {
      var kept := Keep(items, t);
      FrontRetained(items, i, touched, t, front);
      KeepDistinct(items, t);
      KeepMembers(items, t);
      FrontDistinct(front, kept);
      if |kept| + 1 > cap {
        TrimRetained([front] + kept, i, touched + {op.key});
      }
    }
  }

  /** Harmless for `i`: in time, and not a Set of its key. */
  predicate Spares(op: Op, i: Item) {
    op.now < i.expiresAt && (op.key == i.key ==> op.Get?)
  }

  lemma {:induction false} RunPrefix(ttl: int, cap: nat, ops: seq<Op>, k: nat)
    requires 0 < k <= |ops|
    ensures Run(ttl, cap, ops[..k]) == Apply(ttl, cap, Run(ttl, cap, ops[..k - 1]), ops[k - 1])
  {
    assert ops[..k][..k - 1] == ops[..k - 1];
  }

  lemma {:induction false} RunRetains(ttl: int, cap: nat, ops: seq<Op>, m: nat, k: nat, i: Item)
    requires cap > 0 && m <= k <= |ops|
    requires Retained(Run(ttl, cap, ops[..m]), i, {})
    requires forall j | m <= j < k :: Spares(ops[j], i)
    requires |TouchedBetween(ttl, cap, ops, m, k, i.key)| < cap
    ensures Retained(Run(ttl, cap, ops[..k]), i, TouchedBetween(ttl, cap, ops, m, k, i.key))
    decreases k
  {
    if m < k {
      var items, touched := Run(ttl, cap, ops[..k - 1]), TouchedBetween(ttl, cap, ops, m, k - 1, i.key);
      var touched' := touched + OtherTouched(items, ops[k - 1], i.key);
      assert TouchedBetween(ttl, cap, ops, m, k, i.key) == touched';
      SubsetSize(touched, touched');
      RunRetains(ttl, cap, ops, m, k - 1, i);
      assert Retained(Apply(ttl, cap, items, ops[k - 1]), i, touched') by {
        RunBounded(ttl, cap, ops[..k - 1]);
        ApplyRetains(ttl, cap, items, ops[k - 1], i, touched);
      }
      RunPrefix(ttl, cap, ops, k);
    }
  }

  /** The key an operation stores or hits is in front, with the data of its latest Set. */
  lemma {:induction false} TouchedIsFront(ttl: int, cap: nat, ops: seq<Op>, m: nat)
    requires cap > 0 && m < |ops| && Touches(Run(ttl, cap, ops[..m]), ops[m])
    ensures var items := Run(ttl, cap, ops[..m + 1]);
            && items != [] && items[0].key == ops[m].key && Retained(items, items[0], {})
            && LastSet(ops[..m + 1], ops[m].key) == Some((items[0].response, items[0].expiresAt - ttl))
  {
    var upTo := ops[..m + 1];
    var items := Run(ttl, cap, upTo);
    RunPrefix(ttl, cap, ops, m + 1);
    ApplyFront(ttl, cap, Run(ttl, cap, ops[..m]), ops[m]);
    assert LastSet(upTo, items[0].key) == Some((items[0].response, items[0].expiresAt - ttl)) by {
      RunAgrees(ttl, cap, upTo);
      assert items[0] in items;
    }
  }

  lemma {:induction false} ApplyFront(ttl: int, cap: nat, items: seq<Item>, op: Op)
    requires cap > 0 && Touches(items, op)
    ensures var items' := Apply(ttl, cap, items, op);
            items' != [] && items'[0].key == op.key && Retained(items', items'[0], {})
  {
    FindCorrect(items, op.key);
  }

  /** LRU retention. The operation `ops[m]` stores or hits `key`. If no later operation stores the
      key again, fewer than `cap` other keys are stored or hit after it, and the latest Set on the key
      is younger than the TTL, then Get hits and returns that Set's response. */
  lemma {:induction false} LruRetention(ttl: int, cap: nat, ops: seq<Op>, m: nat, key: string, now: int)
    requires cap > 0 && m < |ops|
    requires ops[m].key == key && Touches(Run(ttl, cap, ops[..m]), ops[m])
    requires forall j | m < j < |ops| :: ops[j].now <= now && (ops[j].key == key ==> ops[j].Get?)
    requires |TouchedBetween(ttl, cap, ops, m + 1, |ops|, key)| < cap
    requires LastSet(ops[..m + 1], key).Some? && now < LastSet(ops[..m + 1], key).value.1 + ttl
    ensures Lookup(Run(ttl, cap, ops), key, now) == Some(LastSet(ops[..m + 1], key).value.0)
  {
    TouchedIsFront(ttl, cap, ops, m);
    var i := Run(ttl, cap, ops[..m + 1])[0];
    assert i.key == key && now < i.expiresAt;
    RunRetains(ttl, cap, ops, m + 1, |ops|, i);
    assert ops[..|ops|] == ops;
  }

  // ----- Inclusion between capacities

  /** `a` is a subsequence of `b`. */
  ghost predicate Sub(a: seq<Item>, b: seq<Item>) {
    a == [] || (b != [] && ((a[0] == b[0] && Sub(a[1..], b[1..])) || Sub(a, b[1..])))
  }

  lemma {:induction false} SubFront(x: Item, a: seq<Item>, b: seq<Item>)
    requires Sub(a, b)
    ensures Sub([x] + a, [x] + b)
  {
    assert ([x] + a)[1..] == a && ([x] + b)[1..] == b;
  }

  lemma {:induction false} SubMembers(a: seq<Item>, b: seq<Item>)
    requires Sub(a, b)
    ensures |a| <= |b| && forall x | x in a :: x in b
  {
    if a != [] {
      if a[0] == b[0] && Sub(a[1..], b[1..]) {
        SubMembers(a[1..], b[1..]);
        assert a == [a[0]] + a[1..];
      } else {
        SubMembers(a, b[1..]);
      }
    }
  }

  /** Filtering keeps a subsequence and never widens the gap. */
  lemma {:induction false} SubKeep(a: seq<Item>, b: seq<Item>, t: Test)
    requires Sub(a, b)
    ensures Sub(Keep(a, t), Keep(b, t)) && |Keep(b, t)| - |Keep(a, t)| <= |b| - |a|
  {
    if a == [] {
      KeepLength(b, t);
    } else if a[0] == b[0] && Sub(a[1..], b[1..]) {
      SubKeep(a[1..], b[1..], t);
      if Passes(t, a[0]) {
        SubFront(a[0], Keep(a[1..], t), Keep(b[1..], t));
      }
    } else {
      SubKeep(a, b[1..], t);
      if Passes(t, b[0]) && Keep(a, t) != [] {
        assert ([b[0]] + Keep(b[1..], t))[1..] == Keep(b[1..], t);
      }
    }
  }

  lemma {:induction false} SubTrimLeft(a: seq<Item>, b: seq<Item>)
    requires Sub(a, b) && a != []
    ensures Sub(a[..|a| - 1], b)
  {
    if |a| > 1 {
      if a[0] == b[0] && Sub(a[1..], b[1..]) {
        SubTrimLeft(a[1..], b[1..]);
        assert a[..|a| - 1][1..] == a[1..][..|a| - 2];
      } else {
        SubTrimLeft(a, b[1..]);
      }
    }
  }

  /** Dropping the last item of both lists keeps the order embedding. */
  lemma {:induction false} SubTrimBoth(a: seq<Item>, b: seq<Item>)
    requires Sub(a, b) && a != []
    ensures b != [] && Sub(a[..|a| - 1], b[..|b| - 1])
  {
    SubMembers(a, b);
    if |a| > 1 {
      if a[0] == b[0] && Sub(a[1..], b[1..]) {
        SubTrimBoth(a[1..], b[1..]);
        assert a[..|a| - 1][1..] == a[1..][..|a| - 2];
        assert b[..|b| - 1][1..] == b[1..][..|b| - 2];
      } else {
        SubTrimBoth(a, b[1..]);
        SubMembers(a, b[1..]);
        assert b[..|b| - 1][1..] == b[1..][..|b| - 2];
      }
    }
  }

  function LiveItems(items: seq<Item>, now: int): seq<Item> {
    Keep(items, Unexpired(now))
  }

  /** The live items of the small cache embed in order into those of the big one, which
      has at most `big - small` live items more. */
  ghost predicate Included(small: nat, a: seq<Item>, big: nat, b: seq<Item>, now: int) {
    var la, lb := LiveItems(a, now), LiveItems(b, now);
    Sub(la, lb) && |lb| - |la| <= big - small
  }

  lemma KeepLater(a: seq<Item>, now: int, later: int)
    requires now <= later
    ensures Keep(Keep(a, Unexpired(now)), Unexpired(later)) == Keep(a, Unexpired(later))
  {
  }

  /** Time passing expires at least as many extras as it expires shared items. */
  lemma {:induction false} IncludedLater(small: nat, a: seq<Item>, big: nat, b: seq<Item>, now: int, later: int)
    requires now <= later && Included(small, a, big, b, now)
    ensures Included(small, a, big, b, later)
  {
    KeepLater(a, now, later);
    KeepLater(b, now, later);
    SubKeep(LiveItems(a, now), LiveItems(b, now), Unexpired(later));
  }

  lemma {:induction false} KeepFront(x: Item, rest: seq<Item>, t: Test)
    ensures Keep([x] + rest, t) == (if Passes(t, x) then [x] else []) + Keep(rest, t)
  {
    assert ([x] + rest)[1..] == rest;
  }

  lemma {:induction false} FindLive(items: seq<Item>, key: string, now: int)
    requires DistinctKeys(items)
    ensures Find(LiveItems(items, now), key) ==
            match Find(items, key) { case Some(i) => if now < i.expiresAt then Some(i) else None case None => None }
  {
    KeepMembers(items, Unexpired(now));
    KeepDistinct(items, Unexpired(now));
    FindCorrect(items, key);
    FindCorrect(LiveItems(items, now), key);
  }

  /** On live items Get is a pure move to the front. */
  lemma {:induction false} LiveAfterGet(items: seq<Item>, key: string, now: int)
    requires DistinctKeys(items)
    ensures var live := LiveItems(items, now);
            LiveItems(AfterGet(items, key, now), now) ==
            (match Find(live, key) case Some(i) => [i] case None => []) + Keep(live, OtherThan(key))
  {
    var live := LiveItems(items, now);
    FindLive(items, key, now);
    KeepCommutes(items, OtherThan(key), Unexpired(now));
    var found := Find(items, key);
    if found.Some? {
      KeepFront(found.value, Keep(items, OtherThan(key)), Unexpired(now));
      assert [] + Keep(items, OtherThan(key)) == Keep(items, OtherThan(key));
    } else {
      FindCorrect(live, key);
      KeepAll(live, OtherThan(key));
      assert [] + live == live;
    }
  }

  ghost predicate Evicts(cap: nat, items: seq<Item>, key: string, now: int) {
    Find(items, key).None? && |LiveItems(items, now)| == cap
  }

  /** On live items Set is a push in front, and the last item falls out exactly when the key
      was absent and the cache full of live items. */
  lemma {:induction false} LiveAfterSet(ttl: int, cap: nat, items: seq<Item>, key: string, response: Response, now: int)
    requires ttl > 0 && cap > 0 && Bounded(cap, items)
    ensures var pushed := [Item(key, response, now + ttl)] + Keep(LiveItems(items, now), OtherThan(key));
            LiveItems(AfterSet(ttl, cap, items, key, response, now), now) ==
            if Evicts(cap, items, key, now) then pushed[..|pushed| - 1] else pushed
  {
    var front := Item(key, response, now + ttl);
    if Find(items, key).Some? {
      KeepCommutes(items, OtherThan(key), Unexpired(now));
      KeepFront(front, Keep(items, OtherThan(key)), Unexpired(now));
    } else {
      OthersLive(items, key, now);
      LiveAfterInsert(cap, items, front, now);
    }
  }

  lemma {:induction false} LiveAfterInsert(cap: nat, items: seq<Item>, front: Item, now: int)
    requires |items| <= cap && now < front.expiresAt
    ensures var t := Unexpired(now);
            var live := Keep(items, t);
            var kept := if |items| >= cap then live else items;
            if |live| == cap then |kept| == cap && Keep(([front] + kept)[..cap], t) == ([front] + live)[..cap]
            else |kept| < cap && Keep([front] + kept, t) == [front] + live
  {
    var t := Unexpired(now);
    var live := Keep(items, t);
    KeepLength(items, t);
    KeepLater(items, now, now);
    KeepFront(front, live, t);
    KeepFront(front, items, t);
    if |live| == cap {
      AllPass(items, t);
      var trimmed := ([front] + live)[..cap];
      assert forall i | 0 <= i < cap :: trimmed[i] == if i == 0 then front else items[i - 1];
      KeepAll(trimmed, t);
    }
  }

  lemma {:induction false} GetIncluded(small: nat, a: seq<Item>, big: nat, b: seq<Item>, key: string, now: int)
    requires Bounded(small, a) && Bounded(big, b) && Included(small, a, big, b, now)
    ensures Included(small, AfterGet(a, key, now), big, AfterGet(b, key, now), now)
    ensures Lookup(a, key, now).Some? ==> Lookup(b, key, now) == Lookup(a, key, now)
  {
    var la, lb := LiveItems(a, now), LiveItems(b, now);
    LiveAfterGet(a, key, now);
    LiveAfterGet(b, key, now);
    FindLive(a, key, now);
    FindLive(b, key, now);
    KeepDistinct(a, Unexpired(now));
    KeepDistinct(b, Unexpired(now));
    PromoteIncluded(la, lb, key);
  }

  /** Moving the key to the front, where it is present, keeps one list embedded in the other. */
  lemma {:induction false} PromoteIncluded(a: seq<Item>, b: seq<Item>, key: string)
    requires Sub(a, b) && DistinctKeys(a) && DistinctKeys(b)
    ensures var a' := (match Find(a, key) case Some(i) => [i] case None => []) + Keep(a, OtherThan(key));
            var b' := (match Find(b, key) case Some(i) => [i] case None => []) + Keep(b, OtherThan(key));
            Sub(a', b') && |b'| - |a'| <= |b| - |a|
    ensures Find(a, key).Some? ==> Find(b, key) == Find(a, key)
  {
    var ra, rb := Keep(a, OtherThan(key)), Keep(b, OtherThan(key));
    SubKeep(a, b, OtherThan(key));
    SubMembers(a, b);
    FindCorrect(a, key);
    FindCorrect(b, key);
    if Find(a, key).Some? {
      SubFront(Find(a, key).value, ra, rb);
    } else {
      KeepAll(a, OtherThan(key));
      assert [] + ra == ra == a && [] + rb == rb;
      if Find(b, key).Some? {
        OthersShrink(b, key);
        var front := Find(b, key).value;
        assert ([front] + rb)[1..] == rb;
      }
    }
  }

  lemma {:induction false} SetIncluded(ttl: int, small: nat, a: seq<Item>, big: nat, b: seq<Item>,
                                       key: string, response: Response, now: int)
    requires ttl > 0 && 0 < small <= big
    requires Bounded(small, a) && Bounded(big, b) && Included(small, a, big, b, now)
    ensures Included(small, AfterSet(ttl, small, a, key, response, now),
                     big, AfterSet(ttl, big, b, key, response, now), now)
  {
    var la, lb := LiveItems(a, now), LiveItems(b, now);
    var ra, rb := Keep(la, OtherThan(key)), Keep(lb, OtherThan(key));
    var front := Item(key, response, now + ttl);
    LiveAfterSet(ttl, small, a, key, response, now);
    LiveAfterSet(ttl, big, b, key, response, now);
    SubKeep(la, lb, OtherThan(key));
    SubFront(front, ra, rb);
    EvictionsNest(small, a, big, b, key, now);
    if Evicts(small, a, key, now) {
      if Evicts(big, b, key, now) {
        SubTrimBoth([front] + ra, [front] + rb);
      } else {
        SubTrimLeft([front] + ra, [front] + rb);
      }
    }
  }

  /** The big cache evicts a live item only when the small one does; and when only the small one
      does, the big one has room to spare. */
  lemma {:induction false} EvictionsNest(small: nat, a: seq<Item>, big: nat, b: seq<Item>, key: string, now: int)
    requires 0 < small <= big
    requires Bounded(small, a) && Bounded(big, b) && Included(small, a, big, b, now)
    ensures Evicts(big, b, key, now) ==> Evicts(small, a, key, now)
    ensures Evicts(small, a, key, now) ==> Keep(LiveItems(a, now), OtherThan(key)) == LiveItems(a, now)
    ensures Evicts(big, b, key, now) ==> Keep(LiveItems(b, now), OtherThan(key)) == LiveItems(b, now)
    ensures !Evicts(big, b, key, now) ==> |Keep(LiveItems(b, now), OtherThan(key))| < big
  {
    var la, lb := LiveItems(a, now), LiveItems(b, now);
    OthersLive(a, key, now);
    OthersLive(b, key, now);
    KeepLength(a, Unexpired(now));
    KeepLength(b, Unexpired(now));
    if Evicts(big, b, key, now) && Find(a, key).Some? {
      FindLive(a, key, now);
      FindLive(b, key, now);
      FindCorrect(a, key);
      FindCorrect(la, key);
      FindCorrect(lb, key);
      SubMembers(la, lb);
      KeepMembers(a, Unexpired(now));
    }
  }

  lemma {:induction false} OthersLive(items: seq<Item>, key: string, now: int)
    requires DistinctKeys(items)
    ensures var rest := Keep(LiveItems(items, now), OtherThan(key));
            if Find(items, key).None? then rest == LiveItems(items, now) else |rest| < |items|
  {
    var live := LiveItems(items, now);
    FindLive(items, key, now);
    FindCorrect(live, key);
    KeepLength(items, Unexpired(now));
    if Find(live, key).Some? {
      KeepDistinct(items, Unexpired(now));
      OthersShrink(live, key);
    } else {
      KeepAll(live, OtherThan(key));
      if Find(items, key).Some? {
        FindCorrect(items, key);
        KeepMembers(items, Unexpired(now));
      }
    }
  }

  lemma {:induction false} RunIncluded(ttl: int, small: nat, big: nat, ops: seq<Op>, now: int)
    requires ttl > 0 && 0 < small <= big && Timed(ops, now)
    ensures Included(small, Run(ttl, small, ops), big, Run(ttl, big, ops), now)
  {
    if ops != [] {
      var before, op := ops[..|ops| - 1], ops[|ops| - 1];
      var a, b := Run(ttl, small, before), Run(ttl, big, before);
      RunIncluded(ttl, small, big, before, op.now);
      RunBounded(ttl, small, before);
      RunBounded(ttl, big, before);
      match op {
        case Get(key, t) => GetIncluded(small, a, big, b, key, t);
        case Set(key, response, t) => SetIncluded(ttl, small, a, big, b, key, response, t);
      }
      IncludedLater(small, Run(ttl, small, ops), big, Run(ttl, big, ops), op.now, now);
    }
  }

  /** LRU inclusion with TTL: for the same run under a nondecreasing clock, whatever hits with
      one capacity hits, with the same response, with any larger capacity. */
  lemma {:induction false} LruInclusion(ttl: int, small: nat, big: nat, ops: seq<Op>, key: string, now: int)
    requires ttl > 0 && 0 < small <= big && Timed(ops, now)
    ensures Lookup(Run(ttl, small, ops), key, now).Some?
            ==> Lookup(Run(ttl, big, ops), key, now) == Lookup(Run(ttl, small, ops), key, now)
  {
    RunIncluded(ttl, small, big, ops, now);
    RunBounded(ttl, small, ops);
    RunBounded(ttl, big, ops);
    GetIncluded(small, Run(ttl, small, ops), big, Run(ttl, big, ops), key, now);
  }
}
