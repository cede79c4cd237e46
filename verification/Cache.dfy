/** HTTP values shared by the response cache and the writer in front of it. */
module HttpValues {
  newtype byte = x: int | 0 <= x < 256

  type Header = map<string, seq<string>>

  /** The replayable portion of an upstream response. */
  datatype Response = Response(status: int, header: Header, body: seq<byte>)
}

/** The TTL/LRU response cache of internal/cache/cache.go.

    The specification works on one list of items, most recently used first. Class
    `Cache` keeps the map and the recency list of the source and is proved to follow it. */
module ResponseCache {
  import opened Options
  import opened HttpValues

  datatype Item = Item(key: string, response: Response, expiresAt: int)

  /** First-order tests for filtering item lists. */
  datatype Test = Unexpired(now: int) | OtherThan(key: string)

  predicate Passes(t: Test, i: Item) {
    match t
    case Unexpired(now) => now < i.expiresAt
    case OtherThan(key) => i.key != key
  }

  function Keep(items: seq<Item>, t: Test): seq<Item> {
    if items == [] then []
    else if Passes(t, items[0]) then [items[0]] + Keep(items[1..], t)
    else Keep(items[1..], t)
  }

  function Find(items: seq<Item>, key: string): Option<Item> {
    if items == [] then None
    else if items[0].key == key then Some(items[0])
    else Find(items[1..], key)
  }

  ghost predicate DistinctKeys(items: seq<Item>) {
    forall i, j | 0 <= i < j < |items| :: items[i].key != items[j].key
  }

  function Lookup(items: seq<Item>, key: string, now: int): Option<Response> {
    match Find(items, key)
    case None => None
    case Some(i) => if now < i.expiresAt then Some(i.response) else None
  }

  function AfterGet(items: seq<Item>, key: string, now: int): seq<Item> {
    match Find(items, key)
    case None => items
    case Some(i) => (if now < i.expiresAt then [i] else []) + Keep(items, OtherThan(key))
  }

  function AfterSet(ttl: int, cap: nat, items: seq<Item>, key: string, response: Response, now: int): seq<Item> {
    var entry := Item(key, response, now + ttl);
    if Find(items, key).Some? then [entry] + Keep(items, OtherThan(key))
    else
      var kept := if |items| >= cap then Keep(items, Unexpired(now)) else items;
      if |kept| + 1 > cap then ([entry] + kept)[..|kept|] else [entry] + kept
  }

  // ----- Filtering and finding

  lemma {:induction false} KeepConcat(a: seq<Item>, b: seq<Item>, t: Test)
    ensures Keep(a + b, t) == Keep(a, t) + Keep(b, t)
  {
    if a == [] {
      assert a + b == b;
    } else {
      KeepConcat(a[1..], b, t);
      assert (a + b)[1..] == a[1..] + b;
    }
  }

  lemma KeepAll(a: seq<Item>, t: Test)
    requires forall i | 0 <= i < |a| :: Passes(t, a[i])
    ensures Keep(a, t) == a
  {
  }

  lemma {:induction false} KeepMembers(a: seq<Item>, t: Test)
    ensures forall x :: x in Keep(a, t) <==> x in a && Passes(t, x)
  {
    if a != [] {
      KeepMembers(a[1..], t);
      assert a == [a[0]] + a[1..];
    }
  }

  lemma {:induction false} KeepDistinct(a: seq<Item>, t: Test)
    requires DistinctKeys(a)
    ensures DistinctKeys(Keep(a, t)) && |Keep(a, t)| <= |a|
  {
    if a != [] {
      KeepDistinct(a[1..], t);
      KeepMembers(a[1..], t);
      assert forall i | 0 <= i < |Keep(a[1..], t)| :: Keep(a[1..], t)[i] in a[1..];
    }
  }

  lemma KeepCommutes(a: seq<Item>, t: Test, u: Test)
    ensures Keep(Keep(a, t), u) == Keep(Keep(a, u), t)
  {
  }

  lemma {:induction false} FindCorrect(a: seq<Item>, key: string)
    ensures match Find(a, key)
            case None => forall x | x in a :: x.key != key
            case Some(i) => i in a && i.key == key
    ensures DistinctKeys(a) ==> forall x | x in a && x.key == key :: Find(a, key) == Some(x)
  {
    if a != [] {
      FindCorrect(a[1..], key);
      assert a == [a[0]] + a[1..];
    }
  }

  /** Dropping a key from a list with distinct keys removes exactly its position. */
  lemma {:induction false} KeepOthersAt(a: seq<Item>, i: nat)
    requires i < |a| && DistinctKeys(a)
    ensures Keep(a, OtherThan(a[i].key)) == a[..i] + a[i + 1..]
  {
    var t, front, back := OtherThan(a[i].key), a[..i], a[i + 1..];
    assert a == front + ([a[i]] + back) && ([a[i]] + back)[1..] == back;
    KeepConcat(front, [a[i]] + back, t);
    assert Keep([a[i]] + back, t) == Keep(back, t);
    KeepAll(front, t);
    KeepAll(back, t);
  }

  /** Filtering one item further from the back. */
  lemma {:induction false} KeepFromBack(a: seq<Item>, i: nat, t: Test)
    requires i < |a|
    ensures var rest := Keep(a[i + 1..], t);
            && Keep(a[i..], t) == (if Passes(t, a[i]) then [a[i]] else []) + rest
            && a[..i + 1] + rest == a[..i] + ([a[i]] + rest)
            && Removed(a[..i + 1] + rest, i) == a[..i] + rest
  {
    assert a[i..][1..] == a[i + 1..] && a[..i + 1] == a[..i] + [a[i]];
  }

  // ----- The cache object

  datatype Entry = Entry(response: Response, expiresAt: int)

  datatype CacheError = InvalidTTL | InvalidMaxEntries

  ghost predicate Distinct(keys: seq<string>) {
    forall i, j | 0 <= i < j < |keys| :: keys[i] != keys[j]
  }

  ghost function KeySet(keys: seq<string>): set<string> {
    set k | k in keys
  }

  /** The map and the recency list are in bijection, without duplicates. */
  ghost predicate InStep(entries: map<string, Entry>, recency: seq<string>) {
    Distinct(recency) && KeySet(recency) == entries.Keys
  }

  function Removed<T>(s: seq<T>, i: nat): seq<T>
    requires i < |s|
  {
    s[..i] + s[i + 1..]
  }

  function Moved<T>(s: seq<T>, i: nat): seq<T>
    requires i < |s|
  {
    [s[i]] + Removed(s, i)
  }

  ghost function Listing(entries: map<string, Entry>, recency: seq<string>): (r: seq<Item>)
    requires InStep(entries, recency)
    ensures |r| == |recency| && DistinctKeys(r)
  {
    assert forall i | 0 <= i < |recency| :: recency[i] in KeySet(recency);
    seq(|recency|, i requires 0 <= i < |recency| =>
      Item(recency[i], entries[recency[i]].response, entries[recency[i]].expiresAt))
  }

  lemma {:induction false} KeySetRemoved(s: seq<string>, i: nat)
    requires i < |s| && Distinct(s)
    ensures KeySet(Removed(s, i)) == KeySet(s) - {s[i]} && Distinct(Removed(s, i))
  {
    forall k | k in s && k != s[i]
      ensures k in Removed(s, i)
    {
      var j :| 0 <= j < |s| && s[j] == k;
      assert Removed(s, i)[if j < i then j else j - 1] == k;
    }
  }

  lemma {:induction false} KeySetSize(s: seq<string>)
    requires Distinct(s)
    ensures |KeySet(s)| == |s|
  {
    if s != [] {
      KeySetRemoved(s, 0);
      assert Removed(s, 0) == s[1..];
      KeySetSize(s[1..]);
      assert |KeySet(s)| == |KeySet(s) - {s[0]}| + 1;
    }
  }

  lemma {:induction false} KeySetMoved(s: seq<string>, i: nat)
    requires i < |s| && Distinct(s)
    ensures KeySet(Moved(s, i)) == KeySet(s) && Distinct(Moved(s, i))
  {
    KeySetRemoved(s, i);
    var rest := Removed(s, i);
    assert s[i] !in KeySet(rest);
    assert forall j | 0 <= j < |rest| :: rest[j] in KeySet(rest);
    assert KeySet([s[i]] + rest) == KeySet(rest) + {s[i]};
  }

  lemma {:induction false} MovedInStep(entries: map<string, Entry>, s: seq<string>, i: nat)
    requires InStep(entries, s) && i < |s|
    ensures InStep(entries, Moved(s, i))
    ensures Listing(entries, Moved(s, i)) == Moved(Listing(entries, s), i)
  {
    KeySetMoved(s, i);
  }

  lemma {:induction false} RemovedInStep(entries: map<string, Entry>, s: seq<string>, i: nat)
    requires InStep(entries, s) && i < |s|
    ensures InStep(entries - {s[i]}, Removed(s, i))
    ensures Listing(entries - {s[i]}, Removed(s, i)) == Removed(Listing(entries, s), i)
  {
    KeySetRemoved(s, i);
    assert (entries - {s[i]}).Keys == entries.Keys - {s[i]};
    forall j | 0 <= j < |s| - 1
      ensures Removed(s, i)[j] in entries - {s[i]}
    {
      assert Removed(s, i)[j] in KeySet(Removed(s, i));
    }
  }

  lemma {:induction false} PushedInStep(entries: map<string, Entry>, s: seq<string>, key: string, e: Entry)
    requires InStep(entries, s) && key !in entries
    ensures InStep(entries[key := e], [key] + s)
    ensures Listing(entries[key := e], [key] + s) == [Item(key, e.response, e.expiresAt)] + Listing(entries, s)
  {
    assert forall j | 0 <= j < |s| :: s[j] in KeySet(s);
    assert KeySet([key] + s) == KeySet(s) + {key};
  }

  lemma {:induction false} ReplacedInStep(entries: map<string, Entry>, s: seq<string>, i: nat, e: Entry)
    requires InStep(entries, s) && i < |s|
    ensures InStep(entries[s[i] := e], s)
    ensures Listing(entries[s[i] := e], s) == Listing(entries, s)[i := Item(s[i], e.response, e.expiresAt)]
  {
    assert s[i] in KeySet(s);
  }

  class Cache {
    const ttl: int
    const maxEntries: int
    var entries: map<string, Entry>
    var recency: seq<string>  // most recently used first

    ghost predicate Valid()
      reads this
    {
      InStep(entries, recency) && |recency| <= maxEntries && 0 < ttl && 0 < maxEntries
    }

    ghost function Items(): seq<Item>
      requires InStep(entries, recency)
      reads this
    {
      Listing(entries, recency)
    }

    constructor (ttl: int, maxEntries: int)
      requires ttl > 0 && maxEntries > 0
      ensures Valid() && Items() == [] && this.ttl == ttl && this.maxEntries == maxEntries
    {
      this.ttl, this.maxEntries := ttl, maxEntries;
      entries, recency := map[], [];
    }

    /** The position of a stored key: the list element its entry points to. */
    method Element(key: string) returns (i: nat)
      requires InStep(entries, recency) && key in entries
      ensures i < |recency| && recency[i] == key
      ensures Find(Items(), key) == Some(Items()[i])
      ensures Keep(Items(), OtherThan(key)) == Removed(Items(), i)
    {
      i := 0;
      assert key in KeySet(recency);
      while recency[i] != key
        invariant i < |recency| && key in recency[i..]
        decreases |recency| - i
      {
        i := i + 1;
      }
      FindCorrect(Items(), key);
      assert Items()[i] in Items();
      KeepOthersAt(Items(), i);
    }

    lemma {:induction false} Absent(key: string)
      requires InStep(entries, recency) && key !in entries
      ensures Find(Items(), key) == None
    {
      FindCorrect(Items(), key);
      assert forall i | 0 <= i < |recency| :: recency[i] in KeySet(recency);
    }

    method MoveToFront(i: nat)
      requires InStep(entries, recency) && i < |recency|
      modifies this`recency
      ensures InStep(entries, recency) && |recency| == |old(recency)|
      ensures Items() == Moved(old(Items()), i)
    {
      MovedInStep(entries, recency, i);
      recency := Moved(recency, i);
    }

    method RemoveAt(i: nat)
      requires InStep(entries, recency) && i < |recency|
      modifies this
      ensures InStep(entries, recency) && entries == old(entries) - {old(recency[i])}
      ensures Items() == Removed(old(Items()), i)
    {
      RemovedInStep(entries, recency, i);
      entries := entries - {recency[i]};
      recency := Removed(recency, i);
    }

    method PushFront(key: string, e: Entry)
      requires InStep(entries, recency) && key !in entries
      modifies this
      ensures InStep(entries, recency) && entries == old(entries)[key := e]
      ensures Items() == [Item(key, e.response, e.expiresAt)] + old(Items())
    {
      PushedInStep(entries, recency, key, e);
      entries := entries[key := e];
      recency := [key] + recency;
    }

    method Get(key: string, now: int) returns (r: Option<Response>)
      requires Valid()
      modifies this
      ensures Valid()
      ensures r == Lookup(old(Items()), key, now)
      ensures Items() == AfterGet(old(Items()), key, now)
      ensures entries == if r.Some? then old(entries) else old(entries) - {key}
    {
      if key !in entries {
        Absent(key);
        return None;
      }
      var cached := entries[key];
      var i := Element(key);
      if now >= cached.expiresAt {
        RemoveAt(i);
        return None;
      }
      MoveToFront(i);
      return Some(cached.response);
    }

    /** Removes exactly the expired entries and keeps the order of the others. */
    method RemoveExpired(now: int)
      requires InStep(entries, recency)
      modifies this
      ensures InStep(entries, recency)
      ensures Items() == Keep(old(Items()), Unexpired(now))
    {
      ghost var before := Items();
      var i := |recency|;
      while i > 0
        invariant InStep(entries, recency) && 0 <= i <= |recency| && i <= |before|
        invariant Items() == before[..i] + Keep(before[i..], Unexpired(now))
      {
        i := i - 1;
        KeepFromBack(before, i, Unexpired(now));
        assert Items()[i] == before[i];
        if now >= entries[recency[i]].expiresAt {
          RemoveAt(i);
        }
      }
    }

    method Set(key: string, response: Response, now: int)
      requires Valid()
      modifies this
      ensures Valid()
      ensures Items() == AfterSet(ttl, maxEntries, old(Items()), key, response, now)
      ensures key in old(entries) || |old(entries)| < maxEntries
              ==> entries == old(entries)[key := Entry(response, now + ttl)]
    {
      var e := Entry(response, now + ttl);
      if key in entries {
        var i := Element(key);
        ReplacedInStep(entries, recency, i, e);
        entries := entries[key := e];
        MoveToFront(i);
        return;
      }
      Insert(key, e, now);
    }

    /** Set for a key that is not stored. */
    method Insert(key: string, e: Entry, now: int)
      requires Valid() && key !in entries && e.expiresAt == now + ttl
      modifies this
      ensures Valid()
      ensures Items() == AfterSet(ttl, maxEntries, old(Items()), key, e.response, now)
      ensures |old(entries)| < maxEntries ==> entries == old(entries)[key := e]
    {
      Absent(key);
      MakeRoom(key, now);
      PushFront(key, e);
      KeySetSize(recency);
      if |entries| > maxEntries {
        RemoveAt(|recency| - 1);
      }
    }

    /** Drops the expired entries if the cache is full. */
    method MakeRoom(key: string, now: int)
      requires Valid() && key !in entries
      modifies this
      ensures Valid() && key !in entries
      ensures if |old(entries)| >= maxEntries then Items() == Keep(old(Items()), Unexpired(now))
              else |entries| < maxEntries && entries == old(entries) && Items() == old(Items())
      ensures |old(entries)| == |old(recency)| && |entries| == |recency|
    {
      KeySetSize(recency);
      if |entries| >= maxEntries {
        Absent(key);
        RemoveExpired(now);
        StillAbsent(old(Items()), key, now);
        KeySetSize(recency);
      }
    }

    lemma {:induction false} StillAbsent(before: seq<Item>, key: string, now: int)
      requires InStep(entries, recency) && Items() == Keep(before, Unexpired(now)) && DistinctKeys(before)
      requires Find(before, key) == None
      ensures key !in entries && |recency| <= |before|
    {
      KeepMembers(before, Unexpired(now));
      KeepDistinct(before, Unexpired(now));
      FindCorrect(before, key);
      forall j | 0 <= j < |recency|
        ensures recency[j] != key
      {
        assert Items()[j] in before;
      }
    }
  }

  method New(ttl: int, maxEntries: int) returns (r: Result<Cache, CacheError>)
    ensures ttl <= 0 ==> r == Err(InvalidTTL)
    ensures ttl > 0 && maxEntries <= 0 ==> r == Err(InvalidMaxEntries)
    ensures ttl > 0 && maxEntries > 0
            ==> r.Ok? && fresh(r.value) && r.value.Valid() && r.value.ttl == ttl
                && r.value.maxEntries == maxEntries && r.value.Items() == []
  {
    if ttl <= 0 {
      return Err(InvalidTTL);
    }
    if maxEntries <= 0 {
      return Err(InvalidMaxEntries);
    }
    var c := new Cache(ttl, maxEntries);
    r := Ok(c);
  }
}
