/** The capturing response writer of internal/proxy/cache.go. Headers of the underlying writer,
    partial writes and write errors are inputs of each call; which headers forbid caching is an
    abstract predicate. */
module Capture {
  import opened Options
  import opened HttpValues

  const OK := 200
  const MAX_CACHEABLE := 1_048_576

  /** A call by the handler. `header` is the underlying writer's header at that moment; a write
      of `data` is accepted downstream for its first `written` bytes, perhaps with an error. */
  datatype Call =
    | WriteHeader(status: int, header: Header)
    | Write(data: seq<byte>, header: Header, written: nat, failed: bool)

  predicate ValidCall(c: Call) {
    c.Write? ==> c.written <= |c.data|
  }

  datatype State = State(
    status: int,
    header: Header,
    body: seq<byte>,
    wroteHeader: bool,
    recording: bool,
    writeFailed: bool)

  const FRESH := State(0, map[], [], false, false, false)

  /** An informational status other than 101 does not commit the response. */
  predicate Informational(status: int) {
    100 <= status < 200 && status != 101
  }

  function Commit(prevents: Header -> bool, s: State, status: int, header: Header): State {
    if Informational(status) || s.wroteHeader then s
    else s.(status := status, header := header, wroteHeader := true, recording := status == OK && !prevents(header))
  }

  function Step(prevents: Header -> bool, s: State, c: Call): State
    requires ValidCall(c)
  {
    match c
    case WriteHeader(status, header) => Commit(prevents, s, status, header)
    case Write(data, header, written, failed) =>
      var t := Commit(prevents, s, OK, header);
      var f := t.(writeFailed := t.writeFailed || failed || written != |data|);
      if !f.recording then f
      else if |f.body| + written > MAX_CACHEABLE then f.(recording := false, body := [])
      else f.(body := f.body + data[..written])
  }

  /** The captured response once the handler has returned. */
  function Captured(prevents: Header -> bool, s: State, header: Header): Option<Response> {
    var t := if s.wroteHeader then s else s.(status := OK, header := header, recording := !prevents(header));
    if !t.recording || t.writeFailed then None else Some(Response(t.status, t.header, t.body))
  }

  class CacheResponseWriter {
    const prevents: Header -> bool
    var status: int
    var header: Header
    var body: seq<byte>
    var wroteHeader: bool
    var recording: bool
    var writeFailed: bool

    function Value(): State
      reads this
    {
      State(status, header, body, wroteHeader, recording, writeFailed)
    }

    constructor (prevents: Header -> bool)
      ensures Value() == FRESH && this.prevents == prevents
    {
      this.prevents := prevents;
      status, header, body := 0, map[], [];
      wroteHeader, recording, writeFailed := false, false, false;
    }

    method DoWriteHeader(statusCode: int, current: Header)
      modifies this
      ensures Value() == Commit(prevents, old(Value()), statusCode, current)
      ensures if old(wroteHeader) || (100 <= statusCode <= 199 && statusCode != 101) then Value() == old(Value())
              else Value() == State(statusCode, current, old(body), true,
                                    statusCode == 200 && !prevents(current), old(writeFailed))
    {
      if 100 <= statusCode < 200 && statusCode != 101 {
        return;
      }
      if wroteHeader {
        return;
      }
      status := statusCode;
      header := current;
      wroteHeader := true;
      recording := statusCode == OK && !prevents(header);
    }

    method DoWrite(data: seq<byte>, current: Header, written: nat, failed: bool)
      requires written <= |data|
      modifies this
      ensures Value() == Step(prevents, old(Value()), Write(data, current, written, failed))
    {
      if !wroteHeader {
        DoWriteHeader(OK, current);
      }
      if failed || written != |data| {
        writeFailed := true;
      }
      if recording {
        if |body| + written > MAX_CACHEABLE {
          recording := false;
          body := [];
        } else {
          body := body + data[..written];
        }
      }
    }

    method TakeResponse(current: Header) returns (r: Option<Response>)
      modifies this
      ensures r == Captured(prevents, old(Value()), current)
    {
      if !wroteHeader {
        status := OK;
        header := current;
        recording := !prevents(header);
      }
      if !recording || writeFailed {
        return None;
      }
      return Some(Response(status, header, body));
    }
  }

  // ----- What the calls themselves say

  predicate ValidCalls(calls: seq<Call>) {
    forall i | 0 <= i < |calls| :: ValidCall(calls[i])
  }

  function Run(prevents: Header -> bool, calls: seq<Call>): State
    requires ValidCalls(calls)
  {
    if calls == [] then FRESH else Step(prevents, Run(prevents, calls[..|calls| - 1]), calls[|calls| - 1])
  }

  /** Status and header of the first call that commits the response. */
  function Committed(calls: seq<Call>): Option<(int, Header)> {
    if calls == [] then None
    else
      var c := calls[0];
      if c.Write? then Some((OK, c.header))
      else if Informational(c.status) then Committed(calls[1..])
      else Some((c.status, c.header))
  }

  /** All bytes the handler wrote. */
  function Passed(calls: seq<Call>): seq<byte> {
    if calls == [] then [] else (if calls[0].Write? then calls[0].data else []) + Passed(calls[1..])
  }

  /** All bytes the client's connection took. */
  function Accepted(calls: seq<Call>): seq<byte>
    requires ValidCalls(calls)
  {
    if calls == [] then [] else (if calls[0].Write? then calls[0].data[..calls[0].written] else []) + Accepted(calls[1..])
  }

  predicate Complete(calls: seq<Call>) {
    forall i | 0 <= i < |calls| :: calls[i].Write? ==> calls[i].written == |calls[i].data| && !calls[i].failed
  }

  lemma {:induction false} Snoc(calls: seq<Call>, c: Call)
    requires ValidCalls(calls) && ValidCall(c)
    ensures ValidCalls(calls + [c])
    ensures Accepted(calls + [c]) == Accepted(calls) + if c.Write? then c.data[..c.written] else []
    ensures Complete(calls + [c]) <==> Complete(calls) && Complete([c])
  {
    var all := calls + [c];
    assert all[|calls|] == c && forall i | 0 <= i < |calls| :: all[i] == calls[i];
    if calls == [] {
      assert all == [c] && [c][1..] == [];
    } else {
      Snoc(calls[1..], c);
      assert all[1..] == calls[1..] + [c];
    }
  }

  lemma {:induction false} CommittedSnoc(calls: seq<Call>, c: Call)
    ensures Committed(calls + [c]) == if Committed(calls).Some? then Committed(calls) else Committed([c])
  {
    var all := calls + [c];
    if calls == [] {
      assert all == [c];
    } else {
      CommittedSnoc(calls[1..], c);
      assert all[1..] == calls[1..] + [c];
    }
  }

  lemma {:induction false} CompleteMeansAccepted(calls: seq<Call>)
    requires ValidCalls(calls) && Complete(calls)
    ensures Accepted(calls) == Passed(calls)
  {
    if calls != [] {
      CompleteMeansAccepted(calls[1..]);
      assert calls[0].Write? ==> calls[0].data[..calls[0].written] == calls[0].data;
    }
  }

  /** The writer's fields say about the calls exactly what they should. */
  ghost predicate Faithful(prevents: Header -> bool, s: State, calls: seq<Call>)
    requires ValidCalls(calls)
  {
    && (s.wroteHeader <==> Committed(calls).Some?)
    && (s.wroteHeader ==> Committed(calls) == Some((s.status, s.header)))
    && (!s.wroteHeader ==> Accepted(calls) == [] && s.body == [] && !s.recording)
    && (s.wroteHeader ==>
          (s.recording <==> s.status == OK && !prevents(s.header) && |Accepted(calls)| <= MAX_CACHEABLE))
    && (s.recording ==> s.body == Accepted(calls))
    && (s.writeFailed <==> !Complete(calls))
  }

  lemma {:induction false} RunIsFaithful(prevents: Header -> bool, calls: seq<Call>)
    requires ValidCalls(calls)
    ensures Faithful(prevents, Run(prevents, calls), calls)
  {
    if calls != [] {
      var before, c := calls[..|calls| - 1], calls[|calls| - 1];
      RunIsFaithful(prevents, before);
      Snoc(before, c);
      CommittedSnoc(before, c);
      assert before + [c] == calls;
    }
  }

  /** Capture fidelity, for every sequence of calls: a response is captured if and only if it was
      committed with 200 and cacheable headers, every write was accepted in full, and the body fits
      the limit; and it then holds the committed headers and exactly the bytes written and accepted. */
  lemma {:induction false} CaptureIsExact(prevents: Header -> bool, calls: seq<Call>, atEnd: Header)
    requires ValidCalls(calls)
    ensures var (status, header) := if Committed(calls).Some? then Committed(calls).value else (OK, atEnd);
            Captured(prevents, Run(prevents, calls), atEnd) ==
            if status == OK && !prevents(header) && Complete(calls) && |Passed(calls)| <= MAX_CACHEABLE
            then Some(Response(OK, header, Passed(calls))) else None
    ensures Complete(calls) ==> Accepted(calls) == Passed(calls)
  {
    RunIsFaithful(prevents, calls);
    if Complete(calls) {
      CompleteMeansAccepted(calls);
    }
  }

  // ----- Which call commits

  /** A status from 100 to 199, other than 101, leaves the response open. */
  ghost predicate LeavesOpen(c: Call) {
    c.WriteHeader? && 100 <= c.status <= 199 && c.status != 101
  }

  /** Call `k` is the first one that does not leave the response open. */
  ghost predicate Commits(calls: seq<Call>, k: nat) {
    k < |calls| && !LeavesOpen(calls[k]) && forall j | 0 <= j < k :: LeavesOpen(calls[j])
  }

  lemma {:induction false} FirstCommitCounts(calls: seq<Call>, k: nat)
    requires Commits(calls, k)
    ensures Committed(calls) == Some((if calls[k].Write? then 200 else calls[k].status, calls[k].header))
  {
    if k > 0 {
      assert LeavesOpen(calls[0]);
      assert forall j | 0 <= j < k - 1 :: calls[1..][j] == calls[j + 1];
      FirstCommitCounts(calls[1..], k - 1);
    }
  }

  lemma {:induction false} OpenUntilCommit(calls: seq<Call>)
    requires forall j | 0 <= j < |calls| :: LeavesOpen(calls[j])
    ensures Committed(calls) == None
  {
    if calls != [] {
      assert LeavesOpen(calls[0]);
      OpenUntilCommit(calls[1..]);
    }
  }

  /** Only complete 200 responses of at most 1 MiB are captured: not if the first status that is not
      informational is another one, whatever is written after it. */
  lemma {:induction false} OnlyOKIsCaptured(prevents: Header -> bool, calls: seq<Call>, k: nat, atEnd: Header)
    requires ValidCalls(calls) && Commits(calls, k)
    ensures Captured(prevents, Run(prevents, calls), atEnd).Some? <==>
            && (calls[k].WriteHeader? ==> calls[k].status == 200) && !prevents(calls[k].header)
            && |Passed(calls)| <= 1_048_576
            && forall i | 0 <= i < |calls| && calls[i].Write? :: calls[i].written == |calls[i].data| && !calls[i].failed
  {
    FirstCommitCounts(calls, k);
    CaptureIsExact(prevents, calls, atEnd);
  }

  /** A response that was never committed is captured, if at all, as an empty 200 with the final headers. */
  lemma {:induction false} UncommittedIsEmptyOK(prevents: Header -> bool, calls: seq<Call>, atEnd: Header)
    requires ValidCalls(calls) && forall j | 0 <= j < |calls| :: LeavesOpen(calls[j])
    ensures Captured(prevents, Run(prevents, calls), atEnd) ==
            if prevents(atEnd) then None else Some(Response(200, atEnd, []))
  {
    OpenUntilCommit(calls);
    NothingPassed(calls);
    CaptureIsExact(prevents, calls, atEnd);
  }

  lemma {:induction false} NothingPassed(calls: seq<Call>)
    requires forall j | 0 <= j < |calls| :: LeavesOpen(calls[j])
    ensures Passed(calls) == []
  {
    if calls != [] {
      assert LeavesOpen(calls[0]);
      NothingPassed(calls[1..]);
    }
  }
}

/** The caching middleware: the capture in front of the response cache, over every interleaving
    of lookups and stores of concurrent requests on one route. */
module CacheMiddleware {
  import opened Options
  import opened HttpValues
  import opened Capture
  import ResponseCache
  import CacheRuns

  const REQUEST_ID := "X-Request-Id"
  const CACHE_STATUS := "X-Cache"
  const HIT := "HIT"

  /** A request looks its key up; one that missed ends with a store of what it captured. */
  datatype Event =
    | Lookup(key: string, now: int)
    | Store(key: string, calls: seq<Call>, atEnd: Header, now: int)

  ghost predicate ValidEvents(es: seq<Event>) {
    forall i | 0 <= i < |es| :: es[i].Store? ==> ValidCalls(es[i].calls)
  }

  /** Request IDs and lookup outcomes are never stored. */
  function Stripped(r: Response): Response {
    r.(header := r.header - {REQUEST_ID, CACHE_STATUS})
  }

  function StoredBy(prevents: Header -> bool, e: Event): Option<Response>
    requires e.Store? ==> ValidCalls(e.calls)
  {
    if e.Lookup? then None
    else
      match Captured(prevents, Run(prevents, e.calls), e.atEnd)
      case None => None
      case Some(r) => Some(Stripped(r))
  }

  /** The cache operation an event performs, if any. */
  function EventOps(prevents: Header -> bool, e: Event): seq<CacheRuns.Op>
    requires e.Store? ==> ValidCalls(e.calls)
  {
    if e.Lookup? then [CacheRuns.Get(e.key, e.now)]
    else
      match StoredBy(prevents, e)
      case None => []
      case Some(r) => [CacheRuns.Set(e.key, r, e.now)]
  }

  ghost function Ops(prevents: Header -> bool, es: seq<Event>): seq<CacheRuns.Op>
    requires ValidEvents(es)
  {
    if es == [] then [] else Ops(prevents, es[..|es| - 1]) + EventOps(prevents, es[|es| - 1])
  }

  /** The latest Set of the cache is the latest event that stored something under the key. */
  lemma {:induction false} LastStore(prevents: Header -> bool, es: seq<Event>, key: string) returns (i: nat)
    requires ValidEvents(es) && CacheRuns.LastSet(Ops(prevents, es), key).Some?
    ensures i < |es| && es[i].Store? && es[i].key == key
    ensures StoredBy(prevents, es[i]) == Some(CacheRuns.LastSet(Ops(prevents, es), key).value.0)
    ensures es[i].now == CacheRuns.LastSet(Ops(prevents, es), key).value.1
    ensures forall j | i < j < |es| && es[j].Store? && es[j].key == key :: StoredBy(prevents, es[j]).None?
  {
    var before, e, ops := es[..|es| - 1], es[|es| - 1], Ops(prevents, es);
    var earlier := Ops(prevents, before);
    if e.Store? && e.key == key && StoredBy(prevents, e).Some? {
      i := |es| - 1;
      assert ops[|ops| - 1] == CacheRuns.Set(key, StoredBy(prevents, e).value, e.now);
    } else {
      if ops == earlier + [] {
        assert ops == earlier;
      } else {
        assert ops[..|ops| - 1] == earlier;
      }
      i := LastStore(prevents, before, key);
      assert forall j | 0 <= j < |before| :: before[j] == es[j];
    }
  }

  /** Replay fidelity: whatever a lookup hits is the capture of the latest storing request for that
      key, younger than the TTL: status 200, within the size limit, cacheable committed headers less
      the request ID and lookup outcome, and exactly the bytes the first client received. */
  lemma {:induction false} HitReplaysCapture(
    prevents: Header -> bool, ttl: int, cap: nat, es: seq<Event>, key: string, now: int)
    returns (i: nat)
    requires cap > 0 && ValidEvents(es)
    requires ResponseCache.Lookup(CacheRuns.Run(ttl, cap, Ops(prevents, es)), key, now).Some?
    ensures i < |es| && es[i].Store? && es[i].key == key && now < es[i].now + ttl
    ensures forall j | i < j < |es| && es[j].Store? && es[j].key == key :: StoredBy(prevents, es[j]).None?
    ensures var r := ResponseCache.Lookup(CacheRuns.Run(ttl, cap, Ops(prevents, es)), key, now).value;
            var (status, header) := if Committed(es[i].calls).Some? then Committed(es[i].calls).value else (OK, es[i].atEnd);
            && r.status == status == OK && !prevents(header)
            && r.header == header - {REQUEST_ID, CACHE_STATUS}
            && r.body == Passed(es[i].calls) == Accepted(es[i].calls) && |r.body| <= MAX_CACHEABLE
  {
    var ops := Ops(prevents, es);
    CacheRuns.HitsAreLatest(ttl, cap, ops, key, now);
    i := LastStore(prevents, es, key);
    CaptureIsExact(prevents, es[i].calls, es[i].atEnd);
  }

  // ----- What was captured is replayed

  /** An operation that leaves the entry of `key` alone until `now`, except for its age and for `keys`. */
  ghost predicate Quiet(op: CacheRuns.Op, key: string, now: int, keys: set<string>) {
    op.now <= now && if op.key == key then op.Get? else op.key in keys
  }

  ghost predicate AllQuiet(ops: seq<CacheRuns.Op>, key: string, now: int, keys: set<string>) {
    forall q | 0 <= q < |ops| :: Quiet(ops[q], key, now, keys)
  }

  ghost predicate QuietEvents(prevents: Header -> bool, es: seq<Event>, m: nat, key: string, now: int, keys: set<string>)
    requires ValidEvents(es)
  {
    forall j | m <= j < |es| :: AllQuiet(EventOps(prevents, es[j]), key, now, keys)
  }

  lemma {:induction false} QuietTail(
    prevents: Header -> bool, es: seq<Event>, m: nat, key: string, now: int, keys: set<string>)
    returns (tail: seq<CacheRuns.Op>)
    requires ValidEvents(es) && m <= |es| && QuietEvents(prevents, es, m, key, now, keys)
    ensures Ops(prevents, es) == Ops(prevents, es[..m]) + tail && AllQuiet(tail, key, now, keys)
    decreases |es|
  {
    tail := [];
    if m == |es| {
      assert es[..m] == es;
    } else {
      var before := es[..|es| - 1];
      assert before[..m] == es[..m] && forall j | 0 <= j < |before| :: before[j] == es[j];
      tail := QuietTail(prevents, before, m, key, now, keys);
      tail := tail + EventOps(prevents, es[|es| - 1]);
    }
  }

  /** The other keys of later events. */
  ghost function OtherKeys(es: seq<Event>, m: nat, key: string): set<string> {
    set j | m < j < |es| && es[j].key != key :: es[j].key
  }

  /** Later events neither store under `key` nor come after `now`, and concern fewer than `cap` other keys. */
  ghost predicate Undisturbed(prevents: Header -> bool, cap: nat, es: seq<Event>, m: nat, key: string, now: int)
    requires ValidEvents(es)
  {
    && (forall j | m < j < |es| ::
          es[j].now <= now
          && (es[j].Store? && es[j].key == key ==> Captured(prevents, Run(prevents, es[j].calls), es[j].atEnd) == None))
    && |OtherKeys(es, m, key)| < cap
  }

  lemma {:induction false} TouchedWithin(
    ttl: int, cap: nat, ops: seq<CacheRuns.Op>, m: nat, k: nat, key: string, keys: set<string>)
    requires m <= k <= |ops| && forall p | m <= p < k && ops[p].key != key :: ops[p].key in keys
    ensures CacheRuns.TouchedBetween(ttl, cap, ops, m, k, key) <= keys
    decreases k
  {
    if m < k {
      TouchedWithin(ttl, cap, ops, m, k - 1, key, keys);
    }
  }

  lemma {:induction false} RetainedThrough(
    ttl: int, cap: nat, early: seq<CacheRuns.Op>, op: CacheRuns.Op, tail: seq<CacheRuns.Op>, now: int, keys: set<string>)
    requires cap > 0 && CacheRuns.Touches(CacheRuns.Run(ttl, cap, early), op) && AllQuiet(tail, op.key, now, keys)
    requires var last := CacheRuns.LastSet(early + [op], op.key); last.Some? && now < last.value.1 + ttl
    requires |keys| < cap
    ensures ResponseCache.Lookup(CacheRuns.Run(ttl, cap, early + [op] + tail), op.key, now)
            == Some(CacheRuns.LastSet(early + [op], op.key).value.0)
  {
    var ops, p := early + [op] + tail, |early|;
    assert ops[..p] == early && ops[p] == op && ops[..p + 1] == early + [op];
    assert forall q | p < q < |ops| :: ops[q] == tail[q - p - 1];
    TouchedWithin(ttl, cap, ops, p + 1, |ops|, op.key, keys);
    CacheRuns.SubsetSize(CacheRuns.TouchedBetween(ttl, cap, ops, p + 1, |ops|, op.key), keys);
    CacheRuns.LruRetention(ttl, cap, ops, p, op.key, now);
  }

  lemma {:induction false} UndisturbedIsQuiet(
    prevents: Header -> bool, cap: nat, es: seq<Event>, m: nat, key: string, now: int)
    requires ValidEvents(es) && Undisturbed(prevents, cap, es, m, key, now)
    ensures QuietEvents(prevents, es, m + 1, key, now, OtherKeys(es, m, key))
  {
  }

  lemma {:induction false} OpsUpTo(prevents: Header -> bool, es: seq<Event>, m: nat)
    requires ValidEvents(es) && m < |es|
    ensures Ops(prevents, es[..m + 1]) == Ops(prevents, es[..m]) + EventOps(prevents, es[m])
  {
    assert es[..m + 1][..m] == es[..m];
  }

  /** An entry touched by event `m` is still there at `now`. */
  lemma {:induction false} StaysCached(
    prevents: Header -> bool, ttl: int, cap: nat, es: seq<Event>, m: nat, op: CacheRuns.Op, now: int)
    requires cap > 0 && ValidEvents(es) && m < |es| && Undisturbed(prevents, cap, es, m, op.key, now)
    requires var early := Ops(prevents, es[..m]);
             && EventOps(prevents, es[m]) == [op] && CacheRuns.Touches(CacheRuns.Run(ttl, cap, early), op)
             && var last := CacheRuns.LastSet(early + [op], op.key); last.Some? && now < last.value.1 + ttl
    ensures ResponseCache.Lookup(CacheRuns.Run(ttl, cap, Ops(prevents, es)), op.key, now)
            == Some(CacheRuns.LastSet(Ops(prevents, es[..m]) + [op], op.key).value.0)
  {
    var early, keys := Ops(prevents, es[..m]), OtherKeys(es, m, op.key);
    UndisturbedIsQuiet(prevents, cap, es, m, op.key, now);
    var tail := QuietTail(prevents, es, m + 1, op.key, now, keys);
    OpsUpTo(prevents, es, m);
    RetainedThrough(ttl, cap, early, op, tail, now, keys);
  }

  /** Replay: what a request captured is served to later requests for its key, without the request ID
      and the lookup outcome, until it is as old as the TTL, is captured again, or as many other keys
      as the cache has room for have been asked for. */
  lemma {:induction false} CaptureIsReplayed(
    prevents: Header -> bool, ttl: int, cap: nat, es: seq<Event>, m: nat, now: int, r: Response)
    requires cap > 0 && ValidEvents(es) && m < |es| && es[m].Store? && Undisturbed(prevents, cap, es, m, es[m].key, now)
    requires Captured(prevents, Run(prevents, es[m].calls), es[m].atEnd) == Some(r) && now < es[m].now + ttl
    ensures ResponseCache.Lookup(CacheRuns.Run(ttl, cap, Ops(prevents, es)), es[m].key, now)
            == Some(Response(r.status, r.header - {"X-Request-Id", "X-Cache"}, r.body))
  {
    var early, op := Ops(prevents, es[..m]), CacheRuns.Set(es[m].key, Stripped(r), es[m].now);
    assert (early + [op])[..|early|] == early;
    StaysCached(prevents, ttl, cap, es, m, op, now);
  }

  /** A lookup that hits keeps its entry for as long as a fresh store would, within the same TTL. */
  lemma {:induction false} HitStaysCached(
    prevents: Header -> bool, ttl: int, cap: nat, es: seq<Event>, m: nat, now: int, r: Response)
    requires cap > 0 && ValidEvents(es) && m < |es| && es[m].Lookup? && Undisturbed(prevents, cap, es, m, es[m].key, now)
    requires es[m].now <= now
    requires ResponseCache.Lookup(CacheRuns.Run(ttl, cap, Ops(prevents, es[..m])), es[m].key, now) == Some(r)
    ensures ResponseCache.Lookup(CacheRuns.Run(ttl, cap, Ops(prevents, es)), es[m].key, now) == Some(r)
  {
    var early, op := Ops(prevents, es[..m]), CacheRuns.Get(es[m].key, es[m].now);
    CacheRuns.HitsAreLatest(ttl, cap, early, op.key, now);
    assert (early + [op])[..|early|] == early;
    StaysCached(prevents, ttl, cap, es, m, op, now);
  }

  /** The client's side of a response. */
  class ClientWriter {
    var header: Header
    var status: int
    var body: seq<byte>

    constructor ()
      ensures header == map[] && status == 0 && body == []
    {
      header, status, body := map[], 0, [];
    }
  }

  /** A hit sends the stored status and body, the stored headers over those already set, and the
      current request's ID. */
  method WriteCachedResponse(w: ClientWriter, r: Response, requestID: string)
    modifies w
    ensures w.status == r.status && w.body == old(w.body) + r.body
    ensures w.header == old(w.header) + r.header + map["X-Request-Id" := [requestID], "X-Cache" := ["HIT"]]
  {
    var header, names := w.header, r.header.Keys;
    while names != {}
      invariant names <= r.header.Keys
      invariant header == old(w.header) + (map k | k in r.header && k !in names :: r.header[k])
    {
      var name :| name in names;
      header := header[name := r.header[name]];
      names := names - {name};
    }
    assert (map k | k in r.header && k !in names :: r.header[k]) == r.header;
    w.header := header[REQUEST_ID := [requestID]][CACHE_STATUS := [HIT]];
    w.status := r.status;
    w.body := w.body + r.body;
  }
}
