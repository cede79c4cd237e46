/** Route matching of internal/proxy/gateway.go: which prefix wins, and when the longest
    prefix is also the most specific one. */
module Routing {
  import opened Options

  function TrimRight(s: string): string {
    if s != "" && s[|s| - 1] == '/' then TrimRight(s[..|s| - 1]) else s
  }

  /** Segment-aware prefix match; "/" matches everything. */
  predicate PrefixMatches(prefix: string, path: string) {
    prefix == "/" || path == prefix || TrimRight(prefix) + "/" <= path
  }

  /** The longest matching prefix, the earliest of equals. */
  function Choose(routes: seq<string>, path: string): (r: Option<nat>)
    ensures r.Some? ==> r.value < |routes|
  {
    if routes == [] then None
    else
      var last := |routes| - 1;
      var best := Choose(routes[..last], path);
      if PrefixMatches(routes[last], path) && (best.None? || |routes[last]| > |routes[best.value]|) then Some(last)
      else best
  }

  method MatchRoute(routes: seq<string>, path: string) returns (matched: Option<nat>)
    ensures matched == Choose(routes, path)
    ensures matched.None? <==> forall i | 0 <= i < |routes| :: !PrefixMatches(routes[i], path)
    ensures matched.Some? ==>
      && PrefixMatches(routes[matched.value], path)
      && forall i | 0 <= i < |routes| && PrefixMatches(routes[i], path) ::
           |routes[i]| <= |routes[matched.value]| && (i < matched.value ==> |routes[i]| < |routes[matched.value]|)
  {
    matched := None;
    for k := 0 to |routes|
      invariant matched == Choose(routes[..k], path)
    {
      assert routes[..k + 1][..k] == routes[..k];
      if !PrefixMatches(routes[k], path) {
        continue;
      }
      if matched == None || |routes[k]| > |routes[matched.value]| {
        matched := Some(k);
      }
    }
    assert routes[..|routes|] == routes;
    ChooseIsLongest(routes, path);
  }

  lemma {:induction false} ChooseIsLongest(routes: seq<string>, path: string)
    ensures var r := Choose(routes, path);
            match r
            case None => forall i | 0 <= i < |routes| :: !PrefixMatches(routes[i], path)
            case Some(c) =>
              && PrefixMatches(routes[c], path)
              && forall i | 0 <= i < |routes| && PrefixMatches(routes[i], path) ::
                   |routes[i]| <= |routes[c]| && (i < c ==> |routes[i]| < |routes[c]|)
  {
    if routes != [] {
      ChooseIsLongest(routes[..|routes| - 1], path);
    }
  }

  // ----- Longest is most specific

  /** Configuration accepts exactly the prefixes that start with a slash. */
  predicate Rooted(p: string) {
    p != "" && p[0] == '/'
  }

  predicate DoubleSlashed(p: string) {
    |p| >= 2 && p[|p| - 1] == '/' && p[|p| - 2] == '/'
  }

  predicate Clean(p: string) {
    Rooted(p) && !DoubleSlashed(p)
  }

  /** Whatever route wins a path, it serves nothing that another route matching this path would not match. */
  ghost predicate Specific(routes: seq<string>) {
    forall path, x, j |
      Choose(routes, path).Some? && 0 <= j < |routes| && PrefixMatches(routes[j], path)
      && PrefixMatches(routes[Choose(routes, path).value], x) :: PrefixMatches(routes[j], x)
  }

  lemma TrimClean(p: string)
    requires Clean(p) && p != "/"
    ensures TrimRight(p) == if p[|p| - 1] == '/' then p[..|p| - 1] else p
  {
  }

  /** A prefix is its base followed by slashes only. */
  lemma TrimIsPrefix(p: string)
    ensures TrimRight(p) <= p && (TrimRight(p) == "" || TrimRight(p)[|TrimRight(p)| - 1] != '/')
    ensures forall i | |TrimRight(p)| <= i < |p| :: p[i] == '/'
    ensures DoubleSlashed(p) ==> |TrimRight(p)| + 2 <= |p|
  {
  }

  // ----- The exact condition on a table

  /** The base of `inner` lies strictly below the base of `outer`. */
  ghost predicate Below(outer: string, inner: string) {
    TrimRight(outer) + "/" <= TrimRight(inner)
  }

  /** Two prefixes that match one path have comparable bases. */
  lemma {:induction false} BasesNest(p: string, q: string, path: string)
    requires Rooted(p) && Rooted(q) && p != "/" && q != "/" && PrefixMatches(p, path) && PrefixMatches(q, path)
    ensures TrimRight(p) == TrimRight(q) || Below(p, q) || Below(q, p)
  {
    BaseOnPath(p, path);
    BaseOnPath(q, path);
    if |TrimRight(p)| < |TrimRight(q)| {
      ShorterIsBelow(p, q, path);
    } else if |TrimRight(q)| < |TrimRight(p)| {
      ShorterIsBelow(q, p, path);
    } else {
      assert TrimRight(p) == path[..|TrimRight(p)|] && TrimRight(q) == path[..|TrimRight(q)|];
    }
  }

  /** A matched path is the base, or goes on with a slash after it. */
  lemma {:induction false} BaseOnPath(p: string, path: string)
    requires p != "/" && PrefixMatches(p, path)
    ensures TrimRight(p) <= path && (path == TrimRight(p) || TrimRight(p) + "/" <= path)
  {
    TrimIsPrefix(p);
    var t := TrimRight(p);
    if path == p && |t| < |p| {
      assert p[..|t| + 1] == t + "/";
    }
    if t + "/" <= path {
      assert t == (t + "/")[..|t|] == path[..|t|];
    }
  }

  lemma {:induction false} ShorterIsBelow(p: string, q: string, path: string)
    requires TrimRight(p) <= path && (path == TrimRight(p) || TrimRight(p) + "/" <= path)
    requires TrimRight(q) <= path && |TrimRight(p)| < |TrimRight(q)|
    ensures Below(p, q)
  {
    var tp, tq := TrimRight(p) + "/", TrimRight(q);
    assert tp == path[..|tp|] && tq == path[..|tq|];
    assert tq[..|tp|] == tp;
  }

  /** A prefix whose base is the same or below, and that is at least as long, matches no more. */
  lemma {:induction false} NoWider(p: string, q: string, x: string)
    requires Rooted(p) && Rooted(q) && |q| <= |p| && PrefixMatches(p, x)
    requires q == "/" || (p != "/" && (TrimRight(p) == TrimRight(q) || Below(q, p)))
    ensures PrefixMatches(q, x)
  {
    if q != "/" {
      TrimIsPrefix(p);
      TrimIsPrefix(q);
      BaseOnPath(p, x);
      var tp, tq := TrimRight(p), TrimRight(q);
      if Below(q, p) {
        assert tq + "/" == tp[..|tq| + 1] == x[..|tq| + 1];
      } else if x == tp {
        assert q <= p ==> q == p[..|q|];
        BareBase(p, q, x);
      }
    }
  }

  /** Only a prefix without trailing slashes matches its bare base. */
  lemma {:induction false} BareBase(p: string, q: string, x: string)
    requires p != "/" && PrefixMatches(p, x) && x == TrimRight(p) == TrimRight(q) && |q| <= |p|
    ensures q == x
  {
    TrimIsPrefix(p);
    TrimIsPrefix(q);
    assert p == x;
    assert q[..|x|] == x;
  }

  /** A prefix whose base lies strictly above matches a path the other does not. */
  lemma {:induction false} AboveIsWider(p: string, q: string)
    requires Below(p, q)
    ensures PrefixMatches(p, TrimRight(p) + "/") && !PrefixMatches(q, TrimRight(p) + "/")
  {
    TrimIsPrefix(q);
    var x, tq := TrimRight(p) + "/", TrimRight(q);
    assert tq[|tq| - 1] != '/' && tq[|x| - 1] == x[|x| - 1] == '/';
  }

  /** A prefix that matches another prefix as a path, and is at least as long, has the same base or one above. */
  lemma {:induction false} WinnerOfPrefix(p: string, q: string)
    requires Rooted(p) && Rooted(q) && |q| <= |p| && PrefixMatches(p, q)
    ensures TrimRight(p) == TrimRight(q) || Below(p, q)
  {
    if q == "/" {
      SlashOnly(p);
    } else if p != "/" {
      BasesNest(p, q, q);
      BaseNoLonger(p, q);
    }
  }

  lemma {:induction false} BaseNoLonger(p: string, q: string)
    requires p != "/" && PrefixMatches(p, q)
    ensures |TrimRight(p)| <= |TrimRight(q)|
  {
    TrimIsPrefix(p);
    TrimIsPrefix(q);
    BaseOnPath(p, q);
    var tp := TrimRight(p);
    assert tp == q[..|tp|];
  }

  lemma {:induction false} SlashOnly(p: string)
    requires PrefixMatches(p, "/") && Rooted(p)
    ensures TrimRight(p) == TrimRight("/")
  {
    if p != "/" {
      BaseNoLonger(p, "/");
      assert "/"[..0] == "" && TrimRight("/") == "";
    }
  }

  /** Each route's own prefix, taken as a path, is won by a route with the same base. */
  ghost predicate OwnPrefixesWon(routes: seq<string>) {
    forall j | 0 <= j < |routes| ::
      var c := Choose(routes, routes[j]);
      c.Some? && TrimRight(routes[c.value]) == TrimRight(routes[j])
  }

  /** Most-specific routing, exactly: whatever table of rooted prefixes is configured, the winner of
      every path is the most specific match if and only if each prefix is won by a route with its base. */
  lemma {:induction false} TableIsSpecificExactly(routes: seq<string>)
    requires forall i | 0 <= i < |routes| :: Rooted(routes[i])
    ensures Specific(routes) <==> OwnPrefixesWon(routes)
  {
    if OwnPrefixesWon(routes) {
      forall path, x, j |
        Choose(routes, path).Some? && 0 <= j < |routes| && PrefixMatches(routes[j], path)
        && PrefixMatches(routes[Choose(routes, path).value], x)
        ensures PrefixMatches(routes[j], x)
      {
        WonMeansSpecific(routes, path, x, j);
      }
    }
    if Specific(routes) {
      forall j | 0 <= j < |routes|
        ensures var c := Choose(routes, routes[j]);
                c.Some? && TrimRight(routes[c.value]) == TrimRight(routes[j])
      {
        SpecificMeansWon(routes, j);
      }
    }
  }

  lemma {:induction false} SpecificMeansWon(routes: seq<string>, j: nat)
    requires (forall i | 0 <= i < |routes| :: Rooted(routes[i])) && Specific(routes) && j < |routes|
    ensures var c := Choose(routes, routes[j]);
            c.Some? && TrimRight(routes[c.value]) == TrimRight(routes[j])
  {
    var q := routes[j];
    ChooseIsLongest(routes, q);
    var p := routes[Choose(routes, q).value];
    WinnerOfPrefix(p, q);
    if Below(p, q) {
      AboveIsWider(p, q);
    }
  }

  lemma {:induction false} WonMeansSpecific(routes: seq<string>, path: string, x: string, j: nat)
    requires (forall i | 0 <= i < |routes| :: Rooted(routes[i])) && OwnPrefixesWon(routes)
    requires Choose(routes, path).Some? && j < |routes| && PrefixMatches(routes[j], path)
    requires PrefixMatches(routes[Choose(routes, path).value], x)
    ensures PrefixMatches(routes[j], x)
  {
    var c := Choose(routes, path).value;
    var p, q := routes[c], routes[j];
    ChooseIsLongest(routes, path);
    if q != "/" {
      assert p != "/";
      BasesNest(p, q, path);
      NeverBelow(routes, path, j);
    }
    NoWider(p, q, x);
  }

  /** The winner's base is never strictly above that of another match. */
  lemma {:induction false} NeverBelow(routes: seq<string>, path: string, j: nat)
    requires (forall i | 0 <= i < |routes| :: Rooted(routes[i])) && OwnPrefixesWon(routes)
    requires Choose(routes, path).Some? && j < |routes| && PrefixMatches(routes[j], path) && routes[j] != "/"
    ensures !Below(routes[Choose(routes, path).value], routes[j])
  {
    var c, w, q := Choose(routes, path).value, Choose(routes, routes[j]).value, routes[j];
    BelowMatches(routes[c], q);
    SameBaseMatches(routes[w], q, path);
    SameWinner(routes, path, q);
  }

  lemma {:induction false} BelowMatches(p: string, q: string)
    ensures Below(p, q) ==> PrefixMatches(p, q) && TrimRight(p) != TrimRight(q)
  {
    TrimIsPrefix(q);
    var tp, tq := TrimRight(p) + "/", TrimRight(q);
    assert tp <= tq ==> tp == tq[..|tp|] == q[..|tp|];
  }

  /** Two paths that each other's winner matches have the same winner. */
  lemma {:induction false} SameWinner(routes: seq<string>, a: string, b: string)
    requires Choose(routes, a).Some? && Choose(routes, b).Some?
    ensures PrefixMatches(routes[Choose(routes, a).value], b)
            && (a == b || PrefixMatches(routes[Choose(routes, b).value], a))
            ==> Choose(routes, a) == Choose(routes, b)
  {
    ChooseIsLongest(routes, a);
    ChooseIsLongest(routes, b);
  }

  /** A prefix with the same base matches the path too, unless the path is the other prefix itself. */
  lemma {:induction false} SameBaseMatches(p: string, q: string, path: string)
    requires TrimRight(p) == TrimRight(q) && q != "/" && PrefixMatches(q, path)
    ensures path == q || PrefixMatches(p, path)
  {
  }

  // ----- Which prefixes are safe in any table

  /** A clean prefix that is at least as long as another has no base above it. */
  lemma {:induction false} CleanIsDeep(p: string, q: string)
    requires Clean(p) && |q| <= |p|
    ensures !Below(p, q)
  {
    TrimIsPrefix(q);
    if p == "/" {
      assert TrimRight(p[..0]) == "";
    } else {
      TrimClean(p);
    }
    var tp, tq := TrimRight(p) + "/", TrimRight(q);
    assert tp[|tp| - 1] == '/' && |tp| >= |p|;
    assert |tp| == |tq| && tp <= tq ==> tp == tq;
  }

  /** Most-specific routing for tables of clean prefixes. */
  lemma {:induction false} CleanTablesAreSpecific(routes: seq<string>)
    requires forall i | 0 <= i < |routes| :: Clean(routes[i])
    ensures Specific(routes)
  {
    forall j | 0 <= j < |routes|
      ensures var c := Choose(routes, routes[j]);
              c.Some? && TrimRight(routes[c.value]) == TrimRight(routes[j])
    {
      ChooseIsLongest(routes, routes[j]);
      var p := routes[Choose(routes, routes[j]).value];
      WinnerOfPrefix(p, routes[j]);
      CleanIsDeep(p, routes[j]);
    }
    TableIsSpecificExactly(routes);
  }

  /** A prefix that ends in two slashes is long without being specific: next to some clean prefix
      it wins a path of that prefix and serves paths the prefix would not match. */
  lemma {:induction false} DoubleSlashBreaks(q: string) returns (p: string)
    requires Rooted(q) && DoubleSlashed(q)
    ensures Clean(p) && !Specific([q, p])
  {
    var t := TrimRight(q);
    TrimIsPrefix(q);
    p := t + "/a";
    var x := t + "/b";
    var routes := [q, p];
    assert t == "" || t[0] == q[0];
    assert t + "/" <= p && t + "/" <= x;
    assert routes[..1] == [q] && routes[..1][..0] == [];
    assert Choose([q], p) == Some(0);
    assert Choose(routes, p) == Some(0);
    assert TrimRight(p) == p;
    assert |p + "/"| > |x| && p[|p| - 1] != x[|x| - 1];
    assert !PrefixMatches(routes[1], x) && PrefixMatches(routes[0], x) && PrefixMatches(routes[1], p);
  }

  /** Exactly the prefixes that do not end in two slashes are safe beside every clean prefix. */
  lemma {:induction false} SpecificExactly(q: string)
    requires Rooted(q)
    ensures Clean(q) <==> forall p | Clean(p) :: Specific([q, p])
  {
    if Clean(q) {
      forall p | Clean(p)
        ensures Specific([q, p])
      {
        CleanTablesAreSpecific([q, p]);
      }
    } else {
      var p := DoubleSlashBreaks(q);
    }
  }
}
