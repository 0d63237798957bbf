/**
 Path scopes of agent licences: a scope covers a path when it is ".", the path itself, or
 a slash-delimited prefix of it. `CommonPaths` is meant to intersect the sets of paths
 that the scope lists of several events cover.
 */
module PathScopes {
  import Strings

  /** Python's rstrip("/"). */
  function StripSlashes(s: string): (r: string)
    ensures r <= s
    ensures r == [] || r[|r| - 1] != '/'
  {
    if s != [] && s[|s| - 1] == '/' then StripSlashes(s[..|s| - 1]) else s
  }

  predicate Covers(scope: string, path: string) {
    scope == "." || path == scope || StripSlashes(scope) + "/" <= path
  }

  /** Paths as the licence ledger stores them: not empty, no trailing slash. */
  predicate Normal(path: string) {
    path != [] && path[|path| - 1] != '/'
  }

  /** A scope covers itself and whatever lies under it, the whole workspace for ".". */
  lemma CoversMeans(scope: string, path: string)
    requires Normal(scope)
    ensures Covers(scope, path) <==> scope == "." || path == scope || exists rest :: path == scope + "/" + rest
  {
    if scope + "/" <= path { assert path == scope + "/" + path[|scope| + 1..]; }
  }

  predicate CoveredBy(scopes: seq<string>, path: string) {
    exists i :: 0 <= i < |scopes| && Covers(scopes[i], path)
  }

  predicate CoveredByAll(events: seq<seq<string>>, path: string) {
    forall i :: 0 <= i < |events| ==> CoveredBy(events[i], path)
  }

  function PathSet(events: seq<seq<string>>): set<string> {
    set i, p | 0 <= i < |events| && p in events[i] :: p
  }

  function Keep(candidates: seq<string>, events: seq<seq<string>>): seq<string> {
    if candidates == [] then []
    else
      var n := |candidates| - 1;
      Keep(candidates[..n], events) + (if CoveredByAll(events, candidates[n]) then [candidates[n]] else [])
  }

  /** The declared paths that every event's scopes cover, in sorted order. */
  function CommonPathsOf(events: seq<seq<string>>): seq<string> {
    if events == [] then [] else Keep(Strings.SortedKeys(PathSet(events)), events)
  }

  method CommonPaths(events: seq<seq<string>>) returns (allowed: seq<string>)
    ensures allowed == CommonPathsOf(events)
  {
    if events == [] {
      return [];
    }
    var candidates := Strings.SortSet(PathSet(events));
    allowed := [];
    var k := 0;
    while k < |candidates|
      invariant 0 <= k <= |candidates|
      invariant allowed == Keep(candidates[..k], events)
    {
      KeepStep(candidates, k, events);
      if CoveredByAll(events, candidates[k]) {
        allowed := allowed + [candidates[k]];
      }
      k := k + 1;
    }
    assert candidates[..k] == candidates;
  }

  lemma KeepStep(candidates: seq<string>, k: nat, events: seq<seq<string>>)
    requires k < |candidates|
    ensures Keep(candidates[..k + 1], events)
         == Keep(candidates[..k], events) + (if CoveredByAll(events, candidates[k]) then [candidates[k]] else [])
  {
    assert candidates[..k + 1][..k] == candidates[..k];
  }

  lemma {:induction false} KeepMembers(candidates: seq<string>, events: seq<seq<string>>)
    ensures forall p :: p in Keep(candidates, events) <==> p in candidates && CoveredByAll(events, p)
  {
    if candidates == [] {
    } else {
      KeepMembers(candidates[..|candidates| - 1], events);
      assert candidates == candidates[..|candidates| - 1] + [candidates[|candidates| - 1]];
    }
  }

  lemma {:induction false} KeepSorted(candidates: seq<string>, events: seq<seq<string>>)
    requires Strings.Sorted(candidates)
    ensures Strings.Sorted(Keep(candidates, events))
  {
    if candidates == [] {
    } else {
      var n := |candidates| - 1;
      KeepSorted(candidates[..n], events);
      KeepMembers(candidates[..n], events);
      var kept := Keep(candidates[..n], events);
      forall i | 0 <= i < |kept|
        ensures Strings.Before(kept[i], candidates[n]) && kept[i] != candidates[n]
      {
        assert kept[i] in candidates[..n];
      }
    }
  }

  /** The result is in strictly increasing order and holds exactly the declared paths that the
      scopes of every event cover. */
  lemma CommonPathsListed(events: seq<seq<string>>)
    requires events != []
    ensures Strings.Sorted(CommonPathsOf(events))
    ensures forall p :: p in CommonPathsOf(events) <==>
      (exists i :: 0 <= i < |events| && p in events[i]) && forall i | 0 <= i < |events| :: CoveredBy(events[i], p)
  {
    var candidates := Strings.SortedKeys(PathSet(events));
    KeepSorted(candidates, events);
    KeepMembers(candidates, events);
  }

  lemma CoversTransitive(a: string, b: string, p: string)
    requires Normal(a) && Normal(b) && Normal(p)
    requires Covers(a, b) && Covers(b, p)
    ensures Covers(a, p)
  {
    if a != "." && a != b && b != p && b != "." {
      assert StripSlashes(a) == a && StripSlashes(b) == b;
      assert p[..|a| + 1] == b[..|a| + 1];
    }
  }

  /** How specific a scope is; "." is the top of the order. */
  function Depth(scope: string): nat {
    if scope == "." then 0 else |scope|
  }

  /** The scopes that cover one path form a chain. */
  lemma ScopesChain(a: string, b: string, p: string)
    requires Normal(a) && Normal(b) && Normal(p)
    requires Covers(a, p) && Covers(b, p) && Depth(a) <= Depth(b)
    ensures Covers(a, b)
  {
    if a != "." && b != "." {
      assert StripSlashes(a) == a && StripSlashes(b) == b;
      assert a <= p && b <= p;
      if |a| == |b| {
        assert a == p[..|a|] == b;
      } else {
        assert a + "/" <= p && p[..|b|] == b;
        assert b[..|a| + 1] == p[..|a| + 1];
      }
    }
  }

  /** `scopes` has a scope for `path` that is no deeper than `deepest`. */
  ghost predicate ShallowCover(scopes: seq<string>, path: string, deepest: string) {
    exists j :: 0 <= j < |scopes| && Covers(scopes[j], path) && Depth(scopes[j]) <= Depth(deepest)
  }

  /** Among the scopes that cover `path`, one per event, pick the most specific. */
  lemma {:induction false} DeepestScope(events: seq<seq<string>>, path: string) returns (deepest: string, at: nat)
    requires events != [] && CoveredByAll(events, path)
    ensures at < |events| && deepest in events[at] && Covers(deepest, path)
    ensures forall i | 0 <= i < |events| :: ShallowCover(events[i], path, deepest)
  {
    var n := |events| - 1;
    assert CoveredBy(events[n], path);
    var j :| 0 <= j < |events[n]| && Covers(events[n][j], path);
    deepest, at := events[n][j], n;
    if n > 0 {
      forall i | 0 <= i < n ensures CoveredBy(events[..n][i], path) { assert CoveredBy(events[i], path); }
      var rest, where := DeepestScope(events[..n], path);
      if Depth(rest) > Depth(deepest) { deepest, at := rest, where; }
      forall i | 0 <= i < n ensures ShallowCover(events[i], path, deepest) {
        assert ShallowCover(events[..n][i], path, rest);
      }
    }
  }

  /** Exactness: on normalised paths a path is covered by the returned scopes if and only if
      it is covered by the scopes of every event. */
  lemma IntersectionExact(events: seq<seq<string>>, path: string)
    requires events != [] && Normal(path)
    requires forall i, p | 0 <= i < |events| && p in events[i] :: Normal(p)
    ensures CoveredBy(CommonPathsOf(events), path) <==> CoveredByAll(events, path)
  {
    var allowed := CommonPathsOf(events);
    KeepMembers(Strings.SortedKeys(PathSet(events)), events);
    if CoveredBy(allowed, path) {
      var k :| 0 <= k < |allowed| && Covers(allowed[k], path);
      assert allowed[k] in allowed;
      forall i | 0 <= i < |events| ensures CoveredBy(events[i], path) {
        assert CoveredBy(events[i], allowed[k]);
        var j :| 0 <= j < |events[i]| && Covers(events[i][j], allowed[k]);
        CoversTransitive(events[i][j], allowed[k], path);
      }
    }
    if CoveredByAll(events, path) {
      var deepest, at := DeepestScope(events, path);
      forall i | 0 <= i < |events| ensures CoveredBy(events[i], deepest) {
        assert ShallowCover(events[i], path, deepest);
        var j :| 0 <= j < |events[i]| && Covers(events[i][j], path) && Depth(events[i][j]) <= Depth(deepest);
        ScopesChain(events[i][j], deepest, path);
      }
      assert deepest in PathSet(events) && CoveredByAll(events, deepest);
      assert deepest in allowed;
      var k :| 0 <= k < |allowed| && allowed[k] == deepest;
      assert Covers(allowed[k], path);
    }
  }
}
