/**
 The two bounded worklists of the source scanner, over an abstract successor relation: what
 syntax-tree inspection finds at a node is given by functions.
 */
module Closures {
  import opened Prelude

  const BOUND := 64

  // --------------------------------------------- constructor resource closure

  /** A class definition: its name, and the node it is in its syntax tree. */
  datatype Class = Class(name: string, node: nat)

  /** One pending constructor: the module it counts for, the tree names are resolved in, the
      class, its `__init__` node, and the parameter that carries the resource. Work is
      deduplicated on the module, the name of the class and the parameter only. */
  datatype Site = Site(moduleName: string, tree: nat, owner: Class, init: nat, resource: string)

  datatype Key = Key(moduleName: string, owner: string, resource: string)

  datatype SourceRow = SourceRow(path: string, sha: string, owner: string)

  function KeyOf(s: Site): Key {
    Key(s.moduleName, s.owner.name, s.resource)
  }

  /** The paths of the modules known by one name, and the digests recorded on trees. */
  datatype Sources = Sources(paths: map<string, string>, digests: map<nat, string>)

  /** The source row of a site, unless its module or its digest is unknown. */
  function Locate(known: Sources, s: Site): Option<SourceRow> {
    if s.moduleName !in known.paths || known.paths[s.moduleName] == "" || s.tree !in known.digests then None
    else Some(SourceRow(known.paths[s.moduleName], known.digests[s.tree], s.owner.name))
  }

  /** Checks every use of the resource in the constructor and lists the constructors it is
      forwarded to; it may refuse. */
  type Visit = Site -> Option<seq<Site>>

  ghost predicate IsRoute(visit: Visit, p: seq<Site>) {
    forall i | 0 <= i < |p| - 1 :: visit(p[i]).Some? && p[i + 1] in visit(p[i]).value
  }

  ghost predicate Reachable(visit: Visit, start: Site, x: Site) {
    exists p :: |p| >= 1 && p[0] == start && p[|p| - 1] == x && IsRoute(visit, p)
  }

  lemma ReachableStep(visit: Visit, start: Site, x: Site, y: Site)
    requires Reachable(visit, start, x) && visit(x).Some? && y in visit(x).value
    ensures Reachable(visit, start, y)
  {
    var p :| |p| >= 1 && p[0] == start && p[|p| - 1] == x && IsRoute(visit, p);
    var q := p + [y];
    assert IsRoute(visit, q) && q[|q| - 1] == y;
  }

  ghost predicate HasKey(sites: seq<Site>, key: Key) {
    exists i :: 0 <= i < |sites| && KeyOf(sites[i]) == key
  }

  /** Sites taken from the worklist so far: located, checked, reachable, one per key. */
  ghost predicate Processed(known: Sources, visit: Visit, start: Site, done: seq<Site>, rows: seq<SourceRow>) {
    && |rows| == |done| <= BOUND
    && (forall i | 0 <= i < |done| ::
          && Reachable(visit, start, done[i])
          && Locate(known, done[i]) == Some(rows[i])
          && visit(done[i]).Some?)
    && (forall i, j | 0 <= i < j < |done| :: KeyOf(done[i]) != KeyOf(done[j]))
  }

  /** Everything forwarded to has been taken or is still pending. */
  ghost predicate Covered(visit: Visit, done: seq<Site>, pending: seq<Site>) {
    forall i, y | 0 <= i < |done| && visit(done[i]).Some? && y in visit(done[i]).value ::
      HasKey(done, KeyOf(y)) || y in pending
  }

  predicate Refusing(known: Sources, visit: Visit, x: Site) {
    Locate(known, x).None? || visit(x).None?
  }

  lemma KeyCount(done: seq<Site>, visited: set<Key>)
    requires forall k :: k in visited <==> HasKey(done, k)
    requires forall i, j | 0 <= i < j < |done| :: KeyOf(done[i]) != KeyOf(done[j])
    ensures |visited| == |done|
  {
    if done == [] {
      assert visited == {};
    } else {
      var n := |done| - 1;
      var key := KeyOf(done[n]);
      assert HasKey(done, key);
      forall k ensures k in visited - {key} <==> HasKey(done[..n], k) {
        if k in visited && k != key {
          var i :| 0 <= i < |done| && KeyOf(done[i]) == k;
          assert done[..n][i] == done[i];
        }
        if HasKey(done[..n], k) {
          var i :| 0 <= i < n && KeyOf(done[..n][i]) == k;
          assert KeyOf(done[i]) == k;
        }
      }
      KeyCount(done[..n], visited - {key});
    }
  }

  /** Take one site: its key is new, it is located and checked, its targets become pending. */
  lemma TakeSite(known: Sources, visit: Visit, start: Site, done: seq<Site>, rows: seq<SourceRow>,
                 pending: seq<Site>, site: Site)
    requires Processed(known, visit, start, done, rows) && |done| < BOUND
    requires Covered(visit, done, pending + [site])
    requires Reachable(visit, start, site) && !HasKey(done, KeyOf(site))
    requires Locate(known, site).Some? && visit(site).Some?
    ensures Processed(known, visit, start, done + [site], rows + [Locate(known, site).value])
    ensures Covered(visit, done + [site], pending + visit(site).value)
  {
    var next := done + [site];
    KeysAppend(done, site);
    forall i, y | 0 <= i < |next| && visit(next[i]).Some? && y in visit(next[i]).value
      ensures HasKey(next, KeyOf(y)) || y in pending + visit(site).value
    {
      if i < |done| { assert HasKey(done, KeyOf(y)) || y in pending + [site]; }
    }
    forall i | 0 <= i < |done| ensures KeyOf(done[i]) != KeyOf(site) {
      assert HasKey(done, KeyOf(done[i]));
    }
  }

  lemma KeysAppend(done: seq<Site>, site: Site)
    ensures forall k :: HasKey(done + [site], k) <==> HasKey(done, k) || k == KeyOf(site)
  {
    var next := done + [site];
    forall k | HasKey(done, k) ensures HasKey(next, k) {
      var i :| 0 <= i < |done| && KeyOf(done[i]) == k;
      assert KeyOf(next[i]) == k;
    }
    assert KeyOf(next[|done|]) == KeyOf(site);
  }

  lemma DropSite(visit: Visit, done: seq<Site>, pending: seq<Site>, site: Site)
    requires Covered(visit, done, pending + [site]) && HasKey(done, KeyOf(site))
    ensures Covered(visit, done, pending)
  {
    forall i, y | 0 <= i < |done| && visit(done[i]).Some? && y in visit(done[i]).value
      ensures HasKey(done, KeyOf(y)) || y in pending
    {
      assert HasKey(done, KeyOf(y)) || y in pending + [site];
    }
  }

  /** The worklist as a function: what the closure answers from any of its states. */
  function Closure(known: Sources, visit: Visit, pending: seq<Site>, visited: set<Key>, rows: seq<SourceRow>)
    : Option<seq<SourceRow>>
    decreases BOUND - |visited|, |pending|
  {
    if pending == [] then Some(rows)
    else if |visited| >= BOUND then None
    else
      var site, rest := pending[|pending| - 1], pending[..|pending| - 1];
      if KeyOf(site) in visited then Closure(known, visit, rest, visited, rows)
      else if Refusing(known, visit, site) then None
      else
        assert |visited + {KeyOf(site)}| == |visited| + 1;
        Closure(known, visit, rest + visit(site).value, visited + {KeyOf(site)}, rows + [Locate(known, site).value])
  }

  /** What an answer of the worklist rests on: a result lists one source row per site taken;
      each is reachable and passed its check, and everything it forwards to was taken (by
      key). Refusal has a reason: a reachable site that fails, or 64 distinct keys. */
  ghost predicate Justified(known: Sources, visit: Visit, start: Site, taken: seq<Site>,
                            answer: Option<seq<SourceRow>>) {
    if answer.Some? then
      Processed(known, visit, start, taken, answer.value) && Covered(visit, taken, []) && HasKey(taken, KeyOf(start))
    else
      || (exists x :: Reachable(visit, start, x) && Refusing(known, visit, x))
      || (|taken| == BOUND && exists rows :: Processed(known, visit, start, taken, rows))
  }

  ghost predicate Working(known: Sources, visit: Visit, start: Site, pending: seq<Site>, visited: set<Key>,
                          done: seq<Site>, rows: seq<SourceRow>) {
    && (forall x | x in pending :: Reachable(visit, start, x))
    && Processed(known, visit, start, done, rows)
    && Covered(visit, done, pending)
    && (HasKey(done, KeyOf(start)) || start in pending)
    && (forall k :: k in visited <==> HasKey(done, k))
  }

  lemma SiteTaken(known: Sources, visit: Visit, start: Site, rest: seq<Site>, site: Site, visited: set<Key>,
                  done: seq<Site>, rows: seq<SourceRow>)
    requires Working(known, visit, start, rest + [site], visited, done, rows) && |done| < BOUND
    requires KeyOf(site) !in visited && !Refusing(known, visit, site)
    ensures Working(known, visit, start, rest + visit(site).value, visited + {KeyOf(site)}, done + [site],
                    rows + [Locate(known, site).value])
  {
    assert Reachable(visit, start, site) by { assert site in rest + [site]; }
    TakeSite(known, visit, start, done, rows, rest, site);
    KeysAppend(done, site);
    forall y | y in visit(site).value ensures Reachable(visit, start, y) { ReachableStep(visit, start, site, y); }
    forall x | x in rest ensures Reachable(visit, start, x) { assert x in rest + [site]; }
  }

  lemma {:induction false} ClosureJustified(known: Sources, visit: Visit, start: Site, pending: seq<Site>,
                                            visited: set<Key>, done: seq<Site>, rows: seq<SourceRow>)
    returns (taken: seq<Site>)
    requires Working(known, visit, start, pending, visited, done, rows)
    ensures Justified(known, visit, start, taken, Closure(known, visit, pending, visited, rows))
    decreases BOUND - |visited|, |pending|
  {
    taken := done;
    if pending != [] {
      KeyCount(done, visited);
      if |visited| < BOUND {
        var site, rest := pending[|pending| - 1], pending[..|pending| - 1];
        assert pending == rest + [site];
        if KeyOf(site) in visited {
          DropSite(visit, done, rest, site);
          taken := ClosureJustified(known, visit, start, rest, visited, done, rows);
        } else if Refusing(known, visit, site) {
          assert Reachable(visit, start, site);
        } else {
          SiteTaken(known, visit, start, rest, site, visited, done, rows);
          assert |visited + {KeyOf(site)}| == |visited| + 1;
          taken := ClosureJustified(known, visit, start, rest + visit(site).value, visited + {KeyOf(site)},
                                    done + [site], rows + [Locate(known, site).value]);
        }
      }
    }
  }

  lemma ClosureAnswer(known: Sources, visit: Visit, start: Site) returns (taken: seq<Site>)
    ensures Justified(known, visit, start, taken, Closure(known, visit, [start], {}, []))
  {
    assert IsRoute(visit, [start]) && [start][|[start]| - 1] == start;
    assert Reachable(visit, start, start);
    taken := ClosureJustified(known, visit, start, [start], {}, [], []);
  }

  /** Follow a resource through constructors, one pending site at a time. */
  method ConstructorResourceClosure(start: Site, known: Sources, visit: Visit)
    returns (sources: Option<seq<SourceRow>>, ghost taken: seq<Site>)
    ensures sources == Closure(known, visit, [start], {}, [])
    ensures Justified(known, visit, start, taken, sources)
  {
    taken := ClosureAnswer(known, visit, start);
    var pending := [start];
    var visited: set<Key> := {};
    var rows: seq<SourceRow> := [];
    ghost var answer := Closure(known, visit, [start], {}, []);
    while pending != []
      invariant Closure(known, visit, pending, visited, rows) == answer
      decreases BOUND - |visited|, |pending|
    {
      if |visited| >= BOUND {
        return None, taken;
      }
      var site := pending[|pending| - 1];
      pending := pending[..|pending| - 1];
      if KeyOf(site) in visited {
        continue;
      }
      var row := Locate(known, site);
      if row.None? {
        return None, taken;
      }
      var targets := visit(site);
      if targets.None? {
        return None, taken;
      }
      assert |visited + {KeyOf(site)}| == |visited| + 1;
      visited := visited + {KeyOf(site)};
      rows := rows + [row.value];
      pending := pending + targets.value;
    }
    sources := Some(rows);
  }

  /** No two constructors that the resource can reach share a key. */
  ghost predicate KeysDetermineSites(visit: Visit, start: Site) {
    forall a, b | Reachable(visit, start, a) && Reachable(visit, start, b) && KeyOf(a) == KeyOf(b) :: a == b
  }

  /** A result has visited and checked every constructor the resource can reach exactly when
      the deduplication key determines the constructor. */
  lemma ClosureComplete(start: Site, known: Sources, visit: Visit, taken: seq<Site>, rows: seq<SourceRow>)
    requires Processed(known, visit, start, taken, rows) && Covered(visit, taken, []) && HasKey(taken, KeyOf(start))
    ensures (forall x | Reachable(visit, start, x) :: x in taken) <==> KeysDetermineSites(visit, start)
    ensures KeysDetermineSites(visit, start) ==>
      forall x | Reachable(visit, start, x) :: !Refusing(known, visit, x)
  {
    if KeysDetermineSites(visit, start) {
      forall x | Reachable(visit, start, x) ensures x in taken {
        var p :| |p| >= 1 && p[0] == start && p[|p| - 1] == x && IsRoute(visit, p);
        RouteTaken(start, known, visit, taken, rows, p);
      }
    }
    if forall x | Reachable(visit, start, x) :: x in taken {
      forall a, b | Reachable(visit, start, a) && Reachable(visit, start, b) && KeyOf(a) == KeyOf(b) ensures a == b {
        assert a in taken && b in taken;
      }
    }
  }

  lemma {:induction false} RouteTaken(start: Site, known: Sources, visit: Visit, taken: seq<Site>,
                                      rows: seq<SourceRow>, p: seq<Site>)
    requires Processed(known, visit, start, taken, rows) && Covered(visit, taken, []) && HasKey(taken, KeyOf(start))
    requires KeysDetermineSites(visit, start)
    requires |p| >= 1 && p[0] == start && IsRoute(visit, p)
    ensures p[|p| - 1] in taken
    decreases |p|
  {
    var n := |p| - 1;
    var y := p[n];
    assert Reachable(visit, start, y);
    if n > 0 {
      RouteTaken(start, known, visit, taken, rows, p[..n]);
      var i :| 0 <= i < |taken| && taken[i] == p[n - 1];
      assert HasKey(taken, KeyOf(y));
    }
    var j :| 0 <= j < |taken| && KeyOf(taken[j]) == KeyOf(y);
    assert Reachable(visit, start, taken[j]);
  }

  lemma TakeOne(known: Sources, visit: Visit, rest: seq<Site>, site: Site, visited: set<Key>, rows: seq<SourceRow>)
    requires |visited| < BOUND && KeyOf(site) !in visited && !Refusing(known, visit, site)
    ensures Closure(known, visit, rest + [site], visited, rows)
         == Closure(known, visit, rest + visit(site).value, visited + {KeyOf(site)}, rows + [Locate(known, site).value])
  {
    assert (rest + [site])[..|rest|] == rest;
  }

  lemma DropOne(known: Sources, visit: Visit, rest: seq<Site>, site: Site, visited: set<Key>, rows: seq<SourceRow>)
    requires |visited| < BOUND && KeyOf(site) in visited
    ensures Closure(known, visit, rest + [site], visited, rows) == Closure(known, visit, rest, visited, rows)
  {
    assert (rest + [site])[..|rest|] == rest;
  }

  /** A constructor that shares the key of the one it is reached from is never looked at. */
  lemma SharedKeySkipped(known: Sources, visit: Visit, start: Site, hidden: Site)
    requires KeyOf(start) == KeyOf(hidden) && Locate(known, start).Some? && visit(start) == Some([hidden])
    ensures Reachable(visit, start, hidden)
    ensures Closure(known, visit, [start], {}, []) == Some([Locate(known, start).value])
  {
    assert IsRoute(visit, [start]) && [start][|[start]| - 1] == start;
    assert Reachable(visit, start, start);
    ReachableStep(visit, start, start, hidden);
    var row := Locate(known, start).value;
    assert [] + [start] == [start] && [] + [hidden] == [hidden] && [] + [row] == [row];
    assert {} + {KeyOf(start)} == {KeyOf(start)};
    TakeOne(known, visit, [], start, {}, []);
    DropOne(known, visit, [], hidden, {KeyOf(start)}, [row]);
  }

  /** The failing case: the closure starts in a module with a class imported there under
      another name, and that class forwards the resource to a class of the module that has the
      same name. The second one shares the key of the first, so it is skipped, although its
      own check would refuse; and the closure answers with the first row alone. */
  lemma SharedKeySkipsExample() returns (start: Site, hidden: Site, known: Sources, visit: Visit)
    ensures start.moduleName == hidden.moduleName && start.tree == hidden.tree && start.owner != hidden.owner
    ensures Reachable(visit, start, hidden) && Refusing(known, visit, hidden)
    ensures Closure(known, visit, [start], {}, []) == Some([SourceRow("app.py", "digest", "Server")])
  {
    start := Site("app", 0, Class("Server", 1), 2, "store");
    hidden := Site("app", 0, Class("Server", 3), 4, "store");
    known := Sources(map["app" := "app.py"], map[0 := "digest"]);
    var first, second := start, hidden;
    visit := s => if s == first then Some([second]) else None;
    SharedKeySkipped(known, visit, start, hidden);
  }

  // ------------------------------------------------------- handler reachability

  const ENTRY := "do_POST"

  /** Closed under self-calls to methods of the class, and containing the entry method. */
  ghost predicate ClosedUnder(methods: map<string, seq<string>>, s: set<string>) {
    && (ENTRY in methods ==> ENTRY in s)
    && forall name, callee | name in s && name in methods && callee in methods[name] && callee in methods :: callee in s
  }

  /** Methods reachable from the entry by self-calls. The result lies inside every closed
      set; below the bound it is closed itself, so it is the least closed set. */
  method HandlerReachable(methods: map<string, seq<string>>) returns (reachable: set<string>)
    ensures reachable <= methods.Keys && |reachable| <= BOUND
    ensures forall s | ClosedUnder(methods, s) :: reachable <= s
    ensures |reachable| < BOUND ==> ClosedUnder(methods, reachable)
  {
    reachable := {};
    var pending := [ENTRY];
    while pending != [] && |reachable| < BOUND
      invariant reachable <= methods.Keys && |reachable| <= BOUND
      invariant forall s | ClosedUnder(methods, s) :: reachable <= s
      invariant forall s, name | ClosedUnder(methods, s) && name in pending && name in methods :: name in s
      invariant ENTRY in reachable || ENTRY in pending || ENTRY !in methods
      invariant forall name, callee | name in reachable && callee in methods[name] && callee in methods ::
        callee in reachable || callee in pending
      decreases BOUND - |reachable|, |pending|
    {
      var name := pending[|pending| - 1];
      var rest := pending[..|pending| - 1];
      assert pending == rest + [name];
      pending := rest;
      if name in reachable || name !in methods {
        continue;
      }
      assert |reachable + {name}| == |reachable| + 1;
      reachable := reachable + {name};
      pending := pending + methods[name];
    }
  }
}
