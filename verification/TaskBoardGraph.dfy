/** The depth-first dependency check of the task board, and its agreement with the
    in-degree check. */
module TaskBoardGraph {
  import opened Cycles
  import Strings
  import TopologyCheck

  datatype Verdict = Accepted | UnknownDependency | CyclicDependencies

  function Dependencies(byId: map<string, seq<string>>): Edges {
    set id, d | id in byId && d in byId[id] :: (id, d)
  }

  ghost predicate Elements(s: set<string>, xs: seq<string>) {
    && (forall x :: x in s <==> x in xs)
    && (forall i, j | 0 <= i < j < |xs| :: xs[i] != xs[j])
  }

  /** The walk over one board; `visiting` and `visited` are the sets the check mutates, the
      ghost fields record the order in which nodes entered and left. */
  class Walk {
    const byId: map<string, seq<string>>
    var visiting: set<string>
    var visited: set<string>
    ghost var stack: seq<string>
    ghost var finished: seq<string>

    constructor (byId: map<string, seq<string>>)
      ensures this.byId == byId && Valid() && visiting == {} && visited == {} && stack == [] && finished == []
    {
      this.byId := byId;
      visiting, visited, stack, finished := {}, {}, [], [];
    }

    ghost predicate Valid()
      reads this
    {
      && Elements(visiting, stack)
      && Elements(visited, finished)
      && visiting !! visited
      && visiting + visited <= byId.Keys
      && IsPath(Dependencies(byId), stack)
      && SinksFirst(Dependencies(byId), finished)
    }

    /** Visit one task. `false` stands for the raised cycle error. On normal return the
        stack is back where it was and the task has finished after all its dependencies. */
    method Visit(id: string) returns (ok: bool)
      requires Valid() && id in byId
      requires Closed(byId)
      requires stack != [] ==> (stack[|stack| - 1], id) in Dependencies(byId)
      modifies this
      ensures !ok ==> HasCycle(Dependencies(byId))
      ensures ok ==> Valid() && id in visited && old(finished) <= finished && old(visited) <= visited
      ensures ok ==> stack == old(stack) && visiting == old(visiting)
      decreases byId.Keys - visiting
    {
      if id in visiting {
        BackEdge(Dependencies(byId), stack, id);
        return false;
      }
      if id in visited {
        return true;
      }
      PathExtends(Dependencies(byId), stack, id);
      visiting := visiting + {id};
      stack := stack + [id];
      var deps := byId[id];
      var k := 0;
      while k < |deps|
        invariant 0 <= k <= |deps|
        invariant Valid()
        invariant stack == old(stack) + [id] && visiting == old(visiting) + {id}
        invariant old(finished) <= finished && old(visited) <= visited
        invariant forall m | 0 <= m < k :: deps[m] in visited
      {
        assert deps[k] in deps && (id, deps[k]) in Dependencies(byId);
        ok := Visit(deps[k]);
        if !ok {
          return false;
        }
        k := k + 1;
      }
      assert stack[..|stack| - 1] == old(stack);
      assert forall d | (id, d) in Dependencies(byId) :: d in deps;
      Leave(id);
      ok := true;
    }

    /** The task on top of the stack is finished: all its dependencies are. */
    method Leave(id: string)
      requires Valid() && stack != [] && stack[|stack| - 1] == id && id in visiting
      requires forall d | (id, d) in Dependencies(byId) :: d in visited
      modifies this
      ensures Valid()
      ensures stack == old(stack)[..|old(stack)| - 1] && visiting == old(visiting) - {id}
      ensures finished == old(finished) + [id] && visited == old(visited) + {id}
    {
      OrderExtends(Dependencies(byId), finished, id);
      visiting := visiting - {id};
      visited := visited + {id};
      stack := stack[..|stack| - 1];
      finished := finished + [id];
    }
  }

  lemma PathExtends(edges: Edges, p: seq<string>, x: string)
    requires IsPath(edges, p) && (p != [] ==> (p[|p| - 1], x) in edges)
    ensures IsPath(edges, p + [x])
  {
  }

  /** An edge from the top of the stack to a node on the stack closes a cycle. */
  lemma BackEdge(edges: Edges, stack: seq<string>, x: string)
    requires IsPath(edges, stack) && x in stack && (stack[|stack| - 1], x) in edges
    ensures HasCycle(edges)
  {
    var i :| 0 <= i < |stack| && stack[i] == x;
    var c := stack[i..] + [x];
    forall m | 0 <= m < |c| - 1 ensures (c[m], c[m + 1]) in edges {
      if m < |stack| - i - 1 { assert (stack[i + m], stack[i + m + 1]) in edges; }
    }
    assert IsCycle(edges, c);
  }

  ghost predicate Closed(byId: map<string, seq<string>>) {
    forall e | e in Dependencies(byId) :: e.1 in byId
  }

  /** Look for a card with a dependency that has no card. */
  method HasUnknown(byId: map<string, seq<string>>) returns (unknown: bool)
    ensures unknown <==> !Closed(byId)
  {
    var ids := byId.Keys;
    while ids != {}
      invariant ids <= byId.Keys
      invariant forall id, d | id in byId && id !in ids && d in byId[id] :: d in byId
      decreases |ids|
    {
      var id :| id in ids;
      var missing := set d | d in byId[id] && d !in byId;
      if missing != {} {
        ghost var d :| d in missing;
        assert (id, d) in Dependencies(byId);
        return true;
      }
      assert forall d | d in byId[id] :: d !in missing;
      assert |ids - {id}| == |ids| - 1;
      ids := ids - {id};
    }
    unknown := false;
  }

  /** The board check: a missing dependency is reported first; then a cycle is reported
      exactly when the dependency relation has one; otherwise every task has been visited,
      each after all its dependencies. */
  method ValidateTaskBoardGraph(byId: map<string, seq<string>>) returns (verdict: Verdict, ghost finished: seq<string>)
    ensures verdict == UnknownDependency <==> !Closed(byId)
    ensures verdict == CyclicDependencies <==> Closed(byId) && HasCycle(Dependencies(byId))
    ensures verdict == Accepted ==>
      SinksFirst(Dependencies(byId), finished) && forall id :: id in finished <==> id in byId
  {
    finished := [];
    var unknown := HasUnknown(byId);
    if unknown {
      return UnknownDependency, [];
    }
    var ids := Strings.SortSet(byId.Keys);
    var walk := new Walk(byId);
    var i := 0;
    while i < |ids|
      invariant 0 <= i <= |ids|
      invariant walk.byId == byId && walk.Valid() && walk.stack == [] && walk.visiting == {}
      invariant forall k | 0 <= k < i :: ids[k] in walk.visited
    {
      assert ids[i] in ids;
      var ok := walk.Visit(ids[i]);
      if !ok {
        return CyclicDependencies, [];
      }
      i := i + 1;
    }
    finished := walk.finished;
    OrderExcludesCycles(Dependencies(byId), finished);
    return Accepted, finished;
  }

  /** The two independent checkers decide the same relation alike, on every graph. */
  method CrossCheck(byId: map<string, seq<string>>, edges: seq<TopologyCheck.Edge>)
    returns (topologyOk: bool, boardVerdict: Verdict)
    requires TopologyCheck.Declared(byId.Keys, edges)
    requires TopologyCheck.Relation(edges) == Dependencies(byId)
    ensures topologyOk <==> boardVerdict == Accepted
    ensures !topologyOk <==> boardVerdict == CyclicDependencies
  {
    topologyOk := TopologyCheck.AssertAcyclic(byId.Keys, edges);
    ghost var finished;
    boardVerdict, finished := ValidateTaskBoardGraph(byId);
    assert Closed(byId);
  }
}
