/** The in-degree check of workflow topologies (Kahn's algorithm). */
module TopologyCheck {
  import opened Cycles
  import Strings

  datatype Edge = Edge(source: string, target: string)

  function Relation(edges: seq<Edge>): Edges {
    set e | e in edges :: (e.source, e.target)
  }

  /** What the node and edge checks guarantee: declared endpoints and no repeated edge. */
  ghost predicate Declared(nodeIds: set<string>, edges: seq<Edge>) {
    && (forall e | e in edges :: e.source in nodeIds && e.target in nodeIds)
    && (forall i, j | 0 <= i < j < |edges| :: edges[i] != edges[j])
  }

  /** The predecessors of `target` not processed yet. */
  ghost function Waiting(nodeIds: set<string>, rel: Edges, done: set<string>, target: string): set<string> {
    set s | s in nodeIds && (s, target) in rel && s !in done
  }

  ghost function Elems(order: seq<string>): set<string> {
    set x | x in order
  }

  // ------------------------------------------------------------ counting edges

  ghost predicate Counted(nodeIds: set<string>, rel: Edges, incoming: map<string, int>) {
    incoming.Keys == nodeIds && forall t | t in nodeIds :: incoming[t] == |Waiting(nodeIds, rel, {}, t)|
  }

  ghost predicate Listed(nodeIds: set<string>, rel: Edges, children: map<string, seq<string>>) {
    children.Keys == nodeIds && forall s, t | s in nodeIds :: t in children[s] <==> (s, t) in rel
  }

  lemma RelationGrows(nodeIds: set<string>, edges: seq<Edge>, i: nat)
    requires Declared(nodeIds, edges) && i < |edges|
    ensures Relation(edges[..i + 1]) == Relation(edges[..i]) + {(edges[i].source, edges[i].target)}
    ensures (edges[i].source, edges[i].target) !in Relation(edges[..i])
    ensures edges[i].source in nodeIds && edges[i].target in nodeIds
  {
    assert edges[..i + 1] == edges[..i] + [edges[i]];
    assert edges[i] in edges;
    assert edges[i] !in edges[..i];
  }

  lemma CountOne(nodeIds: set<string>, rel: Edges, incoming: map<string, int>, source: string, target: string)
    requires Counted(nodeIds, rel, incoming) && source in nodeIds && target in nodeIds && (source, target) !in rel
    ensures Counted(nodeIds, rel + {(source, target)}, incoming[target := incoming[target] + 1])
  {
    var more := rel + {(source, target)};
    forall t | t in nodeIds
      ensures incoming[target := incoming[target] + 1][t] == |Waiting(nodeIds, more, {}, t)|
    {
      var before, after := Waiting(nodeIds, rel, {}, t), Waiting(nodeIds, more, {}, t);
      assert source !in Waiting(nodeIds, rel, {}, target);
      assert after == if t == target then before + {source} else before;
    }
  }

  lemma ListOne(nodeIds: set<string>, rel: Edges, children: map<string, seq<string>>, source: string, target: string)
    requires Listed(nodeIds, rel, children) && source in nodeIds
    ensures Listed(nodeIds, rel + {(source, target)}, children[source := children[source] + [target]])
  {
  }

  ghost predicate Tallied(nodeIds: set<string>, edges: seq<Edge>, i: nat, incoming: map<string, int>,
                          children: map<string, seq<string>>)
    requires i <= |edges|
  {
    && Counted(nodeIds, Relation(edges[..i]), incoming)
    && Listed(nodeIds, Relation(edges[..i]), children)
  }

  lemma TallyStart(nodeIds: set<string>, edges: seq<Edge>)
    ensures Tallied(nodeIds, edges, 0, map id | id in nodeIds :: 0, map id | id in nodeIds :: [])
  {
    assert forall t | t in nodeIds :: Waiting(nodeIds, Relation(edges[..0]), {}, t) == {};
  }

  lemma TallyOne(nodeIds: set<string>, edges: seq<Edge>, i: nat, incoming: map<string, int>,
                 children: map<string, seq<string>>)
    requires Declared(nodeIds, edges) && i < |edges| && Tallied(nodeIds, edges, i, incoming, children)
    ensures edges[i].source in children && edges[i].target in incoming
    ensures
      var source, target := edges[i].source, edges[i].target;
      Tallied(nodeIds, edges, i + 1, incoming[target := incoming[target] + 1],
              children[source := children[source] + [target]])
  {
    RelationGrows(nodeIds, edges, i);
    CountOne(nodeIds, Relation(edges[..i]), incoming, edges[i].source, edges[i].target);
    ListOne(nodeIds, Relation(edges[..i]), children, edges[i].source, edges[i].target);
  }

  /** Count in-degrees and list children. */
  method CountIncoming(nodeIds: set<string>, edges: seq<Edge>)
    returns (incoming: map<string, int>, children: map<string, seq<string>>)
    requires Declared(nodeIds, edges)
    ensures Tallied(nodeIds, edges, |edges|, incoming, children)
  {
    incoming := map id | id in nodeIds :: 0;
    children := map id | id in nodeIds :: [];
    var i := 0;
    TallyStart(nodeIds, edges);
    while i < |edges|
      invariant 0 <= i <= |edges|
      invariant Tallied(nodeIds, edges, i, incoming, children)
    {
      TallyOne(nodeIds, edges, i, incoming, children);
      var source, target := edges[i].source, edges[i].target;
      incoming := incoming[target := incoming[target] + 1];
      children := children[source := children[source] + [target]];
      i := i + 1;
    }
  }

  // ---------------------------------------------------------- releasing children

  /** The counter invariant: each counter equals the number of edges from unprocessed nodes;
      while `source` is being processed, only the children in `kids` have been told. */
  ghost predicate CountsOk(nodeIds: set<string>, rel: Edges, incoming: map<string, int>,
                           done: set<string>, source: string, kids: set<string>) {
    && incoming.Keys == nodeIds
    && forall t | t in nodeIds ::
         incoming[t] == |Waiting(nodeIds, rel, if t in kids then done + {source} else done, t)|
  }

  /** Ready are exactly the untaken nodes with a zero counter, each listed once. */
  ghost predicate ReadyOk(nodeIds: set<string>, incoming: map<string, int>, ready: seq<string>, taken: set<string>) {
    && incoming.Keys == nodeIds
    && (forall t | t in nodeIds :: t in taken || t in ready <==> incoming[t] == 0)
    && (forall t | t in ready :: t in nodeIds && t !in taken)
    && (forall i, j | 0 <= i < j < |ready| :: ready[i] != ready[j])
  }

  lemma ReadyAppend(nodeIds: set<string>, incoming: map<string, int>, ready: seq<string>, taken: set<string>,
                    target: string)
    requires ReadyOk(nodeIds, incoming, ready, taken)
    requires target in nodeIds && target !in taken && target !in ready
    ensures
      var next := incoming[target := incoming[target] - 1];
      ReadyOk(nodeIds, next, if next[target] == 0 then ready + [target] else ready, taken)
  {
  }

  lemma CountDown(nodeIds: set<string>, rel: Edges, incoming: map<string, int>, done: set<string>,
                  source: string, kids: set<string>, target: string)
    requires CountsOk(nodeIds, rel, incoming, done, source, kids)
    requires source in nodeIds && source !in done
    requires target in nodeIds && target !in kids && (source, target) in rel
    ensures CountsOk(nodeIds, rel, incoming[target := incoming[target] - 1], done, source, kids + {target})
    ensures incoming[target] > 0
  {
    var before := Waiting(nodeIds, rel, done, target);
    var after := Waiting(nodeIds, rel, done + {source}, target);
    assert source in before && after == before - {source};
    assert |before| == |after| + 1;
    forall t | t in nodeIds
      ensures incoming[target := incoming[target] - 1][t]
           == |Waiting(nodeIds, rel, if t in kids + {target} then done + {source} else done, t)|
    {
    }
  }

  ghost predicate ReleasedTo(nodeIds: set<string>, rel: Edges, incoming: map<string, int>, ready: seq<string>,
                             done: set<string>, source: string, kids: set<string>) {
    && source in nodeIds && source !in done
    && CountsOk(nodeIds, rel, incoming, done, source, kids)
    && ReadyOk(nodeIds, incoming, ready, done + {source})
  }

  lemma ReleaseOne(nodeIds: set<string>, rel: Edges, incoming: map<string, int>, ready: seq<string>,
                   done: set<string>, source: string, kids: seq<string>, k: nat)
    requires k < |kids| && Strings.Sorted(kids)
    requires ReleasedTo(nodeIds, rel, incoming, ready, done, source, Elems(kids[..k]))
    requires (source, kids[k]) in rel && kids[k] in nodeIds
    ensures kids[k] in incoming
    ensures
      var next := incoming[kids[k] := incoming[kids[k]] - 1];
      ReleasedTo(nodeIds, rel, next, if next[kids[k]] == 0 then ready + [kids[k]] else ready,
                 done, source, Elems(kids[..k + 1]))
  {
    assert kids[..k + 1] == kids[..k] + [kids[k]];
    assert Elems(kids[..k + 1]) == Elems(kids[..k]) + {kids[k]};
    CountDown(nodeIds, rel, incoming, done, source, Elems(kids[..k]), kids[k]);
    ReadyAppend(nodeIds, incoming, ready, done + {source}, kids[k]);
  }

  /** Lower the counter of every child; those reaching zero become ready. */
  method Release(nodeIds: set<string>, ghost rel: Edges, incoming0: map<string, int>, ready0: seq<string>,
                 ghost done: set<string>, source: string, kids: seq<string>)
    returns (incoming: map<string, int>, ready: seq<string>)
    requires ReleasedTo(nodeIds, rel, incoming0, ready0, done, source, {})
    requires Strings.Sorted(kids)
    requires forall t | t in kids :: (source, t) in rel && t in nodeIds
    ensures ReleasedTo(nodeIds, rel, incoming, ready, done, source, Elems(kids))
  {
    incoming, ready := incoming0, ready0;
    var k := 0;
    assert Elems(kids[..0]) == {};
    while k < |kids|
      invariant 0 <= k <= |kids|
      invariant ReleasedTo(nodeIds, rel, incoming, ready, done, source, Elems(kids[..k]))
    {
      assert kids[k] in kids;
      ReleaseOne(nodeIds, rel, incoming, ready, done, source, kids, k);
      var target := kids[k];
      incoming := incoming[target := incoming[target] - 1];
      if incoming[target] == 0 {
        ready := ready + [target];
      }
      k := k + 1;
    }
    assert kids[..|kids|] == kids;
  }

  // ------------------------------------------------------------------ the check

  /** The state whenever the loop looks at the ready list. */
  ghost predicate Progress(nodeIds: set<string>, rel: Edges, incoming: map<string, int>,
                           ready: seq<string>, order: seq<string>) {
    && Elems(order) <= nodeIds
    && CountsOk(nodeIds, rel, incoming, Elems(order), "", {})
    && ReadyOk(nodeIds, incoming, ready, Elems(order))
    && SinksFirst(Reverse(rel), order)
  }

  lemma TakeFirst(nodeIds: set<string>, rel: Edges, incoming: map<string, int>, ready: seq<string>,
                  order: seq<string>)
    requires Progress(nodeIds, rel, incoming, ready, order) && ready != []
    ensures ready[0] in nodeIds
    ensures ReleasedTo(nodeIds, rel, incoming, ready[1..], Elems(order), ready[0], {})
    ensures Waiting(nodeIds, rel, Elems(order), ready[0]) == {}
  {
    assert ready == [ready[0]] + ready[1..];
    assert ready[0] in ready;
  }

  lemma SourceTaken(nodeIds: set<string>, rel: Edges, incoming: map<string, int>, ready: seq<string>,
                    order: seq<string>, source: string, kids: set<string>)
    requires Elems(order) <= nodeIds && SinksFirst(Reverse(rel), order)
    requires ReleasedTo(nodeIds, rel, incoming, ready, Elems(order), source, kids)
    requires Waiting(nodeIds, rel, Elems(order), source) == {}
    requires forall t :: t in kids <==> (source, t) in rel
    requires forall e | e in rel :: e.0 in nodeIds && e.1 in nodeIds
    ensures Progress(nodeIds, rel, incoming, ready, order + [source])
  {
    var done := Elems(order);
    assert Elems(order + [source]) == done + {source};
    forall t | t in nodeIds ensures incoming[t] == |Waiting(nodeIds, rel, done + {source}, t)| {
      if t !in kids { assert Waiting(nodeIds, rel, done + {source}, t) == Waiting(nodeIds, rel, done, t); }
    }
    forall y | (source, y) in Reverse(rel) ensures y in order {
      assert y !in Waiting(nodeIds, rel, done, source);
    }
    OrderExtends(Reverse(rel), order, source);
  }

  lemma OrderBounded(nodeIds: set<string>, order: seq<string>)
    requires Elems(order) <= nodeIds
    requires forall i, j | 0 <= i < j < |order| :: order[i] != order[j]
    ensures |order| == |Elems(order)| <= |nodeIds|
    ensures |order| == |nodeIds| <==> Elems(order) == nodeIds
  {
    DistinctSize(order);
    assert nodeIds == Elems(order) + (nodeIds - Elems(order));
    assert |nodeIds| == |Elems(order)| + |nodeIds - Elems(order)|;
  }

  lemma {:induction false} DistinctSize(order: seq<string>)
    requires forall i, j | 0 <= i < j < |order| :: order[i] != order[j]
    ensures |Elems(order)| == |order|
  {
    if order == [] {
    } else {
      var n := |order| - 1;
      DistinctSize(order[..n]);
      assert Elems(order) == Elems(order[..n]) + {order[n]};
    }
  }

  /** With nothing ready: all nodes were taken, or the rest holds a cycle. */
  lemma Verdict(nodeIds: set<string>, rel: Edges, incoming: map<string, int>, order: seq<string>)
    requires Progress(nodeIds, rel, incoming, [], order)
    requires forall e | e in rel :: e.0 in nodeIds && e.1 in nodeIds
    ensures |order| == |nodeIds| <==> !HasCycle(rel)
  {
    var done := Elems(order);
    OrderBounded(nodeIds, order);
    ReverseCycle(rel);
    if done == nodeIds {
      OrderExcludesCycles(Reverse(rel), order);
    } else {
      var rest := nodeIds - done;
      forall y | y in rest ensures PrecededIn(rel, rest, y) {
        assert incoming[y] != 0;
        var z :| z in Waiting(nodeIds, rel, done, y);
      }
      assert rest != {};
      PredecessorsForceCycle(rel, rest);
    }
  }

  /** The topology check: `false` stands for the raised error. It accepts exactly the edge
      lists without a cycle. */
  method AssertAcyclic(nodeIds: set<string>, edges: seq<Edge>) returns (ok: bool)
    requires Declared(nodeIds, edges)
    ensures ok <==> !HasCycle(Relation(edges))
  {
    var incoming, children := CountIncoming(nodeIds, edges);
    ghost var rel := Relation(edges);
    assert edges[..|edges|] == edges;
    var ready := Strings.SortSet(set id | id in nodeIds && incoming[id] == 0);
    var visited := 0;
    ghost var order: seq<string> := [];
    assert Elems(order) == {};
    while ready != []
      invariant Progress(nodeIds, rel, incoming, ready, order)
      invariant visited == |order| <= |nodeIds|
      decreases |nodeIds| - visited
    {
      var source := ready[0];
      TakeFirst(nodeIds, rel, incoming, ready, order);
      var kids := Strings.SortSet(set t | t in children[source]);
      incoming, ready := Release(nodeIds, rel, incoming, ready[1..], Elems(order), source, kids);
      SourceTaken(nodeIds, rel, incoming, ready, order, source, Elems(kids));
      order := order + [source];
      OrderBounded(nodeIds, order);
      visited := visited + 1;
    }
    ok := visited == |nodeIds|;
    Verdict(nodeIds, rel, incoming, order);
  }
}
