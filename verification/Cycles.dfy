/**
 The one specification of both cycle checkers: a cycle of a finite relation, what rules
 cycles out (a topological order), and what forces one (a non-empty set in which every
 node has a neighbour inside the set).
 */
module Cycles {

  type Edges = set<(string, string)>

  ghost predicate IsPath(edges: Edges, p: seq<string>) {
    forall i | 0 <= i < |p| - 1 :: (p[i], p[i + 1]) in edges
  }

  /** A closed walk with at least one edge. */
  ghost predicate IsCycle(edges: Edges, p: seq<string>) {
    |p| >= 2 && p[0] == p[|p| - 1] && IsPath(edges, p)
  }

  ghost predicate HasCycle(edges: Edges) {
    exists p :: IsCycle(edges, p)
  }

  ghost predicate Occurs(order: seq<string>, x: string, before: nat) {
    exists i :: 0 <= i < before && i < |order| && order[i] == x
  }

  /** `order` lists nodes without repetition, and every successor of a listed node is listed
      strictly earlier. */
  ghost predicate SinksFirst(edges: Edges, order: seq<string>) {
    && (forall i, j | 0 <= i < j < |order| :: order[i] != order[j])
    && (forall i, y | 0 <= i < |order| && (order[i], y) in edges :: Occurs(order, y, i))
  }

  lemma OrderExtends(edges: Edges, order: seq<string>, x: string)
    requires SinksFirst(edges, order) && x !in order
    requires forall y | (x, y) in edges :: y in order
    ensures SinksFirst(edges, order + [x])
  {
    var next := order + [x];
    forall i, y | 0 <= i < |next| && (next[i], y) in edges ensures Occurs(next, y, i) {
      if i < |order| { assert Occurs(order, y, i); }
      var j :| 0 <= j < i && j < |order| && order[j] == y;
      assert next[j] == y;
    }
  }

  /** Walking along edges from position `i` of such an order only moves to earlier positions. */
  lemma {:induction false} PathDescends(edges: Edges, order: seq<string>, p: seq<string>, i: nat)
    requires SinksFirst(edges, order) && IsPath(edges, p) && |p| >= 1
    requires i < |order| && order[i] == p[0]
    ensures exists j :: 0 <= j <= i - (|p| - 1) && order[j] == p[|p| - 1]
    decreases |p|
  {
    if |p| == 1 {
    } else {
      assert (p[0], p[1]) in edges;
      assert Occurs(order, p[1], i);
      var k :| 0 <= k < i && k < |order| && order[k] == p[1];
      assert IsPath(edges, p[1..]) by {
        forall m | 0 <= m < |p[1..]| - 1 ensures (p[1..][m], p[1..][m + 1]) in edges {
          assert (p[m + 1], p[m + 2]) in edges;
        }
      }
      PathDescends(edges, order, p[1..], k);
    }
  }

  /** A graph all of whose edge sources are so ordered has no cycle. */
  lemma OrderExcludesCycles(edges: Edges, order: seq<string>)
    requires SinksFirst(edges, order)
    requires forall e | e in edges :: e.0 in order
    ensures !HasCycle(edges)
  {
    forall p | IsCycle(edges, p) ensures false {
      assert (p[0], p[1]) in edges;
      var i :| 0 <= i < |order| && order[i] == p[0];
      PathDescends(edges, order, p, i);
    }
  }

  /** Pigeonhole: a sequence over a set, longer than the set, repeats. */
  lemma {:induction false} Repeats(s: set<string>, p: seq<string>)
    requires forall i | 0 <= i < |p| :: p[i] in s
    requires |p| > |s|
    ensures exists i, j :: 0 <= i < j < |p| && p[i] == p[j]
    decreases |p|
  {
    var x := p[0];
    if j :| 1 <= j < |p| && p[j] == x {
      assert p[0] == p[j];
    } else {
      var rest := p[1..];
      assert |s - {x}| == |s| - 1;
      forall i | 0 <= i < |rest| ensures rest[i] in s - {x} { assert rest[i] == p[i + 1]; }
      Repeats(s - {x}, rest);
      var i, j :| 0 <= i < j < |rest| && rest[i] == rest[j];
      assert p[i + 1] == p[j + 1];
    }
  }

  ghost predicate PrecededIn(edges: Edges, s: set<string>, y: string) {
    exists z :: z in s && (z, y) in edges
  }

  ghost predicate AllPreceded(edges: Edges, s: set<string>) {
    forall y {:trigger PrecededIn(edges, s, y)} | y in s :: PrecededIn(edges, s, y)
  }

  /** Walking backwards inside a set in which every node has a predecessor. */
  lemma {:induction false} WalkBack(edges: Edges, s: set<string>, x: string, n: nat) returns (p: seq<string>)
    requires x in s
    requires AllPreceded(edges, s)
    ensures |p| == n + 1 && IsPath(edges, p) && forall i | 0 <= i < |p| :: p[i] in s
  {
    if n == 0 {
      p := [x];
    } else {
      var q := WalkBack(edges, s, x, n - 1);
      assert PrecededIn(edges, s, q[0]);
      var z :| z in s && (z, q[0]) in edges;
      p := [z] + q;
    }
  }

  lemma PredecessorsForceCycle(edges: Edges, s: set<string>)
    requires s != {}
    requires AllPreceded(edges, s)
    ensures HasCycle(edges)
  {
    var x :| x in s;
    var p := WalkBack(edges, s, x, |s|);
    Repeats(s, p);
    var i, j :| 0 <= i < j < |p| && p[i] == p[j];
    var c := p[i..j + 1];
    assert IsCycle(edges, c) by {
      forall m | 0 <= m < |c| - 1 ensures (c[m], c[m + 1]) in edges {
        assert (p[i + m], p[i + m + 1]) in edges;
      }
    }
  }

  function Reverse(edges: Edges): Edges {
    set e | e in edges :: (e.1, e.0)
  }

  /** Reading every edge backwards turns cycles into cycles. */
  lemma ReverseCycle(edges: Edges)
    ensures HasCycle(edges) ==> HasCycle(Reverse(edges))
  {
    if p :| IsCycle(edges, p) {
      var n := |p| - 1;
      var q := seq(|p|, i requires 0 <= i < |p| => p[n - i]);
      forall i | 0 <= i < |q| - 1 ensures (q[i], q[i + 1]) in Reverse(edges) {
        assert (p[n - i - 1], p[n - i - 1 + 1]) in edges;
      }
      assert IsCycle(Reverse(edges), q);
    }
  }
}
