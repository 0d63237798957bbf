/** Code-point order on strings, and the sorted list of a finite set of strings. */
module Strings {

  predicate Before(a: string, b: string) {
    if a == [] then true
    else if b == [] then false
    else if a[0] == b[0] then Before(a[1..], b[1..])
    else a[0] < b[0]
  }

  lemma {:induction false} BeforeTotal(a: string, b: string)
    ensures Before(a, b) || Before(b, a)
    ensures Before(a, b) && Before(b, a) ==> a == b
  {
    if a != [] && b != [] && a[0] == b[0] {
      BeforeTotal(a[1..], b[1..]);
      assert a == [a[0]] + a[1..] && b == [b[0]] + b[1..];
    }
  }

  lemma {:induction false} BeforeTransitive(a: string, b: string, c: string)
    requires Before(a, b) && Before(b, c)
    ensures Before(a, c)
  {
    if a != [] && b != [] && c != [] && a[0] == b[0] == c[0] {
      BeforeTransitive(a[1..], b[1..], c[1..]);
    }
  }

  predicate Least(s: set<string>, m: string) {
    m in s && forall k | k in s :: Before(m, k)
  }

  lemma {:induction false} LeastExists(s: set<string>)
    requires s != {}
    ensures exists m :: Least(s, m)
    decreases |s|
  {
    var x :| x in s;
    BeforeTotal(x, x);
    if s == {x} {
      assert Least(s, x);
    } else {
      var rest := s - {x};
      assert |rest| == |s| - 1;
      assert s == rest + {x};
      LeastExists(rest);
      var m :| Least(rest, m);
      BeforeTotal(x, m);
      var least := if Before(x, m) then x else m;
      forall k | k in s ensures Before(least, k) {
        if k in rest && Before(x, m) { BeforeTransitive(x, m, k); }
      }
      assert Least(s, least);
    }
  }

  lemma LeastUnique(s: set<string>)
    ensures forall m, n | Least(s, m) && Least(s, n) :: m == n
  {
    forall m, n | Least(s, m) && Least(s, n) ensures m == n { BeforeTotal(m, n); }
  }

  /** Strictly increasing, hence without repetition. */
  ghost predicate Sorted(xs: seq<string>) {
    forall i, j | 0 <= i < j < |xs| :: Before(xs[i], xs[j]) && xs[i] != xs[j]
  }

  /** The elements of a set in increasing order. */
  function SortedKeys(s: set<string>): (xs: seq<string>)
    ensures Sorted(xs)
    ensures forall k :: k in xs <==> k in s
    decreases |s|
  {
    if s == {} then []
    else
      LeastExists(s);
      LeastUnique(s);
      var m :| Least(s, m);
      assert |s - {m}| == |s| - 1;
      var tail := SortedKeys(s - {m});
      assert forall i | 0 <= i < |tail| :: tail[i] in tail;
      [m] + tail
  }

  /** A sorted list is determined by its elements. */
  lemma {:induction false} SortedUnique(xs: seq<string>, ys: seq<string>)
    requires Sorted(xs) && Sorted(ys) && forall k :: k in xs <==> k in ys
    ensures xs == ys
    decreases |xs|
  {
    if xs != [] && ys != [] {
      assert ys[0] in xs && xs[0] in ys;
      var i :| 0 <= i < |xs| && xs[i] == ys[0];
      var j :| 0 <= j < |ys| && ys[j] == xs[0];
      BeforeTotal(xs[0], ys[0]);
      assert xs[0] == ys[0];
      TailElements(xs, ys);
      SortedUnique(xs[1..], ys[1..]);
      assert xs == [xs[0]] + xs[1..] && ys == [ys[0]] + ys[1..];
    } else {
      Inhabited(xs);
      Inhabited(ys);
    }
  }

  lemma Inhabited(xs: seq<string>)
    ensures xs != [] ==> exists k :: k in xs
  {
    if xs != [] { assert xs[0] in xs; }
  }

  lemma TailElements(xs: seq<string>, ys: seq<string>)
    requires Sorted(xs) && Sorted(ys) && xs != [] && ys != [] && xs[0] == ys[0]
    requires forall k :: k in xs <==> k in ys
    ensures forall k :: k in xs[1..] <==> k in ys[1..]
  {
    var x := xs[0];
    assert xs == [x] + xs[1..] && ys == [x] + ys[1..];
    assert x !in xs[1..] && x !in ys[1..];
    forall k ensures k in xs[1..] <==> k in ys[1..] {
      assert k in xs <==> k == x || k in xs[1..];
      assert k in ys <==> k == x || k in ys[1..];
    }
  }

  /** Sorting a set by repeated insertion into place. */
  method SortSet(s: set<string>) returns (xs: seq<string>)
    ensures xs == SortedKeys(s)
  {
    xs := [];
    var todo := s;
    while todo != {}
      invariant todo <= s
      invariant Sorted(xs)
      invariant forall k :: k in xs <==> k in s && k !in todo
      decreases |todo|
    {
      var x :| x in todo;
      xs := Insert(xs, x);
      assert |todo - {x}| == |todo| - 1;
      todo := todo - {x};
    }
    SortedUnique(xs, SortedKeys(s));
  }

  method Insert(xs: seq<string>, x: string) returns (ys: seq<string>)
    requires Sorted(xs) && x !in xs
    ensures Sorted(ys)
    ensures forall k :: k in ys <==> k in xs || k == x
  {
    var i := 0;
    while i < |xs| && Before(xs[i], x)
      invariant 0 <= i <= |xs|
      invariant forall k | 0 <= k < i :: Before(xs[k], x)
    {
      i := i + 1;
    }
    ys := xs[..i] + [x] + xs[i..];
    InsertSorted(xs, x, i);
  }

  lemma InsertSorted(xs: seq<string>, x: string, i: nat)
    requires Sorted(xs) && x !in xs && i <= |xs|
    requires forall k | 0 <= k < i :: Before(xs[k], x)
    requires i < |xs| ==> !Before(xs[i], x)
    ensures
      var ys := xs[..i] + [x] + xs[i..];
      Sorted(ys) && forall k :: k in ys <==> k in xs || k == x
  {
    var ys := xs[..i] + [x] + xs[i..];
    forall k | i <= k < |xs| ensures Before(x, xs[k]) {
      BeforeTotal(xs[i], x);
      if i < k { BeforeTransitive(x, xs[i], xs[k]); }
    }
    assert xs == xs[..i] + xs[i..];
  }
}
