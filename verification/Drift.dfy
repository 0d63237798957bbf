/** Nested differences of two control projections, and the drift receipt made from them. */
module Drift {
  import opened Json
  import opened Prelude
  import Strings

  datatype Kind = Added | Removed | Changed

  /** A leaf difference; its path is the sequence of keys from the root. */
  datatype Diff = Diff(path: seq<string>, kind: Kind, before: Json, after: Json)

  function DeepDiffs(before: Json, after: Json, path: seq<string>): seq<Diff>
    decreases before, 1, 0
  {
    if before.JObj? && after.JObj? then
      DiffKeys(Strings.SortedKeys(before.fields.Keys + after.fields.Keys), before, after, path)
    else if !PyEq(before, after) then [Diff(path, Changed, before, after)]
    else []
  }

  function DiffKeys(keys: seq<string>, before: Json, after: Json, path: seq<string>): seq<Diff>
    requires before.JObj? && after.JObj?
    requires forall k | k in keys :: k in before.fields || k in after.fields
    decreases before, 0, |keys|
  {
    if keys == [] then []
    else
      assert keys[0] in keys;
      DiffKey(keys[0], before, after, path) + DiffKeys(keys[1..], before, after, path)
  }

  function DiffKey(k: string, before: Json, after: Json, path: seq<string>): seq<Diff>
    requires before.JObj? && after.JObj?
    requires k in before.fields || k in after.fields
    decreases before, 0, 0
  {
    if k !in before.fields then [Diff(path + [k], Added, JNull, after.fields[k])]
    else if k !in after.fields then [Diff(path + [k], Removed, before.fields[k], JNull)]
    else DeepDiffs(before.fields[k], after.fields[k], path + [k])
  }

  // ------------------------------------------------------------- no difference

  /** There is no difference exactly when the values are equal (in Python's sense). */
  lemma {:induction false} NoDiffsIffEqual(before: Json, after: Json, path: seq<string>)
    ensures DeepDiffs(before, after, path) == [] <==> PyEq(before, after)
    decreases before, 1, 0
  {
    if before.JObj? && after.JObj? {
      var keys := Strings.SortedKeys(before.fields.Keys + after.fields.Keys);
      NoKeyDiffs(keys, before, after, path);
      EqualFields(keys, before, after);
    }
  }

  lemma EqualFields(keys: seq<string>, before: Json, after: Json)
    requires before.JObj? && after.JObj?
    requires forall k :: k in keys <==> k in before.fields || k in after.fields
    ensures (forall k | k in keys :: SameAt(k, before, after)) <==> PyEq(before, after)
  {
    if forall k | k in keys :: SameAt(k, before, after) {
      forall k ensures k in before.fields <==> k in after.fields {
        if k in keys { assert SameAt(k, before, after); }
      }
      forall k | k in before.fields ensures PyEq(before.fields[k], after.fields[k]) {
        assert SameAt(k, before, after);
      }
    } else {
      var k :| k in keys && !SameAt(k, before, after);
      if before.fields.Keys == after.fields.Keys { assert k in before.fields; }
    }
  }

  ghost predicate SameAt(k: string, before: Json, after: Json)
    requires before.JObj? && after.JObj?
  {
    k in before.fields && k in after.fields && PyEq(before.fields[k], after.fields[k])
  }

  lemma {:induction false} NoKeyDiffs(keys: seq<string>, before: Json, after: Json, path: seq<string>)
    requires before.JObj? && after.JObj?
    requires forall k | k in keys :: k in before.fields || k in after.fields
    ensures DiffKeys(keys, before, after, path) == [] <==> forall k | k in keys :: SameAt(k, before, after)
    decreases before, 0, |keys|
  {
    if keys != [] {
      var k := keys[0];
      assert keys == [k] + keys[1..];
      assert k in keys;
      if k in before.fields && k in after.fields {
        NoDiffsIffEqual(before.fields[k], after.fields[k], path + [k]);
      }
      NoKeyDiffs(keys[1..], before, after, path);
    }
  }

  // --------------------------------------------------------------------- paths

  ghost predicate Below(path: seq<string>, d: Diff) {
    path <= d.path && (|d.path| == |path| ==> d.kind == Changed)
  }

  lemma {:induction false} DiffsBelow(before: Json, after: Json, path: seq<string>)
    ensures forall d | d in DeepDiffs(before, after, path) :: Below(path, d)
    decreases before, 1, 0
  {
    if before.JObj? && after.JObj? {
      var keys := Strings.SortedKeys(before.fields.Keys + after.fields.Keys);
      KeyDiffsBelow(keys, before, after, path);
    }
  }

  ghost predicate UnderKey(path: seq<string>, keys: seq<string>, d: Diff) {
    |path| < |d.path| && path <= d.path && d.path[|path|] in keys
  }

  lemma {:induction false} KeyDiffsBelow(keys: seq<string>, before: Json, after: Json, path: seq<string>)
    requires before.JObj? && after.JObj?
    requires forall k | k in keys :: k in before.fields || k in after.fields
    ensures forall d | d in DiffKeys(keys, before, after, path) :: UnderKey(path, keys, d)
    decreases before, 0, |keys|
  {
    if keys != [] {
      var k := keys[0];
      assert keys == [k] + keys[1..];
      assert k in keys;
      if k in before.fields && k in after.fields {
        DiffsBelow(before.fields[k], after.fields[k], path + [k]);
      }
      forall d | d in DiffKey(k, before, after, path) ensures UnderKey(path, keys, d) {
        assert Below(path + [k], d) || d.path == path + [k];
        assert d.path[|path|] == (path + [k])[|path|];
      }
      KeyDiffsBelow(keys[1..], before, after, path);
    }
  }

  /** No reported path is a prefix of another; in particular the paths are distinct. */
  ghost predicate Separate(ds: seq<Diff>) {
    forall i, j | 0 <= i < j < |ds| :: !(ds[i].path <= ds[j].path) && !(ds[j].path <= ds[i].path)
  }

  lemma {:induction false} DiffPathsSeparate(before: Json, after: Json, path: seq<string>)
    ensures Separate(DeepDiffs(before, after, path))
    decreases before, 1, 0
  {
    if before.JObj? && after.JObj? {
      KeyDiffsSeparate(Strings.SortedKeys(before.fields.Keys + after.fields.Keys), before, after, path);
    }
  }

  lemma {:induction false} KeyDiffsSeparate(keys: seq<string>, before: Json, after: Json, path: seq<string>)
    requires before.JObj? && after.JObj? && Strings.Sorted(keys)
    requires forall k | k in keys :: k in before.fields || k in after.fields
    ensures Separate(DiffKeys(keys, before, after, path))
    decreases before, 0, |keys|
  {
    if keys != [] {
      var k := keys[0];
      assert keys == [k] + keys[1..];
      assert k in keys && k !in keys[1..];
      var head, tail := DiffKey(k, before, after, path), DiffKeys(keys[1..], before, after, path);
      if k in before.fields && k in after.fields {
        DiffPathsSeparate(before.fields[k], after.fields[k], path + [k]);
      }
      KeyDiffsSeparate(keys[1..], before, after, path);
      KeyDiffsBelow([k], before, after, path);
      assert DiffKeys([k], before, after, path) == head + [];
      KeyDiffsBelow(keys[1..], before, after, path);
      forall i, j | 0 <= i < |head| && 0 <= j < |tail|
        ensures !(head[i].path <= tail[j].path) && !(tail[j].path <= head[i].path)
      {
        assert UnderKey(path, [k], head[i]) && UnderKey(path, keys[1..], tail[j]);
        assert head[i].path[|path|] != tail[j].path[|path|];
      }
    }
  }

  // --------------------------------------------------- what a difference reports

  /** The value at a key path, if the path exists. */
  function Lookup(j: Json, path: seq<string>): Option<Json>
    decreases |path|
  {
    if path == [] then Some(j)
    else if j.JObj? && path[0] in j.fields then Lookup(j.fields[path[0]], path[1..])
    else None
  }

  /** The difference tells the truth about both values: what was added is absent before, what
      was removed is absent after, and what changed is present in both and unequal. */
  ghost predicate Reports(before: Json, after: Json, depth: nat, d: Diff) {
    && depth <= |d.path|
    && var was, now := Lookup(before, d.path[depth..]), Lookup(after, d.path[depth..]);
       match d.kind
       case Added => was == None && now == Some(d.after)
       case Removed => was == Some(d.before) && now == None
       case Changed => was == Some(d.before) && now == Some(d.after) && !PyEq(d.before, d.after)
  }

  lemma {:induction false} DiffsReport(before: Json, after: Json, path: seq<string>)
    ensures forall d | d in DeepDiffs(before, after, path) :: Reports(before, after, |path|, d)
    decreases before, 1, 0
  {
    if before.JObj? && after.JObj? {
      KeyDiffsReport(Strings.SortedKeys(before.fields.Keys + after.fields.Keys), before, after, path);
    }
  }

  lemma {:induction false} KeyDiffsReport(keys: seq<string>, before: Json, after: Json, path: seq<string>)
    requires before.JObj? && after.JObj?
    requires forall k | k in keys :: k in before.fields || k in after.fields
    ensures forall d | d in DiffKeys(keys, before, after, path) :: Reports(before, after, |path|, d)
    decreases before, 0, |keys|
  {
    if keys != [] {
      var k := keys[0];
      assert k in keys;
      forall d | d in DiffKey(k, before, after, path) ensures Reports(before, after, |path|, d) {
        OneKeyReports(k, before, after, path, d);
      }
      KeyDiffsReport(keys[1..], before, after, path);
    }
  }

  lemma {:induction false} OneKeyReports(k: string, before: Json, after: Json, path: seq<string>, d: Diff)
    requires before.JObj? && after.JObj? && (k in before.fields || k in after.fields)
    requires d in DiffKey(k, before, after, path)
    ensures Reports(before, after, |path|, d)
    decreases before, 0, 0
  {
    if k in before.fields && k in after.fields {
      DiffsReport(before.fields[k], after.fields[k], path + [k]);
      DiffsBelow(before.fields[k], after.fields[k], path + [k]);
      assert Below(path + [k], d);
      assert d.path[|path|] == (path + [k])[|path|] == k;
      assert d.path[|path|..][1..] == d.path[|path + [k]|..];
    } else {
      assert (path + [k])[|path|..] == [k];
    }
  }

  // ------------------------------------------------------------ applying diffs

  /** Carry out one difference on the value found at depth `depth` of its path. */
  function Patch(j: Json, d: Diff, depth: nat): Json
    requires depth <= |d.path|
    decreases |d.path| - depth
  {
    if depth == |d.path| then d.after
    else if !j.JObj? then j
    else
      var k := d.path[depth];
      if depth + 1 == |d.path| && d.kind == Removed then JObj(j.fields - {k})
      else if depth + 1 == |d.path| && d.kind == Added then JObj(j.fields[k := d.after])
      else if k in j.fields then JObj(j.fields[k := Patch(j.fields[k], d, depth + 1)])
      else j
  }

  function PatchAll(j: Json, ds: seq<Diff>, depth: nat): Json
    requires forall d | d in ds :: depth <= |d.path|
    decreases |ds|
  {
    if ds == [] then j
    else
      assert ds[0] in ds;
      PatchAll(Patch(j, ds[0], depth), ds[1..], depth)
  }

  lemma {:induction false} PatchAppend(j: Json, xs: seq<Diff>, ys: seq<Diff>, depth: nat)
    requires forall d | d in xs + ys :: depth <= |d.path|
    ensures PatchAll(j, xs + ys, depth) == PatchAll(PatchAll(j, xs, depth), ys, depth)
    decreases |xs|
  {
    if xs == [] {
      assert xs + ys == ys;
    } else {
      assert xs[0] in xs + ys;
      assert (xs + ys)[1..] == xs[1..] + ys;
      PatchAppend(Patch(j, xs[0], depth), xs[1..], ys, depth);
    }
  }

  /** Differences below one key that the object has are applied inside that key's value. */
  lemma {:induction false} PatchInside(fields: map<string, Json>, k: string, ds: seq<Diff>, path: seq<string>)
    requires k in fields
    requires forall d | d in ds :: Below(path + [k], d)
    ensures forall d | d in ds :: |path| + 1 <= |d.path|
    ensures PatchAll(JObj(fields), ds, |path|) == JObj(fields[k := PatchAll(fields[k], ds, |path| + 1)])
    decreases |ds|
  {
    if ds == [] {
      assert fields[k := fields[k]] == fields;
    } else {
      var d := ds[0];
      assert d in ds && Below(path + [k], d);
      assert d.path[|path|] == (path + [k])[|path|];
      var next := fields[k := Patch(fields[k], d, |path| + 1)];
      assert Patch(JObj(fields), d, |path|) == JObj(next);
      PatchInside(next, k, ds[1..], path);
      assert next[k := PatchAll(next[k], ds[1..], |path| + 1)] == fields[k := PatchAll(next[k], ds[1..], |path| + 1)];
    }
  }

  /** Applying the differences to the first value gives the second. */
  lemma {:induction false} PatchReproduces(before: Json, after: Json, path: seq<string>)
    ensures forall d | d in DeepDiffs(before, after, path) :: |path| <= |d.path|
    ensures PyEq(PatchAll(before, DeepDiffs(before, after, path), |path|), after)
    decreases before, 1, 0
  {
    DiffsBelow(before, after, path);
    if before.JObj? && after.JObj? {
      var keys := Strings.SortedKeys(before.fields.Keys + after.fields.Keys);
      var result := PatchKeys(keys, before, after, path, before.fields);
      forall k ensures k in result <==> k in after.fields {
        assert k in keys || (k !in before.fields && k !in after.fields);
      }
      assert PyEq(JObj(result), after);
    } else {
      PyEqReflexive(after);
      if !PyEq(before, after) {
        var d := Diff(path, Changed, before, after);
        assert [d][1..] == [];
      }
    }
  }

  ghost predicate Untouched(keys: seq<string>, before: Json, current: map<string, Json>)
    requires before.JObj?
  {
    forall k | k in keys ::
      (k in current <==> k in before.fields) && (k in current ==> current[k] == before.fields[k])
  }

  lemma {:induction false} PatchKeys(keys: seq<string>, before: Json, after: Json, path: seq<string>,
                                     current: map<string, Json>)
    returns (result: map<string, Json>)
    requires before.JObj? && after.JObj? && Strings.Sorted(keys) && Untouched(keys, before, current)
    requires forall k | k in keys :: k in before.fields || k in after.fields
    ensures forall d | d in DiffKeys(keys, before, after, path) :: |path| <= |d.path|
    ensures PatchAll(JObj(current), DiffKeys(keys, before, after, path), |path|) == JObj(result)
    ensures forall k | k in keys ::
      (k in result <==> k in after.fields) && (k in result ==> PyEq(result[k], after.fields[k]))
    ensures forall k | k !in keys ::
      (k in result <==> k in current) && (k in result ==> result[k] == current[k])
    decreases before, 0, |keys|
  {
    KeyDiffsBelow(keys, before, after, path);
    if keys == [] {
      result := current;
    } else {
      var k := keys[0];
      assert keys == [k] + keys[1..];
      assert k in keys && k !in keys[1..];
      var mid := PatchKey(k, before, after, path, current);
      result := PatchKeys(keys[1..], before, after, path, mid);
      PatchAppend(JObj(current), DiffKey(k, before, after, path), DiffKeys(keys[1..], before, after, path), |path|);
    }
  }

  lemma {:induction false} PatchKey(k: string, before: Json, after: Json, path: seq<string>,
                                    current: map<string, Json>)
    returns (result: map<string, Json>)
    requires before.JObj? && after.JObj? && Untouched([k], before, current)
    requires k in before.fields || k in after.fields
    ensures forall d | d in DiffKey(k, before, after, path) :: |path| <= |d.path|
    ensures PatchAll(JObj(current), DiffKey(k, before, after, path), |path|) == JObj(result)
    ensures (k in result <==> k in after.fields) && (k in result ==> PyEq(result[k], after.fields[k]))
    ensures forall m | m != k :: (m in result <==> m in current) && (m in result ==> result[m] == current[m])
    decreases before, 0, 0
  {
    assert k in [k];
    var ds := DiffKey(k, before, after, path);
    if k in before.fields && k in after.fields {
      DiffsBelow(before.fields[k], after.fields[k], path + [k]);
      PatchReproduces(before.fields[k], after.fields[k], path + [k]);
      PatchInside(current, k, ds, path);
      result := current[k := PatchAll(current[k], ds, |path| + 1)];
    } else {
      if k in after.fields { PyEqReflexive(after.fields[k]); }
      result := PatchOwnKey(current, k, ds[0], path);
      assert ds == [ds[0]];
    }
  }

  /** An added or removed key is set or dropped in the object itself. */
  lemma PatchOwnKey(current: map<string, Json>, k: string, d: Diff, path: seq<string>)
    returns (result: map<string, Json>)
    requires d.path == path + [k] && d.kind != Changed
    ensures PatchAll(JObj(current), [d], |path|) == JObj(result)
    ensures result == if d.kind == Added then current[k := d.after] else current - {k}
  {
    assert d.path[|path|] == k;
    result := if d.kind == Added then current[k := d.after] else current - {k};
    assert [d][1..] == [];
  }
}
