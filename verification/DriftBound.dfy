/**
 The bound of 128 classified differences, concretely: a current projection that adds 128
 harmless fields and then one blocking field is judged REVIEW_REQUIRED.
 */
module DriftBound {
  import opened Drift
  import opened DriftReceipt
  import opened Json
  import opened Prelude
  import Strings

  function Letters(n: nat): (s: string)
    ensures |s| == n && forall i | 0 <= i < n :: s[i] == 't'
  {
    seq(n, i => 't')
  }

  /** 128 field names that no rule mentions, and one that ends in ".schema". */
  function AddedKeys(): (keys: seq<string>)
    ensures |keys| == 129 && keys[128] == "u.schema" && forall i | 0 <= i < 128 :: keys[i] == Letters(i + 1)
  {
    seq(128, i requires 0 <= i < 128 => Letters(i + 1)) + ["u.schema"]
  }

  /** An acceptable projection without a marker, all of whose keys sort before the added ones. */
  ghost predicate Plain(p: Json) {
    && ValidateProjection(p) == None
    && "marker" !in p.fields
    && forall k | k in p.fields :: k != "" && k[0] < 't'
  }

  ghost function Grown(p: Json): Json
    requires p.JObj?
  {
    JObj(p.fields + map k | k in AddedKeys() :: JNull)
  }

  lemma {:induction false} LettersOrdered(m: nat, n: nat)
    requires m < n
    ensures Strings.Before(Letters(m), Letters(n)) && Letters(m) != Letters(n)
  {
    if m > 0 {
      LettersOrdered(m - 1, n - 1);
      assert Letters(m)[1..] == Letters(m - 1) && Letters(n)[1..] == Letters(n - 1);
    }
  }

  lemma AddedKeysSorted()
    ensures Strings.Sorted(AddedKeys())
  {
    var keys := AddedKeys();
    forall i, j | 0 <= i < j < |keys| ensures Strings.Before(keys[i], keys[j]) && keys[i] != keys[j] {
      if j < 128 { LettersOrdered(i + 1, j + 1); }
    }
  }

  /** Keys below 't' come before all added ones. */
  lemma AllKeysSorted(s: set<string>, all: set<string>)
    requires forall k | k in s :: k != "" && k[0] < 't'
    requires forall k :: k in all <==> k in s || k in AddedKeys()
    ensures Strings.SortedKeys(all) == Strings.SortedKeys(s) + AddedKeys()
  {
    AddedKeysSorted();
    var first, added := Strings.SortedKeys(s), AddedKeys();
    forall i, j | 0 <= i < |first| && 0 <= j < |added|
      ensures Strings.Before(first[i], added[j]) && first[i] != added[j]
    {
      assert first[i] in first;
      assert added[j][0] == 't' || added[j][0] == 'u';
    }
    Strings.SortedUnique(Strings.SortedKeys(all), first + added);
  }

  lemma {:induction false} DiffKeysAppend(xs: seq<string>, ys: seq<string>, before: Json, after: Json,
                                          path: seq<string>)
    requires before.JObj? && after.JObj?
    requires forall k | k in xs :: k in before.fields || k in after.fields
    requires forall k | k in ys :: k in before.fields || k in after.fields
    ensures DiffKeys(xs + ys, before, after, path)
         == DiffKeys(xs, before, after, path) + DiffKeys(ys, before, after, path)
    decreases |xs|
  {
    if xs == [] {
      assert xs + ys == ys;
    } else {
      assert (xs + ys)[1..] == xs[1..] + ys;
      DiffKeysAppend(xs[1..], ys, before, after, path);
    }
  }

  lemma {:induction false} AddedDiffs(keys: seq<string>, before: Json, after: Json)
    requires before.JObj? && after.JObj?
    requires forall k | k in keys :: k !in before.fields && k in after.fields
    ensures |DiffKeys(keys, before, after, [])| == |keys|
    ensures forall i | 0 <= i < |keys| ::
      DiffKeys(keys, before, after, [])[i] == Diff([keys[i]], Added, JNull, after.fields[keys[i]])
    decreases |keys|
  {
    if keys != [] {
      assert keys[0] in keys;
      AddedDiffs(keys[1..], before, after);
      assert [] + [keys[0]] == [keys[0]];
    }
  }

  /** When the second value only adds keys, and they come last, they are the differences. */
  lemma OnlyAdded(before: Json, after: Json, added: seq<string>)
    requires before.JObj? && after.JObj?
    requires forall k | k in before.fields :: k in after.fields && after.fields[k] == before.fields[k]
    requires forall k | k in added :: k !in before.fields && k in after.fields
    requires Strings.SortedKeys(before.fields.Keys + after.fields.Keys)
          == Strings.SortedKeys(before.fields.Keys) + added
    ensures DeepDiffs(before, after, []) == DiffKeys(added, before, after, [])
  {
    var first := Strings.SortedKeys(before.fields.Keys);
    DiffKeysAppend(first, added, before, after, []);
    forall k | k in first ensures SameAt(k, before, after) { PyEqReflexive(before.fields[k]); }
    NoKeyDiffs(first, before, after, []);
  }

  lemma TheDiffs(p: Json)
    requires p.JObj? && forall k | k in p.fields :: k != "" && k[0] < 't'
    ensures
      var ds := DeepDiffs(p, Grown(p), []);
      |ds| == 129 && forall i | 0 <= i < 129 :: ds[i] == Diff([AddedKeys()[i]], Added, JNull, JNull)
  {
    NewKeys(p);
    AllKeysSorted(p.fields.Keys, p.fields.Keys + Grown(p).fields.Keys);
    OnlyAdded(p, Grown(p), AddedKeys());
    AddedDiffs(AddedKeys(), p, Grown(p));
  }

  lemma NewKeys(p: Json)
    requires p.JObj? && forall k | k in p.fields :: k != "" && k[0] < 't'
    ensures forall k | k in AddedKeys() :: k !in p.fields && k in Grown(p).fields && Grown(p).fields[k] == JNull
    ensures forall k | k in p.fields :: k in Grown(p).fields && Grown(p).fields[k] == p.fields[k]
  {
    forall k | k in AddedKeys() ensures k !in p.fields { assert k[0] == 't' || k[0] == 'u'; }
  }

  lemma SingleKeyText(k: string)
    ensures Render([k]) == k
  {
    assert [k][..0] == [];
    assert Render([]) == "";
  }

  lemma LettersHarmless(n: nat)
    requires n > 0
    ensures Classify(Diff([Letters(n)], Added, JNull, JNull)).1 == "REVIEW_REQUIRED"
  {
    var s := Letters(n);
    SingleKeyText(s);
    assert s[0] == 't';
    if |s| >= 7 { assert s[|s| - 7..][0] == 't'; }
  }

  lemma GrownAccepted(p: Json)
    requires Plain(p)
    ensures ValidateProjection(Grown(p)) == None
  {
    NewKeys(p);
  }

  lemma GrownUnmarked(p: Json)
    requires Plain(p)
    ensures ProjectionCore(p) == p && ProjectionCore(Grown(p)) == Grown(p)
  {
    assert "marker" !in AddedKeys() by { assert "marker"[0] == 'm'; }
    assert p.fields - {"marker"} == p.fields;
    assert Grown(p).fields - {"marker"} == Grown(p).fields;
  }

  lemma FirstHarmless(ds: seq<Diff>)
    requires |ds| == 129 && forall i | 0 <= i < 129 :: ds[i] == Diff([AddedKeys()[i]], Added, JNull, JNull)
    ensures !SomeBlocks(ds, 128) && SomeBlocks(ds, 129)
  {
    forall i | 0 <= i < 128 ensures Classify(ds[i]).1 != "BLOCKED" { LettersHarmless(i + 1); }
    SingleKeyText("u.schema");
    assert EndsWith("u.schema", ".schema");
    assert Classify(ds[128]).1 == "BLOCKED";
  }

  lemma Unreported(sha: Json -> string, seal: Core -> string, p: Json, q: Json)
    requires ValidateProjection(p) == None && ValidateProjection(q) == None
    requires ProjectionCore(p) == p && ProjectionCore(q) == q
    requires !SomeBlocks(DeepDiffs(p, q, []), 128)
    ensures Compare(sha, seal, map[], p, q).Ok?
    ensures Compare(sha, seal, map[], p, q).value.core.verdict != "BLOCKED"
  {
    BlockedWithinBound(sha, seal, map[], p, q);
  }

  /** The 129th difference blocks, and the verdict does not say so. */
  lemma BlockingBeyondBound(sha: Json -> string, seal: Core -> string, p: Json)
    requires Plain(p)
    ensures
      var r := Compare(sha, seal, map[], p, Grown(p));
      && r.Ok? && r.value.core.verdict != "BLOCKED"
      && SomeBlocks(DeepDiffs(p, Grown(p), []), 129)
  {
    TheDiffs(p);
    FirstHarmless(DeepDiffs(p, Grown(p), []));
    GrownAccepted(p);
    GrownUnmarked(p);
    Unreported(sha, seal, p, Grown(p));
  }

  /** The hypothesis is met, by the smallest shape of an acceptable projection. */
  lemma PlainExample()
    ensures Plain(JObj(map[
      "schema" := JStr(CONTROL_SCHEMA), "features" := JObj(map["lanes" := JNull]),
      "extended_assurance" := JObj(map[]), "authority" := JObj(map[]), "root_bound" := JBool(true)]))
  {
    var fields: map<string, Json> := map["lanes" := JNull];
    assert "lanes" in fields;
  }
}
