/**
 The drift receipt: classification of differences, the verdict, and its verification.
 `sha` digests a projection core and `seal` a receipt core; both yield SHA-256 text.
 */
module DriftReceipt {
  import opened Prelude
  import opened Json
  import opened Drift
  import Strings

  const CONTROL_SCHEMA := "factory.agentic-control.v1"
  const DRIFT_SCHEMA := "factory.agentic-control-drift.v1"
  const MAX_FINDINGS := 128

  datatype Finding = Finding(diff: Diff, code: string, severity: string)

  datatype Core = Core(
    schema: string, baselineSha: string, currentSha: string, findings: seq<Finding>,
    verdict: string, authority: map<string, Json>)

  datatype Receipt = Receipt(core: Core, driftSha: string, marker: string)

  datatype Error = ESchema | EAuthority | EDigest | ETampered

  // --------------------------------------------------------------- projections

  predicate NoAuthority(authority: map<string, Json>) {
    forall k | k in authority :: authority[k] == JBool(false)
  }

  function ValidateProjection(p: Json): Option<Error> {
    if !p.JObj? || "schema" !in p.fields || !PyEq(p.fields["schema"], JStr(CONTROL_SCHEMA)) then Some(ESchema)
    else if "features" !in p.fields || !p.fields["features"].JObj? || p.fields["features"].fields == map[]
    then Some(ESchema)
    else if "extended_assurance" !in p.fields || !p.fields["extended_assurance"].JObj? then Some(ESchema)
    else if "authority" !in p.fields || !p.fields["authority"].JObj? then Some(ESchema)
    else if !NoAuthority(p.fields["authority"].fields) then Some(EAuthority)
    else if "root_bound" !in p.fields || p.fields["root_bound"] != JBool(true) then Some(ESchema)
    else None
  }

  function ProjectionCore(p: Json): Json
    requires p.JObj?
  {
    JObj(p.fields - {"marker"})
  }

  // ------------------------------------------------------------ classification

  /** The dotted text of a key path. Different paths can share it: keys may contain dots. */
  function Render(path: seq<string>): string {
    if path == [] then ""
    else
      var front := Render(path[..|path| - 1]);
      if front == "" then path[|path| - 1] else front + "." + path[|path| - 1]
  }

  function Reported(d: Diff): string {
    var text := Render(d.path);
    if d.kind == Changed && text == "" then "$" else text
  }

  predicate EndsWith(s: string, suffix: string) {
    |s| >= |suffix| && s[|s| - |suffix|..] == suffix
  }

  function Lanes(j: Json): seq<Json> {
    if j.JList? then j.items else []
  }

  predicate EqualToNone(x: Json, ys: seq<Json>) {
    forall y :: y in ys ==> !PyEq(x, y)
  }

  /** Some element of the first list has no equal in the second. */
  predicate LaneRemoved(before: Json, after: Json) {
    exists i :: 0 <= i < |Lanes(before)| && EqualToNone(Lanes(before)[i], Lanes(after))
  }

  function Classify(d: Diff): (string, string) {
    var path := Reported(d);
    if "authority." <= path then ("AGENTIC_AUTHORITY_ESCALATION", "BLOCKED")
    else if path == "schema" || EndsWith(path, ".schema") then ("AGENTIC_SCHEMA_CHANGED", "BLOCKED")
    else if "features." <= path && d.kind == Removed then ("AGENTIC_FEATURE_REMOVED", "BLOCKED")
    else if path == "extended_assurance.blocking_policy"
            && !PyEq(d.after, JStr("only explicitly required lanes can block release"))
    then ("AGENTIC_BLOCKING_POLICY_WEAKENED", "BLOCKED")
    else if path == "extended_assurance.status" && PyEq(d.after, JStr("disabled"))
    then ("AGENTIC_ASSURANCE_DISABLED", "BLOCKED")
    else if path == "extended_assurance.lanes" && d.kind == Changed then
      if LaneRemoved(d.before, d.after) then ("AGENTIC_ASSURANCE_LANE_REMOVED", "BLOCKED")
      else ("AGENTIC_ASSURANCE_LANES_CHANGED", "REVIEW_REQUIRED")
    else ("AGENTIC_CONTROL_DRIFT", "REVIEW_REQUIRED")
  }

  function Findings(ds: seq<Diff>): seq<Finding> {
    var shown := if |ds| > MAX_FINDINGS then ds[..MAX_FINDINGS] else ds;
    seq(|shown|, i requires 0 <= i < |shown| => Finding(shown[i], Classify(shown[i]).0, Classify(shown[i]).1))
  }

  function ExpectedVerdict(findings: seq<Finding>): string {
    if exists i :: 0 <= i < |findings| && findings[i].severity == "BLOCKED" then "BLOCKED"
    else if findings != [] then "REVIEW_REQUIRED"
    else "CLEAR"
  }

  function Marker(verdict: string): string {
    "AGENTIC_CONTROL_DRIFT_" + verdict
  }

  // ------------------------------------------------------ compare and verify

  function Compare(sha: Json -> string, seal: Core -> string, authority: map<string, Json>,
                   baseline: Json, current: Json): Result<Receipt, Error> {
    var b, c := ValidateProjection(baseline), ValidateProjection(current);
    if b.Some? then Err(b.value)
    else if c.Some? then Err(c.value)
    else
      var findings := Findings(DeepDiffs(ProjectionCore(baseline), ProjectionCore(current), []));
      var verdict := ExpectedVerdict(findings);
      var core := Core(DRIFT_SCHEMA, sha(ProjectionCore(baseline)), sha(ProjectionCore(current)),
                       findings, verdict, authority);
      Ok(Receipt(core, seal(core), Marker(verdict)))
  }

  predicate IsSha256(s: string) {
    |s| == 64 && forall i | 0 <= i < 64 :: '0' <= s[i] <= '9' || 'a' <= s[i] <= 'f'
  }

  function VerifyReceipt(seal: Core -> string, r: Receipt): Result<string, Error> {
    if r.core.schema != DRIFT_SCHEMA then Err(ESchema)
    else if !IsSha256(r.core.baselineSha) || !IsSha256(r.core.currentSha) then Err(EDigest)
    else if r.core.verdict !in ["CLEAR", "REVIEW_REQUIRED", "BLOCKED"] then Err(ESchema)
    else if !NoAuthority(r.core.authority) then Err(EAuthority)
    else if r.driftSha != seal(r.core) then Err(ETampered)
    else if r.core.verdict != ExpectedVerdict(r.core.findings)
            || r.marker != Marker(ExpectedVerdict(r.core.findings)) then Err(ETampered)
    else Ok(r.core.verdict)
  }

  // -------------------------------------------------------------- main results

  ghost predicate Digests<T(!new)>(sha: T -> string) {
    forall x :: IsSha256(sha(x))
  }

  lemma ComparedVerdict(sha: Json -> string, seal: Core -> string, authority: map<string, Json>,
                        baseline: Json, current: Json)
    requires Compare(sha, seal, authority, baseline, current).Ok?
    ensures baseline.JObj? && current.JObj?
    ensures
      Compare(sha, seal, authority, baseline, current).value.core.verdict
      == ExpectedVerdict(Findings(DeepDiffs(ProjectionCore(baseline), ProjectionCore(current), [])))
  {
  }

  /** What a receipt records: the digests of the baseline and the current core in that order,
      and the first 128 differences, each with its classification. */
  lemma ComparedRecords(sha: Json -> string, seal: Core -> string, authority: map<string, Json>,
                        baseline: Json, current: Json)
    requires Compare(sha, seal, authority, baseline, current).Ok?
    ensures baseline.JObj? && current.JObj?
    ensures
      var core := Compare(sha, seal, authority, baseline, current).value.core;
      var before, after := JObj(baseline.fields - {"marker"}), JObj(current.fields - {"marker"});
      var ds := DeepDiffs(before, after, []);
      && core.baselineSha == sha(before) && core.currentSha == sha(after) && core.authority == authority
      && |core.findings| == (if |ds| > 128 then 128 else |ds|)
      && forall i | 0 <= i < |core.findings| ::
           core.findings[i] == Finding(ds[i], Classify(ds[i]).0, Classify(ds[i]).1)
  {
  }

  lemma ClearWhenNoDiffs(ds: seq<Diff>)
    ensures ExpectedVerdict(Findings(ds)) == "CLEAR" <==> ds == []
    ensures ExpectedVerdict(Findings(ds)) in ["CLEAR", "REVIEW_REQUIRED", "BLOCKED"]
  {
    assert |Findings(ds)| == if |ds| > 128 then 128 else |ds|;
  }

  lemma ComparedVerifies(sha: Json -> string, seal: Core -> string, authority: map<string, Json>,
                         baseline: Json, current: Json)
    requires Digests(sha) && NoAuthority(authority)
    requires Compare(sha, seal, authority, baseline, current).Ok?
    ensures
      var r := Compare(sha, seal, authority, baseline, current).value;
      VerifyReceipt(seal, r) == Ok(r.core.verdict)
  {
    var r := Compare(sha, seal, authority, baseline, current).value;
    assert IsSha256(r.core.baselineSha) && IsSha256(r.core.currentSha);
    ClearWhenNoDiffs(DeepDiffs(ProjectionCore(baseline), ProjectionCore(current), []));
  }

  /** The verdict is CLEAR exactly when the two projection cores are equal, whatever the
      number of differences; and every receipt made by comparison is accepted. */
  lemma CompareSound(sha: Json -> string, seal: Core -> string, authority: map<string, Json>,
                     baseline: Json, current: Json)
    requires Digests(sha) && NoAuthority(authority)
    requires Compare(sha, seal, authority, baseline, current).Ok?
    ensures baseline.JObj? && current.JObj?
    ensures
      var r := Compare(sha, seal, authority, baseline, current).value;
      && VerifyReceipt(seal, r) == Ok(r.core.verdict)
      && (r.core.verdict == "CLEAR" <==> PyEq(ProjectionCore(baseline), ProjectionCore(current)))
  {
    ComparedVerdict(sha, seal, authority, baseline, current);
    ComparedVerifies(sha, seal, authority, baseline, current);
    ClearWhenNoDiffs(DeepDiffs(ProjectionCore(baseline), ProjectionCore(current), []));
    NoDiffsIffEqual(ProjectionCore(baseline), ProjectionCore(current), []);
  }

  /** One of the first `bound` differences blocks. */
  ghost predicate SomeBlocks(ds: seq<Diff>, bound: nat) {
    exists i :: 0 <= i < |ds| && i < bound && Classify(ds[i]).1 == "BLOCKED"
  }

  lemma VerdictOfFindings(ds: seq<Diff>)
    ensures ExpectedVerdict(Findings(ds)) == "BLOCKED" <==> SomeBlocks(ds, 128)
  {
    var fs := Findings(ds);
    assert |fs| == if |ds| > 128 then 128 else |ds|;
    if SomeBlocks(ds, 128) {
      var i :| 0 <= i < |ds| && i < 128 && Classify(ds[i]).1 == "BLOCKED";
      assert fs[i].severity == "BLOCKED";
    } else {
      forall i | 0 <= i < |fs| ensures fs[i].severity != "BLOCKED" {
        assert fs[i].severity == Classify(ds[i]).1;
      }
    }
  }

  /** The verdict is BLOCKED exactly when one of the first 128 differences blocks; so it tells
      whether any difference blocks exactly unless the only ones that do come later. */
  lemma BlockedWithinBound(sha: Json -> string, seal: Core -> string, authority: map<string, Json>,
                           baseline: Json, current: Json)
    requires Compare(sha, seal, authority, baseline, current).Ok?
    ensures baseline.JObj? && current.JObj?
    ensures
      Compare(sha, seal, authority, baseline, current).value.core.verdict == "BLOCKED"
      <==> SomeBlocks(DeepDiffs(ProjectionCore(baseline), ProjectionCore(current), []), 128)
  {
    ComparedVerdict(sha, seal, authority, baseline, current);
    VerdictOfFindings(DeepDiffs(ProjectionCore(baseline), ProjectionCore(current), []));
  }

  /** What an accepted receipt is: sealed over its contents, without authority, over two digests,
      and with the verdict its findings call for. */
  lemma VerifiedMeans(seal: Core -> string, r: Receipt)
    ensures VerifyReceipt(seal, r).Ok? <==>
      && r.core.schema == "factory.agentic-control-drift.v1"
      && IsSha256(r.core.baselineSha) && IsSha256(r.core.currentSha)
      && (forall k | k in r.core.authority :: r.core.authority[k] == JBool(false))
      && r.driftSha == seal(r.core)
      && r.marker == "AGENTIC_CONTROL_DRIFT_" + r.core.verdict
      && r.core.verdict ==
           if exists i :: 0 <= i < |r.core.findings| && r.core.findings[i].severity == "BLOCKED" then "BLOCKED"
           else if r.core.findings == [] then "CLEAR" else "REVIEW_REQUIRED"
    ensures VerifyReceipt(seal, r).Ok? ==> VerifyReceipt(seal, r) == Ok(r.core.verdict)
  {
  }

  /** Exactly which pairs of projections are compared at all. */
  ghost predicate Acceptable(p: Json) {
    && p.JObj? && {"schema", "features", "extended_assurance", "authority", "root_bound"} <= p.fields.Keys
    && p.fields["schema"] == JStr("factory.agentic-control.v1")
    && p.fields["features"].JObj? && p.fields["features"].fields.Keys != {}
    && p.fields["extended_assurance"].JObj?
    && p.fields["authority"].JObj?
    && (forall k | k in p.fields["authority"].fields :: p.fields["authority"].fields[k] == JBool(false))
    && p.fields["root_bound"] == JBool(true)
  }

  lemma AcceptableMeans(p: Json)
    ensures ValidateProjection(p) == None <==> Acceptable(p)
  {
    if p.JObj? && "features" in p.fields && p.fields["features"].JObj? && p.fields["features"].fields.Keys == {} {
      assert p.fields["features"].fields == map[];
    }
  }

  lemma ComparedExactly(sha: Json -> string, seal: Core -> string, authority: map<string, Json>,
                        baseline: Json, current: Json)
    ensures Compare(sha, seal, authority, baseline, current).Ok? <==> Acceptable(baseline) && Acceptable(current)
  {
    AcceptableMeans(baseline);
    AcceptableMeans(current);
  }

  /** An accepted receipt cannot have its sealed contents changed under the same seal. */
  lemma SealBinds(seal: Core -> string, r: Receipt, t: Receipt)
    requires forall a, b :: seal(a) == seal(b) ==> a == b
    requires VerifyReceipt(seal, r).Ok? && VerifyReceipt(seal, t).Ok? && r.driftSha == t.driftSha
    ensures r == t
  {
    assert seal(r.core) == seal(t.core);
  }

  /** One seal can only come from one pair of projections: it pins both cores. */
  lemma SealNamesProjections(sha: Json -> string, seal: Core -> string, authority: map<string, Json>,
                             b1: Json, c1: Json, b2: Json, c2: Json)
    requires forall x, y :: sha(x) == sha(y) ==> x == y
    requires forall x, y :: seal(x) == seal(y) ==> x == y
    requires Compare(sha, seal, authority, b1, c1).Ok? && Compare(sha, seal, authority, b2, c2).Ok?
    requires
      Compare(sha, seal, authority, b1, c1).value.driftSha == Compare(sha, seal, authority, b2, c2).value.driftSha
    ensures b1.JObj? && c1.JObj? && b2.JObj? && c2.JObj?
    ensures ProjectionCore(b1) == ProjectionCore(b2) && ProjectionCore(c1) == ProjectionCore(c2)
  {
    var one, two := Compare(sha, seal, authority, b1, c1).value, Compare(sha, seal, authority, b2, c2).value;
    assert seal(one.core) == seal(two.core);
    assert sha(ProjectionCore(b1)) == sha(ProjectionCore(b2)) && sha(ProjectionCore(c1)) == sha(ProjectionCore(c2));
  }

  /** The smallest shape of an acceptable projection, with one further field. */
  function Flagged(flag: Json): Json {
    JObj(map["schema" := JStr(CONTROL_SCHEMA), "features" := JObj(map["lanes" := JNull]),
             "extended_assurance" := JObj(map[]), "authority" := JObj(map[]), "root_bound" := JBool(true),
             "flag" := flag])
  }

  lemma FlaggedAccepted(flag: Json)
    ensures ValidateProjection(Flagged(flag)) == None
    ensures ProjectionCore(Flagged(flag)) == Flagged(flag)
  {
    var features: map<string, Json> := map["lanes" := JNull];
    assert "lanes" in features;
    assert "marker" !in Flagged(flag).fields;
    assert Flagged(flag).fields - {"marker"} == Flagged(flag).fields;
  }

  lemma FlagsCompare(one: Json, other: Json)
    ensures PyEq(Flagged(one), Flagged(other)) <==> PyEq(one, other)
    ensures Flagged(one) == Flagged(other) <==> one == other
  {
    var a, b := Flagged(one), Flagged(other);
    forall k | k in a.fields && k != "flag" ensures PyEq(a.fields[k], b.fields[k]) { PyEqReflexive(a.fields[k]); }
    assert a.fields["flag"] == one && b.fields["flag"] == other;
  }

  /** Equality here is Python's. A CLEAR receipt records two different digests exactly when the
      cores are equal to Python without being the same. */
  lemma ClearDespiteDigests(sha: Json -> string, seal: Core -> string, authority: map<string, Json>,
                            baseline: Json, current: Json)
    requires forall x, y :: sha(x) == sha(y) ==> x == y
    requires Compare(sha, seal, authority, baseline, current).Ok?
    ensures baseline.JObj? && current.JObj?
    ensures
      var core := Compare(sha, seal, authority, baseline, current).value.core;
      core.verdict == "CLEAR" && core.baselineSha != core.currentSha <==>
      PyEq(ProjectionCore(baseline), ProjectionCore(current)) && ProjectionCore(baseline) != ProjectionCore(current)
  {
    ComparedVerdict(sha, seal, authority, baseline, current);
    ClearWhenNoDiffs(DeepDiffs(ProjectionCore(baseline), ProjectionCore(current), []));
    NoDiffsIffEqual(ProjectionCore(baseline), ProjectionCore(current), []);
    assert sha(ProjectionCore(baseline)) == sha(ProjectionCore(current)) ==>
        ProjectionCore(baseline) == ProjectionCore(current);
  }

  lemma PythonEqualPair(sha: Json -> string, seal: Core -> string, p: Json, q: Json)
    requires forall x, y :: sha(x) == sha(y) ==> x == y
    requires ValidateProjection(p) == None && ValidateProjection(q) == None
    requires ProjectionCore(p) == p && ProjectionCore(q) == q && PyEq(p, q) && p != q
    ensures Compare(sha, seal, map[], p, q).Ok?
    ensures
      var core := Compare(sha, seal, map[], p, q).value.core;
      core.verdict == "CLEAR" && core.baselineSha != core.currentSha
  {
    ClearDespiteDigests(sha, seal, map[], p, q);
  }

  /** Two acceptable projections, one saying true where the other says 1, are CLEAR, although
      their cores, and so their recorded digests, differ. */
  lemma ClearIsPythonEquality(sha: Json -> string, seal: Core -> string)
    returns (one: Json, other: Json)
    requires forall x, y :: sha(x) == sha(y) ==> x == y
    ensures ValidateProjection(one) == None && ValidateProjection(other) == None
    ensures ProjectionCore(one) != ProjectionCore(other)
    ensures Compare(sha, seal, map[], one, other).Ok?
    ensures
      var core := Compare(sha, seal, map[], one, other).value.core;
      core.verdict == "CLEAR" && core.baselineSha != core.currentSha
  {
    one, other := Flagged(JBool(true)), Flagged(JInt(1));
    FlaggedAccepted(JBool(true));
    FlaggedAccepted(JInt(1));
    FlagsCompare(JBool(true), JInt(1));
    PythonEqualPair(sha, seal, one, other);
  }
}
