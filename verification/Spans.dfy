/**
 Redundant tool calls in a span trace. The evaluator does not scan all earlier spans: it
 keeps an index from a call's canonical bytes to the last span with that call, and tests
 only that one. Canonical bytes are injective on `Json`, so the index is keyed by the value.
 */
module Spans {
  import opened Json

  /** `call` is any JSON value; only objects are call facts. */
  datatype Span = Span(spanId: string, call: Json)

  datatype Verdict = CallMissing | CallInvalid | Redundant | ExemptionUnverified | NotRedundant

  const FIELDS := {"tool", "args_sha256", "state_sha256", "candidate_sha256", "freshness_sha256"}

  /** Python's `.get`: a missing field reads as null. */
  function Get(call: Json, field: string): Json
    requires call.JObj?
  {
    if field in call.fields then call.fields[field] else JNull
  }

  predicate IsSha(j: Json) {
    j.JStr? && |j.s| == 64 && forall i | 0 <= i < 64 :: '0' <= j.s[i] <= '9' || 'a' <= j.s[i] <= 'f'
  }

  predicate ValidCall(call: Json, candidate: string)
    requires call.JObj?
  {
    && call.fields.Keys == FIELDS
    && PyEq(Get(call, "candidate_sha256"), JStr(candidate))
    && IsSha(Get(call, "args_sha256")) && IsSha(Get(call, "state_sha256")) && IsSha(Get(call, "freshness_sha256"))
  }

  predicate SameCall(earlier: Json, call: Json)
    requires call.JObj?
  {
    && earlier.JObj?
    && PyEq(Get(earlier, "tool"), Get(call, "tool"))
    && PyEq(Get(earlier, "args_sha256"), Get(call, "args_sha256"))
    && PyEq(Get(earlier, "state_sha256"), Get(call, "state_sha256"))
    && PyEq(Get(earlier, "candidate_sha256"), Get(call, "candidate_sha256"))
    && PyEq(Get(earlier, "freshness_sha256"), Get(call, "freshness_sha256"))
  }

  predicate Repeats(span: Span, earlier: seq<Span>)
    requires span.call.JObj?
  {
    exists i :: 0 <= i < |earlier| && SameCall(earlier[i].call, span.call)
  }

  /** The verdict on a span against a list of earlier spans. */
  function Redundancy(span: Span, earlier: seq<Span>, exempt: set<string>, candidate: string): Verdict {
    if !span.call.JObj? then CallMissing
    else if !ValidCall(span.call, candidate) then CallInvalid
    else if Repeats(span, earlier) then
      if span.spanId in exempt then ExemptionUnverified else Redundant
    else NotRedundant
  }

  /** A verdict of repetition is given exactly for a call of the five fields, with three digests
      and this candidate, that equals an earlier call object in every one of them; an exemption
      is never taken on trust, but is not reported as redundant either. */
  lemma VerdictMeans(span: Span, earlier: seq<Span>, exempt: set<string>, candidate: string)
    ensures
      var v := Redundancy(span, earlier, exempt, candidate);
      && (v == CallMissing <==> !span.call.JObj?)
      && (v == Redundant || v == ExemptionUnverified <==>
            && span.call.JObj?
            && span.call.fields.Keys
               == {"tool", "args_sha256", "state_sha256", "candidate_sha256", "freshness_sha256"}
            && span.call.fields["candidate_sha256"] == JStr(candidate)
            && (forall f | f in {"args_sha256", "state_sha256", "freshness_sha256"} :: IsSha(span.call.fields[f]))
            && exists i :: 0 <= i < |earlier| && FieldsEqual(earlier[i].call, span.call))
      && (v == ExemptionUnverified ==> span.spanId in exempt)
      && (v == Redundant ==> span.spanId !in exempt)
  {
    if span.call.JObj? {
      forall i | 0 <= i < |earlier|
        ensures FieldsEqual(earlier[i].call, span.call) <==> SameCall(earlier[i].call, span.call)
      {
        FieldsEqualMeans(earlier[i].call, span.call);
      }
    }
  }

  ghost predicate FieldsEqual(earlier: Json, call: Json)
    requires call.JObj?
  {
    earlier.JObj? && forall f | f in FIELDS :: PyEq(Get(earlier, f), Get(call, f))
  }

  lemma FieldsEqualMeans(earlier: Json, call: Json)
    requires call.JObj?
    ensures FieldsEqual(earlier, call) <==> SameCall(earlier, call)
  {
  }

  /** The same verdict by the scan that stops at the first matching span. */
  method ScanRedundancy(span: Span, earlier: seq<Span>, exempt: set<string>, candidate: string) returns (v: Verdict)
    ensures v == Redundancy(span, earlier, exempt, candidate)
  {
    if !span.call.JObj? {
      return CallMissing;
    }
    if !ValidCall(span.call, candidate) {
      return CallInvalid;
    }
    var i := 0;
    while i < |earlier|
      invariant 0 <= i <= |earlier|
      invariant forall k | 0 <= k < i :: !SameCall(earlier[k].call, span.call)
    {
      if SameCall(earlier[i].call, span.call) {
        return if span.spanId in exempt then ExemptionUnverified else Redundant;
      }
      i := i + 1;
    }
    v := NotRedundant;
  }

  /** What the index holds before span `i`: the last earlier span with the same call. */
  function Indexed(spans: seq<Span>, i: nat, call: Json): seq<Span>
    requires i <= |spans|
  {
    if i == 0 then []
    else if spans[i - 1].call == call then [spans[i - 1]]
    else Indexed(spans, i - 1, call)
  }

  ghost predicate IndexHolds(spans: seq<Span>, i: nat, index: map<Json, Span>)
    requires i <= |spans|
  {
    forall c :: Indexed(spans, i, c) == if c in index then [index[c]] else []
  }

  lemma IndexRead(spans: seq<Span>, i: nat, index: map<Json, Span>, call: Json)
    requires i <= |spans| && IndexHolds(spans, i, index)
    ensures Indexed(spans, i, call) == if call in index then [index[call]] else []
  {
  }

  /** The verdict on one span against what the index holds for its call. */
  function IndexedVerdict(spans: seq<Span>, i: nat, exempt: set<string>, candidate: string): Verdict
    requires i < |spans|
  {
    Redundancy(spans[i], Indexed(spans, i, spans[i].call), exempt, candidate)
  }

  ghost predicate RowsHold(spans: seq<Span>, rows: seq<Verdict>, exempt: set<string>, candidate: string)
    requires |rows| <= |spans|
  {
    forall i | 0 <= i < |rows| :: rows[i] == IndexedVerdict(spans, i, exempt, candidate)
  }

  lemma RowsStep(spans: seq<Span>, rows: seq<Verdict>, v: Verdict, exempt: set<string>, candidate: string)
    requires |rows| < |spans| && RowsHold(spans, rows, exempt, candidate)
    requires v == IndexedVerdict(spans, |rows|, exempt, candidate)
    ensures RowsHold(spans, rows + [v], exempt, candidate)
  {
    forall i | 0 <= i < |rows + [v]| ensures (rows + [v])[i] == IndexedVerdict(spans, i, exempt, candidate) {
      if i < |rows| {
        assert (rows + [v])[i] == rows[i];
      } else {
        assert (rows + [v])[i] == v;
      }
    }
  }

  lemma IndexStep(spans: seq<Span>, i: nat, index: map<Json, Span>)
    requires i < |spans| && IndexHolds(spans, i, index)
    ensures IndexHolds(spans, i + 1, index[spans[i].call := spans[i]])
  {
    var next := index[spans[i].call := spans[i]];
    forall c ensures Indexed(spans, i + 1, c) == if c in next then [next[c]] else [] {
      assert Indexed(spans, i, c) == if c in index then [index[c]] else [];
    }
  }

  /** The evaluator's loop, with the index updated after each span. */
  method EvaluateSpans(spans: seq<Span>, exempt: set<string>, candidate: string) returns (rows: seq<Verdict>)
    ensures |rows| == |spans|
    ensures RowsHold(spans, rows, exempt, candidate)
  {
    rows := [];
    var previousCalls: map<Json, Span> := map[];
    var i := 0;
    while i < |spans|
      invariant 0 <= i <= |spans| && |rows| == i
      invariant IndexHolds(spans, i, previousCalls)
      invariant RowsHold(spans, rows, exempt, candidate)
    {
      var span := spans[i];
      var prior := if span.call in previousCalls then [previousCalls[span.call]] else [];
      assert prior == Indexed(spans, i, span.call) by { IndexRead(spans, i, previousCalls, span.call); }
      var verdict := ScanRedundancy(span, prior, exempt, candidate);
      RowsStep(spans, rows, verdict, exempt, candidate);
      rows := rows + [verdict];
      IndexStep(spans, i, previousCalls);
      previousCalls := previousCalls[span.call := span];
      i := i + 1;
    }
  }

  // -------------------------------------------------------------- index and scan

  lemma {:induction false} IndexedMembers(spans: seq<Span>, i: nat, call: Json)
    requires i <= |spans|
    ensures Indexed(spans, i, call) != [] <==> exists k :: 0 <= k < i && spans[k].call == call
    ensures forall s | s in Indexed(spans, i, call) :: s.call == call && s in spans[..i]
  {
    if i == 0 {
    } else {
      IndexedMembers(spans, i - 1, call);
      assert spans[..i] == spans[..i - 1] + [spans[i - 1]];
    }
  }

  lemma SameCallReflexive(call: Json)
    requires call.JObj?
    ensures SameCall(call, call)
  {
    forall f ensures PyEq(Get(call, f), Get(call, f)) { PyEqReflexive(Get(call, f)); }
  }

  ghost predicate SeenIdentical(spans: seq<Span>, i: nat)
    requires i < |spans|
  {
    exists k :: 0 <= k < i && spans[k].call == spans[i].call
  }

  /** The index never invents a repetition; it agrees with the full scan exactly unless some
      earlier call equals this one field by field while none is identical to it. */
  lemma IndexAgainstScan(spans: seq<Span>, i: nat, exempt: set<string>, candidate: string)
    requires i < |spans|
    ensures
      var indexed := Redundancy(spans[i], Indexed(spans, i, spans[i].call), exempt, candidate);
      var scanned := Redundancy(spans[i], spans[..i], exempt, candidate);
      && (indexed == Redundant ==> scanned == Redundant)
      && (indexed != scanned <==>
            && spans[i].call.JObj? && ValidCall(spans[i].call, candidate)
            && (exists k :: 0 <= k < i && SameCall(spans[k].call, spans[i].call))
            && !SeenIdentical(spans, i))
  {
    var call := spans[i].call;
    IndexedMembers(spans, i, call);
    if call.JObj? {
      SameCallReflexive(call);
      var index := Indexed(spans, i, call);
      assert Repeats(spans[i], index) <==> SeenIdentical(spans, i) by {
        if SeenIdentical(spans, i) { assert index[0] in index; }
        if Repeats(spans[i], index) { var k :| 0 <= k < |index| && SameCall(index[k].call, call); }
      }
      assert Repeats(spans[i], spans[..i]) <==> exists k :: 0 <= k < i && SameCall(spans[k].call, call) by {
        if k :| 0 <= k < i && SameCall(spans[k].call, call) { assert spans[..i][k] == spans[k]; }
        if k :| 0 <= k < i && SameCall(spans[..i][k].call, call) { assert spans[..i][k] == spans[k]; }
      }
      if k :| 0 <= k < i && spans[k].call == call { assert SameCall(spans[k].call, call); }
    }
  }

  /** Field-wise equal calls are identical when the tool is a string and the earlier object
      has exactly the five fields. */
  lemma SameCallIsIdentical(earlier: Json, call: Json, candidate: string)
    requires call.JObj? && ValidCall(call, candidate) && Get(call, "tool").JStr?
    requires earlier.JObj? && earlier.fields.Keys == FIELDS
    requires SameCall(earlier, call)
    ensures earlier == call
  {
    forall f | f in FIELDS ensures earlier.fields[f] == call.fields[f] {
      assert Get(call, f).JStr? && PyEq(Get(earlier, f), Get(call, f));
    }
    assert earlier.fields == call.fields;
  }

  /** The index refines the scan: when tool names are strings and every earlier call object
      has exactly the five fields, both give the same verdict. */
  lemma IndexRefinesScan(spans: seq<Span>, i: nat, exempt: set<string>, candidate: string)
    requires i < |spans|
    requires spans[i].call.JObj? ==> Get(spans[i].call, "tool").JStr?
    requires forall k | 0 <= k < i && spans[k].call.JObj? :: spans[k].call.fields.Keys == FIELDS
    ensures Redundancy(spans[i], Indexed(spans, i, spans[i].call), exempt, candidate)
         == Redundancy(spans[i], spans[..i], exempt, candidate)
  {
    IndexAgainstScan(spans, i, exempt, candidate);
    var call := spans[i].call;
    if call.JObj? && ValidCall(call, candidate) {
      forall k | 0 <= k < i && SameCall(spans[k].call, call) ensures spans[k].call == call {
        SameCallIsIdentical(spans[k].call, call, candidate);
      }
    }
  }

  /** Both conditions are needed: an extra field on the earlier call, or a tool given as true
      first and as 1 later, hides the repetition from the index. */
  lemma IndexMissesExamples(digest: string, extra: bool)
    requires IsSha(JStr(digest))
    ensures
      var facts := map["args_sha256" := JStr(digest), "state_sha256" := JStr(digest),
                       "candidate_sha256" := JStr(digest), "freshness_sha256" := JStr(digest)];
      var call := JObj(facts["tool" := JInt(1)]);
      var earlier := JObj(if extra then facts["tool" := JInt(1)]["note" := JNull] else facts["tool" := JBool(true)]);
      var spans := [Span("a", earlier), Span("b", call)];
      && Redundancy(spans[1], Indexed(spans, 1, call), {}, digest) == NotRedundant
      && Redundancy(spans[1], spans[..1], {}, digest) == Redundant
  {
    var facts := map["args_sha256" := JStr(digest), "state_sha256" := JStr(digest),
                     "candidate_sha256" := JStr(digest), "freshness_sha256" := JStr(digest)];
    var call := JObj(facts["tool" := JInt(1)]);
    var earlier := JObj(if extra then facts["tool" := JInt(1)]["note" := JNull] else facts["tool" := JBool(true)]);
    var spans := [Span("a", earlier), Span("b", call)];
    assert call.fields.Keys == FIELDS;
    assert ValidCall(call, digest);
    assert earlier != call by {
      if extra { assert "note" in earlier.fields && "note" !in call.fields; }
      else { assert earlier.fields["tool"] != call.fields["tool"]; }
    }
    assert SameCall(earlier, call);
    assert spans[0].call == earlier;
    IndexAgainstScan(spans, 1, {}, digest);
  }
}
