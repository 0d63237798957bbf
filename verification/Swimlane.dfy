/**
 The hash-linked swim-lane event stream. `sha` stands for the SHA-256 of the canonical
 JSON of an event core; the commitment results assume it injective on cores.
 */
module Swimlane {
  import opened Prelude

  const SCHEMA := "factory.swimlane-event.v1"

  /** The nine fields the digest covers. */
  datatype Core = Core(
    schema: string, workflowId: string, lane: string, stage: string, status: string,
    sequence: int, artifact: Option<string>, previous: Option<string>, elapsedMs: Option<int>)

  /** An event as supplied: any digest and id, and any further fields outside the core. */
  datatype Event = Event(core: Core, eventId: string, eventDigest: string, extra: string)

  type Hash = Core -> string

  datatype Error = ESchema | ESequence | ETampered | EEmpty

  datatype Ledger = Ledger(workflowId: string, events: nat, head: string, state: string)

  function EventId(digest: string): string {
    "swim:" + if |digest| >= 32 then digest[..32] else digest
  }

  /** The checks on one event, in order, against its index and the previous digest. */
  function EventError(sha: Hash, e: Event, index: nat, previous: Option<string>): Option<Error> {
    if e.core.schema != SCHEMA then Some(ESchema)
    else if e.core.sequence != index || e.core.previous != previous then Some(ESequence)
    else if e.eventDigest != sha(e.core) || e.eventId != EventId(sha(e.core)) then Some(ETampered)
    else None
  }

  /** Digest carried into position `n`: none at the start, else that of the event before. */
  function Carried(sha: Hash, rows: seq<Event>, n: nat): Option<string>
    requires n <= |rows|
  {
    if n == 0 then None else Some(sha(rows[n - 1].core))
  }

  predicate Sound(sha: Hash, rows: seq<Event>, i: nat)
    requires i < |rows|
  {
    EventError(sha, rows[i], i, Carried(sha, rows, i)) == None
  }

  /** What is demanded of the event at a position, and which error the first failure gives. */
  lemma EventChecked(sha: Hash, rows: seq<Event>, i: nat)
    requires i < |rows|
    ensures
      var core, digest := rows[i].core, sha(rows[i].core);
      var linked := core.sequence == i && core.previous == (if i == 0 then None else Some(sha(rows[i - 1].core)));
      var sealed := rows[i].eventDigest == digest
                    && rows[i].eventId == "swim:" + (if |digest| < 32 then digest else digest[..32]);
      var error := EventError(sha, rows[i], i, Carried(sha, rows, i));
      && (Sound(sha, rows, i) <==> core.schema == "factory.swimlane-event.v1" && linked && sealed)
      && (error == Some(ESchema) <==> core.schema != "factory.swimlane-event.v1")
      && (error == Some(ESequence) <==> core.schema == "factory.swimlane-event.v1" && !linked)
      && (error == Some(ETampered) <==> core.schema == "factory.swimlane-event.v1" && linked && !sealed)
  {
  }

  ghost predicate Chained(sha: Hash, rows: seq<Event>) {
    forall i | 0 <= i < |rows| :: Sound(sha, rows, i)
  }

  lemma PrefixChained(sha: Hash, rows: seq<Event>, n: nat)
    requires n <= |rows| && forall i | 0 <= i < n :: Sound(sha, rows, i)
    ensures Chained(sha, rows[..n])
  {
    forall i | 0 <= i < n ensures Sound(sha, rows[..n], i) {
      assert Sound(sha, rows, i);
    }
  }

  /** `error` is the first one met when the events are checked in order. */
  ghost predicate FirstError(sha: Hash, rows: seq<Event>, i: nat, error: Error) {
    i < |rows| && Chained(sha, rows[..i]) && EventError(sha, rows[i], i, Carried(sha, rows, i)) == Some(error)
  }

  /** Verify the stream front to back, carrying the digest of the event before. */
  method VerifySwimlane(sha: Hash, rows: seq<Event>) returns (r: Result<Ledger, Error>)
    ensures rows == [] ==> r == Err(EEmpty)
    ensures rows != [] ==> (r.Ok? <==> Chained(sha, rows))
    ensures r.Ok? ==>
      r.value == Ledger(rows[0].core.workflowId, |rows|, sha(rows[|rows| - 1].core), rows[|rows| - 1].core.status)
    ensures r.Err? && rows != [] ==>
      exists i :: FirstError(sha, rows, i, r.error)
  {
    if rows == [] {
      return Err(EEmpty);
    }
    var previous: Option<string> := None;
    var i := 0;
    while i < |rows|
      invariant 0 <= i <= |rows|
      invariant previous == Carried(sha, rows, i)
      invariant forall k | 0 <= k < i :: Sound(sha, rows, k)
    {
      var error := EventError(sha, rows[i], i, previous);
      if error.Some? {
        PrefixChained(sha, rows, i);
        assert FirstError(sha, rows, i, error.value) && !Sound(sha, rows, i);
        return Err(error.value);
      }
      previous := Some(sha(rows[i].core));
      i := i + 1;
    }
    r := Ok(Ledger(rows[0].core.workflowId, |rows|, previous.value, rows[|rows| - 1].core.status));
  }

  // ------------------------------------------------------------------- commitment

  ghost predicate Injective(sha: Hash) {
    forall a, b :: sha(a) == sha(b) ==> a == b
  }

  /** Equal digests at two positions force the same position and equal cores all the way
      back to the start. */
  lemma {:induction false} SameDigestSamePast(sha: Hash, xs: seq<Event>, ys: seq<Event>, i: nat, j: nat)
    requires Injective(sha) && Chained(sha, xs) && Chained(sha, ys)
    requires i < |xs| && j < |ys| && sha(xs[i].core) == sha(ys[j].core)
    ensures i == j
    ensures forall k | 0 <= k <= i :: xs[k].core == ys[k].core
    decreases i
  {
    assert Sound(sha, xs, i);
    assert Sound(sha, ys, j);
    assert xs[i].core == ys[j].core;
    if i > 0 {
      SameDigestSamePast(sha, xs, ys, i - 1, j - 1);
    }
  }

  /** The head digest commits to the whole stream: two accepted streams with the same head
      have the same length and the same core, digest and id at every position. */
  lemma HeadCommits(sha: Hash, xs: seq<Event>, ys: seq<Event>)
    requires Injective(sha) && xs != [] && ys != [] && Chained(sha, xs) && Chained(sha, ys)
    requires sha(xs[|xs| - 1].core) == sha(ys[|ys| - 1].core)
    ensures |xs| == |ys|
    ensures forall k | 0 <= k < |xs| ::
      xs[k].core == ys[k].core && xs[k].eventDigest == ys[k].eventDigest && xs[k].eventId == ys[k].eventId
  {
    SameDigestSamePast(sha, xs, ys, |xs| - 1, |ys| - 1);
    forall k | 0 <= k < |xs|
      ensures xs[k].core == ys[k].core && xs[k].eventDigest == ys[k].eventDigest && xs[k].eventId == ys[k].eventId
    {
      assert Sound(sha, xs, k);
      assert Sound(sha, ys, k);
    }
  }

  /** A new event; its text fields arrive validated and stripped. */
  function NewEvent(sha: Hash, workflowId: string, lane: string, stage: string, status: string, sequence: nat,
                    artifact: Option<string>, previous: Option<string>, elapsedMs: Option<int>): Event {
    var core := Core(SCHEMA, workflowId, lane, stage, status, sequence, artifact, previous, elapsedMs);
    Event(core, EventId(sha(core)), sha(core), "")
  }

  /** Appending an event built with the current length and head keeps a stream accepted, and
      with any other sequence number or predecessor it does not. */
  lemma AppendAccepted(sha: Hash, rows: seq<Event>, workflowId: string, lane: string, stage: string, status: string,
                       sequence: nat, artifact: Option<string>, previous: Option<string>, elapsedMs: Option<int>)
    requires Chained(sha, rows)
    ensures
      var e := NewEvent(sha, workflowId, lane, stage, status, sequence, artifact, previous, elapsedMs);
      Chained(sha, rows + [e]) <==> sequence == |rows| && previous == Carried(sha, rows, |rows|)
    ensures
      var e := NewEvent(sha, workflowId, lane, stage, status, sequence, artifact, previous, elapsedMs);
      && e.core.workflowId == workflowId && e.core.lane == lane && e.core.stage == stage && e.core.status == status
      && e.core.artifact == artifact && e.core.elapsedMs == elapsedMs
  {
    var e := NewEvent(sha, workflowId, lane, stage, status, sequence, artifact, previous, elapsedMs);
    var next := rows + [e];
    assert Sound(sha, next, |rows|) <==> sequence == |rows| && previous == Carried(sha, next, |rows|);
    assert next[|rows|] == e && Carried(sha, next, |rows|) == Carried(sha, rows, |rows|);
    forall k | 0 <= k < |rows| ensures Sound(sha, next, k) {
      assert Sound(sha, rows, k);
      assert Carried(sha, next, k) == Carried(sha, rows, k);
    }
  }

  /** Removing, replacing or reordering any accepted core changes every later digest: if two
      accepted streams differ at a position, they differ in digest from there on. */
  lemma TamperingShows(sha: Hash, xs: seq<Event>, ys: seq<Event>, k: nat, m: nat)
    requires Injective(sha) && Chained(sha, xs) && Chained(sha, ys)
    requires k <= m && m < |xs| && m < |ys| && xs[k].core != ys[k].core
    ensures xs[m].eventDigest != ys[m].eventDigest
  {
    assert Sound(sha, xs, m);
    assert Sound(sha, ys, m);
    if sha(xs[m].core) == sha(ys[m].core) { SameDigestSamePast(sha, xs, ys, m, m); }
  }
}
