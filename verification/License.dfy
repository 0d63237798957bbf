/**
 Licence derivation: the windowed evidence of one agent, the tier it earns, and the
 admission of a request. Times are integers in microseconds; `all` is the agent's ledger
 in the order the loader returns it.
 */
module License {
  import opened Prelude
  import opened PathScopes
  import Strings

  datatype Failure = HollowTest | HollowValidator | ScopeEscape | OracleWeakening | OtherFailure(name: string)

  datatype Event = Event(
    eventId: string, recordedAt: int, verifier: string, passed: bool,
    failures: set<Failure>, paths: seq<string>)

  datatype Tier = HumanControlled | Supervised | Autonomous

  datatype Reason =
    | OracleWeakeningDemotion | EvidenceExpired | NoGovernedEvidence | SevereFailureDemotion
    | PolicySatisfied | RequiresSupervision | NoCleanEvidence

  const EVIDENCE_TTL := 30 * 24 * 3600 * 1_000_000
  const SUPERVISED_MIN_CLEAN_RUNS := 3
  const AUTONOMOUS_MIN_CLEAN_RUNS := 20
  const AUTONOMOUS_MIN_INDEPENDENT := 15
  const REQUALIFICATION_RUNS := 5

  function Rank(tier: Tier): nat {
    match tier
    case HumanControlled => 0
    case Supervised => 1
    case Autonomous => 2
  }

  const SEVERE_FAILURES := {HollowTest, HollowValidator, ScopeEscape, OracleWeakening}

  predicate Severe(e: Event) {
    e.failures * SEVERE_FAILURES != {}
  }

  predicate Clean(e: Event) {
    e.passed && e.failures == {}
  }

  function Select(keep: Event -> bool, es: seq<Event>): seq<Event> {
    if es == [] then []
    else
      var n := |es| - 1;
      Select(keep, es[..n]) + (if keep(es[n]) then [es[n]] else [])
  }

  function Later(a: Option<int>, b: Option<int>): Option<int> {
    if a.None? then b else if b.None? then a else if a.value < b.value then b else a
  }

  function Latest(times: seq<int>): Option<int> {
    if times == [] then None else Later(Latest(times[..|times| - 1]), Some(times[|times| - 1]))
  }

  datatype Evidence = Evidence(
    all: seq<Event>, current: seq<Event>, incidents: seq<Event>, oracle: seq<int>,
    latestIncident: Option<Event>, latestIncidentAt: Option<int>,
    clean: seq<Event>, independent: seq<Event>, scopes: seq<string>)

  function PathsOf(es: seq<Event>): seq<seq<string>> {
    seq(|es|, i requires 0 <= i < |es| => es[i].paths)
  }

  predicate InWindow(e: Event, now: int) {
    e.recordedAt >= now - EVIDENCE_TTL
  }

  function WindowTest(now: int): Event -> bool {
    (e: Event) => InWindow(e, now)
  }

  function SevereTest(): Event -> bool {
    (e: Event) => Severe(e)
  }

  function AfterTest(at: Option<int>): Event -> bool {
    (e: Event) => at.None? || e.recordedAt > at.value
  }

  function CleanTest(): Event -> bool {
    (e: Event) => Clean(e)
  }

  function IndependentTest(subject: string): Event -> bool {
    (e: Event) => e.verifier != subject
  }

  function Incidents(all: seq<Event>, now: int): seq<Event> {
    Select(SevereTest(), Select(WindowTest(now), all))
  }

  function CleanAfter(current: seq<Event>, at: Option<int>): seq<Event> {
    Select(CleanTest(), Select(AfterTest(at), current))
  }

  function LicenseEvidence(all: seq<Event>, oracle: seq<int>, subject: string, now: int): Evidence {
    var current := Select(WindowTest(now), all);
    var incidents := Incidents(all, now);
    var latest := if incidents == [] then None else Some(incidents[|incidents| - 1]);
    var at := Later(if latest.Some? then Some(latest.value.recordedAt) else None, Latest(oracle));
    var clean := CleanAfter(current, at);
    Evidence(all, current, incidents, oracle, latest, at, clean, Select(IndependentTest(subject), clean),
             CommonPathsOf(PathsOf(clean)))
  }

  predicate OracleDemotes(e: Evidence) {
    e.oracle != [] && |e.clean| < REQUALIFICATION_RUNS
  }

  function LicenseTier(e: Evidence): (Tier, Reason) {
    if OracleDemotes(e) then (HumanControlled, OracleWeakeningDemotion)
    else if e.current == [] then
      if e.all != [] then (Supervised, EvidenceExpired) else (HumanControlled, NoGovernedEvidence)
    else if e.latestIncident.Some? && |e.clean| < REQUALIFICATION_RUNS then
      (HumanControlled, SevereFailureDemotion)
    else if |e.clean| >= AUTONOMOUS_MIN_CLEAN_RUNS && |e.independent| >= AUTONOMOUS_MIN_INDEPENDENT && e.scopes != []
    then (Autonomous, PolicySatisfied)
    else if |e.clean| >= SUPERVISED_MIN_CLEAN_RUNS then (Supervised, RequiresSupervision)
    else (HumanControlled, NoCleanEvidence)
  }

  datatype Refusal = TierExceeded | PathsExceeded

  /** The licence cap on one request; `paths` are the request's normalised paths. */
  function Admission(all: seq<Event>, oracle: seq<int>, subject: string, now: int, requested: Tier,
                     paths: seq<string>): Result<Tier, Refusal> {
    var evidence := LicenseEvidence(all, oracle, subject, now);
    var tier := LicenseTier(evidence).0;
    var grants := if tier == Autonomous then evidence.scopes else [];
    if Rank(requested) > Rank(tier) then Err(TierExceeded)
    else if requested == Autonomous
            && (grants == [] || exists i :: 0 <= i < |paths| && !CoveredBy(grants, paths[i]))
    then Err(PathsExceeded)
    else Ok(tier)
  }

  // -------------------------------------------------- the reference definition

  /** The loader returns events ordered by time. */
  ghost predicate Ordered(all: seq<Event>) {
    forall i, j | 0 <= i < j < |all| :: all[i].recordedAt <= all[j].recordedAt
  }

  /** A countable run, said without reference to any latest incident: in the window, clean,
      and later than every severe failure in the window and every oracle incident. */
  ghost predicate CountableRun(all: seq<Event>, oracle: seq<int>, now: int, e: Event) {
    && now - e.recordedAt <= 30 * 86_400_000_000 && e.passed && e.failures == {}
    && (forall x | x in all && InWindow(x, now) && Severe(x) :: x.recordedAt < e.recordedAt)
    && (forall i | 0 <= i < |oracle| :: oracle[i] < e.recordedAt)
  }

  /** The runs of the ledger that count, by position. */
  ghost function CountableRuns(all: seq<Event>, oracle: seq<int>, now: int): set<nat> {
    set i | 0 <= i < |all| && CountableRun(all, oracle, now, all[i])
  }

  /** Those of them that somebody else verified. */
  ghost function IndependentRuns(all: seq<Event>, oracle: seq<int>, now: int, subject: string): set<nat> {
    set i | 0 <= i < |all| && CountableRun(all, oracle, now, all[i]) && all[i].verifier != subject
  }

  ghost function Positions(keep: Event -> bool, es: seq<Event>): set<nat> {
    set i | 0 <= i < |es| && keep(es[i])
  }

  lemma PositionsStep(keep: Event -> bool, es: seq<Event>)
    requires es != []
    ensures
      var n := |es| - 1;
      && n !in Positions(keep, es[..n])
      && Positions(keep, es) == Positions(keep, es[..n]) + (if keep(es[n]) then {n} else {})
  {
    var n := |es| - 1;
    forall i ensures i in Positions(keep, es) <==> i in Positions(keep, es[..n]) || (i == n && keep(es[n])) {
      if 0 <= i < n { assert es[..n][i] == es[i]; }
    }
  }

  lemma {:induction false} SelectCount(keep: Event -> bool, es: seq<Event>)
    ensures |Select(keep, es)| == |Positions(keep, es)|
  {
    if es == [] {
      assert Positions(keep, es) == {};
    } else {
      SelectCount(keep, es[..|es| - 1]);
      PositionsStep(keep, es);
    }
  }

  lemma CountableCounted(all: seq<Event>, oracle: seq<int>, now: int)
    ensures |Select(CountableTest(all, oracle, now), all)| == |CountableRuns(all, oracle, now)|
  {
    var countable := CountableTest(all, oracle, now);
    SelectCount(countable, all);
    assert Positions(countable, all) == CountableRuns(all, oracle, now);
  }

  lemma IndependentCounted(all: seq<Event>, oracle: seq<int>, now: int, subject: string)
    ensures |Select(IndependentTest(subject), Select(CountableTest(all, oracle, now), all))|
         == |IndependentRuns(all, oracle, now, subject)|
  {
    var both := (e: Event) => CountableTest(all, oracle, now)(e) && e.verifier != subject;
    SelectTwice(CountableTest(all, oracle, now), IndependentTest(subject), both, all);
    SelectCount(both, all);
    assert Positions(both, all) == IndependentRuns(all, oracle, now, subject);
  }

  /** The counts the tier is decided on, by position in the ledger. */
  lemma RunsCounted(all: seq<Event>, oracle: seq<int>, subject: string, now: int)
    requires Ordered(all)
    ensures |LicenseEvidence(all, oracle, subject, now).clean| == |CountableRuns(all, oracle, now)|
    ensures |LicenseEvidence(all, oracle, subject, now).independent| == |IndependentRuns(all, oracle, now, subject)|
  {
    CleanRunsExact(all, oracle, subject, now);
    CountableCounted(all, oracle, now);
    IndependentCounted(all, oracle, now, subject);
  }

  lemma {:induction false} SelectMembers(keep: Event -> bool, es: seq<Event>)
    ensures forall e :: e in Select(keep, es) <==> e in es && keep(e)
    ensures |Select(keep, es)| <= |es|
  {
    if es == [] {
    } else {
      var n := |es| - 1;
      SelectMembers(keep, es[..n]);
      assert es == es[..n] + [es[n]];
    }
  }

  lemma {:induction false} SelectTwice(f: Event -> bool, g: Event -> bool, h: Event -> bool, es: seq<Event>)
    requires forall e | e in es :: h(e) <==> f(e) && g(e)
    ensures Select(g, Select(f, es)) == Select(h, es)
  {
    if es == [] {
    } else {
      var n := |es| - 1;
      SelectTwice(f, g, h, es[..n]);
      assert es[n] in es;
      var kept := Select(f, es[..n]);
      if f(es[n]) {
        assert (kept + [es[n]])[..|kept|] == kept;
      } else {
        assert kept + [] == kept;
      }
    }
  }

  lemma {:induction false} SelectOrdered(keep: Event -> bool, es: seq<Event>)
    requires Ordered(es)
    ensures Ordered(Select(keep, es))
  {
    if es == [] {
    } else {
      var n := |es| - 1;
      SelectOrdered(keep, es[..n]);
      SelectMembers(keep, es[..n]);
      var kept := Select(keep, es[..n]);
      forall i | 0 <= i < |kept| ensures kept[i].recordedAt <= es[n].recordedAt {
        assert kept[i] in es[..n];
      }
    }
  }

  lemma {:induction false} LatestIsMax(times: seq<int>)
    ensures Latest(times).None? <==> times == []
    ensures times != [] ==> Latest(times).value in times
    ensures forall i | 0 <= i < |times| :: times[i] <= Latest(times).value
  {
    if times == [] {
    } else {
      LatestIsMax(times[..|times| - 1]);
    }
  }

  lemma LastIsLatest(es: seq<Event>)
    requires Ordered(es) && es != []
    ensures es[|es| - 1] in es
    ensures forall e | e in es :: e.recordedAt <= es[|es| - 1].recordedAt
  {
    forall e | e in es ensures e.recordedAt <= es[|es| - 1].recordedAt {
      var i :| 0 <= i < |es| && es[i] == e;
    }
  }

  /** The incidents are the severe failures in the window, the last one the latest. */
  lemma IncidentsBound(all: seq<Event>, now: int)
    requires Ordered(all)
    ensures forall e :: e in Incidents(all, now) <==> e in all && InWindow(e, now) && Severe(e)
    ensures
      var incidents := Incidents(all, now);
      incidents != [] ==>
        && incidents[|incidents| - 1] in incidents
        && forall e | e in incidents :: e.recordedAt <= incidents[|incidents| - 1].recordedAt
  {
    var current := Select(WindowTest(now), all);
    SelectMembers(WindowTest(now), all);
    SelectMembers(SevereTest(), current);
    SelectOrdered(WindowTest(now), all);
    SelectOrdered(SevereTest(), current);
    if Incidents(all, now) != [] { LastIsLatest(Incidents(all, now)); }
  }

  /** "Later than the latest incident" is "later than every severe failure in the window and
      every oracle incident". */
  lemma AfterLatest(all: seq<Event>, oracle: seq<int>, subject: string, now: int, e: Event)
    requires Ordered(all)
    ensures
      AfterTest(LicenseEvidence(all, oracle, subject, now).latestIncidentAt)(e) <==>
      && (forall x | x in all && InWindow(x, now) && Severe(x) :: x.recordedAt < e.recordedAt)
      && (forall i | 0 <= i < |oracle| :: oracle[i] < e.recordedAt)
  {
    IncidentsBound(all, now);
    LatestIsMax(oracle);
    var incidents := Incidents(all, now);
    if oracle != [] {
      var i :| 0 <= i < |oracle| && oracle[i] == Latest(oracle).value;
    }
    assert forall x | x in incidents :: x in all && InWindow(x, now) && Severe(x);
    assert forall x | x in all && InWindow(x, now) && Severe(x) :: x in incidents;
  }

  ghost function CountableTest(all: seq<Event>, oracle: seq<int>, now: int): Event -> bool {
    (e: Event) => CountableRun(all, oracle, now, e)
  }

  lemma CountableMeans(all: seq<Event>, oracle: seq<int>, subject: string, now: int, e: Event)
    requires Ordered(all)
    ensures CountableRun(all, oracle, now, e) <==>
      InWindow(e, now) && AfterTest(LicenseEvidence(all, oracle, subject, now).latestIncidentAt)(e) && Clean(e)
  {
    AfterLatest(all, oracle, subject, now, e);
  }

  /** Keeping by window, then by time, then by cleanness, keeps at once. */
  lemma SelectThrice(all: seq<Event>, now: int, at: Option<int>, keep: Event -> bool)
    requires forall e | e in all :: keep(e) <==> InWindow(e, now) && AfterTest(at)(e) && Clean(e)
    ensures CleanAfter(Select(WindowTest(now), all), at) == Select(keep, all)
  {
    var both := (e: Event) => InWindow(e, now) && (at.None? || e.recordedAt > at.value);
    SelectTwice(WindowTest(now), AfterTest(at), both, all);
    SelectTwice(both, CleanTest(), keep, all);
  }

  /** The clean runs that count are exactly the countable runs of the ledger, in order. */
  lemma CleanRunsExact(all: seq<Event>, oracle: seq<int>, subject: string, now: int)
    requires Ordered(all)
    ensures LicenseEvidence(all, oracle, subject, now).clean == Select(CountableTest(all, oracle, now), all)
  {
    forall e | e in all
      ensures CountableTest(all, oracle, now)(e) <==>
        InWindow(e, now) && AfterTest(LicenseEvidence(all, oracle, subject, now).latestIncidentAt)(e) && Clean(e)
    {
      CountableMeans(all, oracle, subject, now, e);
    }
    var at := LicenseEvidence(all, oracle, subject, now).latestIncidentAt;
    SelectThrice(all, now, at, CountableTest(all, oracle, now));
  }

  // ----------------------------------------------------------------- main results

  ghost predicate NormalLedger(all: seq<Event>) {
    forall e | e in all :: e.paths != [] && forall p | p in e.paths :: Normal(p)
  }

  /** An autonomous admission rests on at least twenty countable runs, fifteen of them
      verified by someone else, and every requested path lies inside the scope of each. */
  lemma AutonomousAdmission(all: seq<Event>, oracle: seq<int>, subject: string, now: int, paths: seq<string>)
    requires Ordered(all) && NormalLedger(all) && forall p | p in paths :: Normal(p)
    requires Admission(all, oracle, subject, now, Autonomous, paths).Ok?
    ensures
      var runs := Select(CountableTest(all, oracle, now), all);
      && |runs| >= 20
      && |Select(IndependentTest(subject), runs)| >= 15
      && (forall e | e in runs ::
            && e in all && InWindow(e, now) && Clean(e)
            && (forall x | x in all && InWindow(x, now) && Severe(x) :: x.recordedAt < e.recordedAt)
            && (forall i | 0 <= i < |oracle| :: oracle[i] < e.recordedAt)
            && (forall p | p in paths :: CoveredBy(e.paths, p)))
  {
    CleanRunsExact(all, oracle, subject, now);
    var ev := LicenseEvidence(all, oracle, subject, now);
    SelectMembers(CountableTest(all, oracle, now), all);
    forall e, p | e in ev.clean && p in paths ensures CoveredBy(e.paths, p) {
      var k :| 0 <= k < |paths| && paths[k] == p;
      assert CoveredBy(ev.scopes, paths[k]);
      GrantsReachRun(ev.clean, e, p);
    }
  }

  lemma GrantsReachRun(runs: seq<Event>, e: Event, p: string)
    requires e in runs && NormalLedger(runs) && Normal(p) && CoveredBy(CommonPathsOf(PathsOf(runs)), p)
    ensures CoveredBy(e.paths, p)
  {
    ScopesIntersect(runs, p);
    var i :| 0 <= i < |runs| && runs[i] == e;
    assert CoveredBy(runs[i].paths, p);
  }

  lemma ScopesIntersect(runs: seq<Event>, p: string)
    requires runs != [] && NormalLedger(runs) && Normal(p)
    ensures CoveredBy(CommonPathsOf(PathsOf(runs)), p) <==> forall i | 0 <= i < |runs| :: CoveredBy(runs[i].paths, p)
  {
    var lists := PathsOf(runs);
    assert lists[0] == runs[0].paths;
    forall i, q | 0 <= i < |lists| && q in lists[i] ensures Normal(q) { assert runs[i] in runs; }
    IntersectionExact(lists, p);
    assert forall i | 0 <= i < |runs| :: lists[i] == runs[i].paths;
    if CoveredByAll(lists, p) {
      forall i | 0 <= i < |runs| ensures CoveredBy(runs[i].paths, p) { assert CoveredBy(lists[i], p); }
    }
  }

  /** Scopes common to all runs suffice for admission once the counts are met. */
  lemma CommonScopesAdmit(all: seq<Event>, oracle: seq<int>, subject: string, now: int, paths: seq<string>)
    requires Ordered(all) && NormalLedger(all) && paths != [] && forall p | p in paths :: Normal(p)
    requires
      var runs := LicenseEvidence(all, oracle, subject, now).clean;
      && |runs| >= 20
      && |Select(IndependentTest(subject), runs)| >= 15
      && (forall e | e in runs :: e in all)
      && (forall e, p | e in runs && p in paths :: CoveredBy(e.paths, p))
    ensures Admission(all, oracle, subject, now, Autonomous, paths).Ok?
  {
    var ev := LicenseEvidence(all, oracle, subject, now);
    var runs := ev.clean;
    SelectMembers(AfterTest(ev.latestIncidentAt), ev.current);
    SelectMembers(CleanTest(), Select(AfterTest(ev.latestIncidentAt), ev.current));
    assert runs[0] in ev.current;
    forall i | 0 <= i < |paths| ensures CoveredBy(ev.scopes, paths[i]) {
      assert paths[i] in paths;
      forall k | 0 <= k < |runs| ensures CoveredBy(runs[k].paths, paths[i]) { assert runs[k] in runs; }
      ScopesIntersect(runs, paths[i]);
    }
    assert CoveredBy(ev.scopes, paths[0]);
  }

  /** Exactly when an autonomous request is admitted: twenty countable runs, fifteen of them
      verified by somebody else, and every requested path in the scope of each. */
  lemma AutonomousExact(all: seq<Event>, oracle: seq<int>, subject: string, now: int, paths: seq<string>)
    requires Ordered(all) && NormalLedger(all) && paths != [] && forall p | p in paths :: Normal(p)
    ensures
      Admission(all, oracle, subject, now, Autonomous, paths).Ok? <==>
      && |CountableRuns(all, oracle, now)| >= 20
      && |IndependentRuns(all, oracle, now, subject)| >= 15
      && (forall i, p | i in CountableRuns(all, oracle, now) && p in paths :: CoveredBy(all[i].paths, p))
  {
    AutonomousBySelection(all, oracle, subject, now, paths);
    CountableCounted(all, oracle, now);
    IndependentCounted(all, oracle, now, subject);
    SelectMembers(CountableTest(all, oracle, now), all);
    var runs := Select(CountableTest(all, oracle, now), all);
    forall i | i in CountableRuns(all, oracle, now) ensures all[i] in runs { assert all[i] in all; }
    forall e | e in runs ensures exists i :: i in CountableRuns(all, oracle, now) && all[i] == e {
      var i :| 0 <= i < |all| && all[i] == e;
      assert i in CountableRuns(all, oracle, now);
    }
  }

  lemma AutonomousBySelection(all: seq<Event>, oracle: seq<int>, subject: string, now: int, paths: seq<string>)
    requires Ordered(all) && NormalLedger(all) && paths != [] && forall p | p in paths :: Normal(p)
    ensures
      var runs := Select(CountableTest(all, oracle, now), all);
      Admission(all, oracle, subject, now, Autonomous, paths).Ok? <==>
      && |runs| >= 20
      && |Select(IndependentTest(subject), runs)| >= 15
      && (forall e, p | e in runs && p in paths :: CoveredBy(e.paths, p))
  {
    CleanRunsExact(all, oracle, subject, now);
    SelectMembers(CountableTest(all, oracle, now), all);
    if Admission(all, oracle, subject, now, Autonomous, paths).Ok? {
      AutonomousAdmission(all, oracle, subject, now, paths);
    } else {
      var runs := Select(CountableTest(all, oracle, now), all);
      if |runs| >= 20 && |Select(IndependentTest(subject), runs)| >= 15
         && forall e, p | e in runs && p in paths :: CoveredBy(e.paths, p) {
        CommonScopesAdmit(all, oracle, subject, now, paths);
      }
    }
  }

  ghost predicate AllExpired(all: seq<Event>, now: int) {
    forall e | e in all :: now - e.recordedAt > 30 * 86_400_000_000
  }

  ghost predicate SevereInWindow(all: seq<Event>, now: int) {
    exists e :: e in all && now - e.recordedAt <= 30 * 86_400_000_000 && Severe(e)
  }

  lemma LedgerWindow(all: seq<Event>, oracle: seq<int>, subject: string, now: int)
    requires Ordered(all)
    ensures
      var ev := LicenseEvidence(all, oracle, subject, now);
      && (ev.current == [] <==> AllExpired(all, now))
      && (ev.latestIncident.Some? <==> SevereInWindow(all, now))
      && (AllExpired(all, now) ==> |CountableRuns(all, oracle, now)| == 0)
  {
    SelectMembers(WindowTest(now), all);
    IncidentsBound(all, now);
    RunsCounted(all, oracle, subject, now);
    var ev := LicenseEvidence(all, oracle, subject, now);
    SelectMembers(AfterTest(ev.latestIncidentAt), ev.current);
    SelectMembers(CleanTest(), Select(AfterTest(ev.latestIncidentAt), ev.current));
    if ev.current != [] { assert ev.current[0] in ev.current; }
    if ev.incidents != [] { assert ev.incidents[0] in ev.incidents; }
  }

  /** The tier and its reason, decided on the ledger: expiry, countable runs, severe failures in
      the window and oracle incidents. */
  lemma TierExact(all: seq<Event>, oracle: seq<int>, subject: string, now: int)
    requires Ordered(all)
    ensures
      var ev := LicenseEvidence(all, oracle, subject, now);
      var runs, independent := |CountableRuns(all, oracle, now)|, |IndependentRuns(all, oracle, now, subject)|;
      LicenseTier(ev) ==
        if oracle != [] && runs < 5 then (HumanControlled, OracleWeakeningDemotion)
        else if all == [] then (HumanControlled, NoGovernedEvidence)
        else if AllExpired(all, now) then (Supervised, EvidenceExpired)
        else if SevereInWindow(all, now) && runs < 5 then (HumanControlled, SevereFailureDemotion)
        else if runs < 3 then (HumanControlled, NoCleanEvidence)
        else if runs >= 20 && independent >= 15 && ev.scopes != [] then (Autonomous, PolicySatisfied)
        else (Supervised, RequiresSupervision)
  {
    RunsCounted(all, oracle, subject, now);
    LedgerWindow(all, oracle, subject, now);
  }

  /** Exactly when a supervised request is admitted: while everything has expired and no oracle
      incident stands; or on current evidence with three countable runs, five after a severe
      failure in the window or an oracle incident. */
  lemma SupervisedExact(all: seq<Event>, oracle: seq<int>, subject: string, now: int, paths: seq<string>)
    requires Ordered(all)
    ensures
      var runs := |CountableRuns(all, oracle, now)|;
      Admission(all, oracle, subject, now, Supervised, paths).Ok? <==>
      || (all != [] && AllExpired(all, now) && oracle == [])
      || (!AllExpired(all, now) && runs >= 3 && (SevereInWindow(all, now) || oracle != [] ==> runs >= 5))
  {
    TierExact(all, oracle, subject, now);
    LedgerWindow(all, oracle, subject, now);
  }

  /** Whatever the request: an admission answers the derived tier; human control is never
      refused; and an agent under human control is refused everything above it. */
  lemma AdmissionAnswers(all: seq<Event>, oracle: seq<int>, subject: string, now: int, requested: Tier,
                         paths: seq<string>)
    ensures
      var tier := LicenseTier(LicenseEvidence(all, oracle, subject, now)).0;
      var r := Admission(all, oracle, subject, now, requested, paths);
      && (r.Ok? ==> r == Ok(tier))
      && (requested == HumanControlled ==> r.Ok?)
      && (tier == HumanControlled && requested != HumanControlled ==> r == Err(TierExceeded))
      && (tier == Supervised && requested == Autonomous ==> r == Err(TierExceeded))
      && (r == Err(PathsExceeded) ==> tier == Autonomous && requested == Autonomous)
  {
  }

  ghost function LaterCleanTest(now: int, after: int): Event -> bool {
    (e: Event) => InWindow(e, now) && Clean(e) && e.recordedAt > after
  }

  lemma {:induction false} SelectMonotone(f: Event -> bool, g: Event -> bool, es: seq<Event>)
    requires forall e | e in es :: f(e) ==> g(e)
    ensures |Select(f, es)| <= |Select(g, es)|
  {
    if es == [] {
    } else {
      SelectMonotone(f, g, es[..|es| - 1]);
      assert es[|es| - 1] in es;
    }
  }

  /** A severe failure in the window with fewer than five later clean runs always means
      human control; so does any oracle incident with fewer than five. */
  lemma SevereFailureDemotes(all: seq<Event>, oracle: seq<int>, subject: string, now: int, failure: Event)
    requires Ordered(all)
    requires failure in all && InWindow(failure, now) && Severe(failure)
    requires |Select(LaterCleanTest(now, failure.recordedAt), all)| < 5
    ensures LicenseTier(LicenseEvidence(all, oracle, subject, now)).0 == HumanControlled
  {
    CleanRunsExact(all, oracle, subject, now);
    SelectMonotone(CountableTest(all, oracle, now), LaterCleanTest(now, failure.recordedAt), all);
    IncidentsBound(all, now);
    SelectMembers(WindowTest(now), all);
    assert failure in LicenseEvidence(all, oracle, subject, now).current;
  }

  lemma OracleIncidentDemotes(all: seq<Event>, oracle: seq<int>, subject: string, now: int, k: nat)
    requires Ordered(all) && k < |oracle|
    requires |Select(LaterCleanTest(now, oracle[k]), all)| < 5
    ensures LicenseTier(LicenseEvidence(all, oracle, subject, now)).0 == HumanControlled
  {
    CleanRunsExact(all, oracle, subject, now);
    SelectMonotone(CountableTest(all, oracle, now), LaterCleanTest(now, oracle[k]), all);
  }

  // ------------------------------------------------------- what a clean run changes

  /** A new clean run, recorded in the window and not before anything in the ledger. */
  ghost predicate NewCleanRun(all: seq<Event>, now: int, x: Event) {
    InWindow(x, now) && Clean(x) && forall e | e in all :: e.recordedAt <= x.recordedAt
  }

  lemma SelectAppend(keep: Event -> bool, es: seq<Event>, x: Event)
    ensures Select(keep, es + [x]) == Select(keep, es) + (if keep(x) then [x] else [])
  {
    assert (es + [x])[..|es|] == es;
  }

  lemma IncidentsAppend(all: seq<Event>, now: int, x: Event)
    requires InWindow(x, now) && !Severe(x)
    ensures Select(WindowTest(now), all + [x]) == Select(WindowTest(now), all) + [x]
    ensures Incidents(all + [x], now) == Incidents(all, now)
  {
    SelectAppend(WindowTest(now), all, x);
    SelectAppend(SevereTest(), Select(WindowTest(now), all), x);
  }

  lemma CleanAppend(current: seq<Event>, at: Option<int>, subject: string, x: Event)
    requires Clean(x)
    ensures
      var runs := CleanAfter(current, at);
      && CleanAfter(current + [x], at) == runs + (if AfterTest(at)(x) then [x] else [])
      && |Select(IndependentTest(subject), CleanAfter(current + [x], at))| >= |Select(IndependentTest(subject), runs)|
  {
    SelectAppend(AfterTest(at), current, x);
    SelectAppend(CleanTest(), Select(AfterTest(at), current), x);
    SelectAppend(IndependentTest(subject), CleanAfter(current, at), x);
    if !AfterTest(at)(x) { assert Select(AfterTest(at), current) + [] == Select(AfterTest(at), current); }
  }

  lemma IncidentSideKept(all: seq<Event>, oracle: seq<int>, subject: string, now: int, x: Event)
    requires NewCleanRun(all, now, x)
    ensures
      var before, after := LicenseEvidence(all, oracle, subject, now), LicenseEvidence(all + [x], oracle, subject, now);
      && after.current == before.current + [x]
      && after.latestIncident == before.latestIncident && after.latestIncidentAt == before.latestIncidentAt
  {
    NotSevere(x);
    IncidentsAppend(all, now, x);
  }

  lemma EvidenceLists(all: seq<Event>, oracle: seq<int>, subject: string, now: int)
    ensures
      var ev := LicenseEvidence(all, oracle, subject, now);
      ev.clean == CleanAfter(ev.current, ev.latestIncidentAt)
      && ev.independent == Select(IndependentTest(subject), ev.clean)
  {
  }

  /** The incident side of the evidence stays; the run joins the current events, and the
      clean ones unless an incident is as recent. */
  lemma EvidenceAppend(all: seq<Event>, oracle: seq<int>, subject: string, now: int, x: Event)
    requires NewCleanRun(all, now, x)
    ensures
      var before, after := LicenseEvidence(all, oracle, subject, now), LicenseEvidence(all + [x], oracle, subject, now);
      && after.current == before.current + [x]
      && after.latestIncident == before.latestIncident && after.latestIncidentAt == before.latestIncidentAt
      && (after.clean == before.clean || after.clean == before.clean + [x])
      && (after.latestIncidentAt.None? ==> after.clean == before.clean + [x])
      && |after.independent| >= |before.independent|
  {
    var before := LicenseEvidence(all, oracle, subject, now);
    IncidentSideKept(all, oracle, subject, now, x);
    EvidenceLists(all, oracle, subject, now);
    EvidenceLists(all + [x], oracle, subject, now);
    CleanAppend(before.current, before.latestIncidentAt, subject, x);
  }

  lemma NotSevere(x: Event)
    requires Clean(x)
    ensures !Severe(x)
  {
  }

  /** What a new clean run does to evidence, as far as the tier depends on it. */
  ghost predicate CleanRunAdded(before: Evidence, after: Evidence) {
    && after.current != [] && after.oracle == before.oracle
    && after.latestIncident.Some? == before.latestIncident.Some?
    && |before.clean| <= |after.clean| && |before.independent| <= |after.independent|
    && (before.current == [] ==>
          before.clean == [] && before.latestIncident.None? && (before.oracle == [] ==> |after.clean| == 1))
  }

  lemma CleanRunIsAdded(all: seq<Event>, oracle: seq<int>, subject: string, now: int, x: Event)
    requires NewCleanRun(all, now, x)
    ensures CleanRunAdded(LicenseEvidence(all, oracle, subject, now), LicenseEvidence(all + [x], oracle, subject, now))
  {
    EvidenceAppend(all, oracle, subject, now, x);
    var before := LicenseEvidence(all, oracle, subject, now);
    SelectMembers(SevereTest(), before.current);
    SelectMembers(AfterTest(before.latestIncidentAt), before.current);
    SelectMembers(CleanTest(), Select(AfterTest(before.latestIncidentAt), before.current));
    LatestIsMax(oracle);
  }

  lemma TierAfterCleanRun(before: Evidence, after: Evidence)
    requires CleanRunAdded(before, after)
    ensures Rank(LicenseTier(after).0) < Rank(LicenseTier(before).0) <==>
      || (before.all != [] && before.current == [] && before.oracle == [])
      || (LicenseTier(before).0 == Autonomous && after.scopes == [])
  {
  }

  /** Some path lies both inside one list of scopes and inside the other. */
  ghost predicate ShareAPath(scopes: seq<string>, others: seq<string>) {
    exists p :: Normal(p) && CoveredBy(scopes, p) && CoveredBy(others, p)
  }

  lemma CommonScopeNormal(runs: seq<Event>)
    requires NormalLedger(runs) && CommonPathsOf(PathsOf(runs)) != []
    ensures
      var scopes := CommonPathsOf(PathsOf(runs));
      Normal(scopes[0]) && CoveredBy(scopes, scopes[0])
  {
    var lists := PathsOf(runs);
    var scopes := CommonPathsOf(lists);
    KeepMembers(Strings.SortedKeys(PathSet(lists)), lists);
    assert scopes[0] in scopes;
    var i :| 0 <= i < |lists| && scopes[0] in lists[i];
    assert runs[i] in runs && Covers(scopes[0], scopes[0]);
  }

  /** One more run leaves no common scope exactly when its paths share none with the old ones. */
  lemma ScopesLost(runs: seq<Event>, x: Event)
    requires runs != [] && NormalLedger(runs + [x])
    ensures CommonPathsOf(PathsOf(runs + [x])) == [] <==> !ShareAPath(CommonPathsOf(PathsOf(runs)), x.paths)
  {
    var more := runs + [x];
    assert NormalLedger(runs) by { assert forall e | e in runs :: e in more; }
    forall p | Normal(p)
      ensures CoveredBy(CommonPathsOf(PathsOf(more)), p) <==>
        CoveredBy(CommonPathsOf(PathsOf(runs)), p) && CoveredBy(x.paths, p)
    {
      ScopesIntersect(runs, p);
      ScopesIntersect(more, p);
      assert more[|runs|] == x && forall i | 0 <= i < |runs| :: more[i] == runs[i];
    }
    if CommonPathsOf(PathsOf(more)) != [] { CommonScopeNormal(more); }
  }

  /** A run after twenty counted ones is itself later than every incident. */
  lemma NextRunCounts(all: seq<Event>, oracle: seq<int>, subject: string, now: int, x: Event)
    requires NewCleanRun(all, now, x) && LicenseEvidence(all, oracle, subject, now).clean != []
    ensures LicenseEvidence(all + [x], oracle, subject, now).clean
         == LicenseEvidence(all, oracle, subject, now).clean + [x]
  {
    var before := LicenseEvidence(all, oracle, subject, now);
    IncidentSideKept(all, oracle, subject, now, x);
    EvidenceLists(all, oracle, subject, now);
    EvidenceLists(all + [x], oracle, subject, now);
    SelectMembers(WindowTest(now), all);
    FreshRunCounts(before.current, before.latestIncidentAt, x);
    CleanAppend(before.current, before.latestIncidentAt, subject, x);
  }

  lemma FreshRunCounts(current: seq<Event>, at: Option<int>, x: Event)
    requires CleanAfter(current, at) != [] && forall e | e in current :: e.recordedAt <= x.recordedAt
    ensures AfterTest(at)(x)
  {
    var clean := CleanAfter(current, at);
    SelectMembers(CleanTest(), Select(AfterTest(at), current));
    SelectMembers(AfterTest(at), current);
    assert clean[0] in clean && clean[0] in current;
  }

  /** A new clean run is not always a gain. It lowers the tier exactly in two situations: the
      ledger held only expired events (and no oracle incident), whose grace is "supervised";
      or the agent was autonomous and the run shares no path with the scopes granted so far. */
  lemma CleanRunLowersTier(all: seq<Event>, oracle: seq<int>, subject: string, now: int, x: Event)
    requires NewCleanRun(all, now, x) && NormalLedger(all + [x])
    ensures
      var before, after := LicenseEvidence(all, oracle, subject, now), LicenseEvidence(all + [x], oracle, subject, now);
      Rank(LicenseTier(after).0) < Rank(LicenseTier(before).0) <==>
      || (all != [] && before.current == [] && oracle == [])
      || (LicenseTier(before).0 == Autonomous && !ShareAPath(before.scopes, x.paths))
  {
    var before, after := LicenseEvidence(all, oracle, subject, now), LicenseEvidence(all + [x], oracle, subject, now);
    CleanRunIsAdded(all, oracle, subject, now, x);
    TierAfterCleanRun(before, after);
    if LicenseTier(before).0 == Autonomous {
      AutonomousHasRuns(before);
      ScopesAfterRun(all, oracle, subject, now, x);
    }
  }

  lemma AutonomousHasRuns(e: Evidence)
    requires LicenseTier(e).0 == Autonomous
    ensures e.clean != []
  {
  }

  lemma ScopesAfterRun(all: seq<Event>, oracle: seq<int>, subject: string, now: int, x: Event)
    requires NewCleanRun(all, now, x) && NormalLedger(all + [x])
    requires LicenseEvidence(all, oracle, subject, now).clean != []
    ensures
      var before, after := LicenseEvidence(all, oracle, subject, now), LicenseEvidence(all + [x], oracle, subject, now);
      after.scopes == [] <==> !ShareAPath(before.scopes, x.paths)
  {
    NextRunCounts(all, oracle, subject, now, x);
    CleanRunsInLedger(all, oracle, subject, now, x);
    ScopesLost(LicenseEvidence(all, oracle, subject, now).clean, x);
  }

  lemma CleanRunsInLedger(all: seq<Event>, oracle: seq<int>, subject: string, now: int, x: Event)
    requires NormalLedger(all + [x])
    ensures NormalLedger(LicenseEvidence(all, oracle, subject, now).clean + [x])
  {
    var before := LicenseEvidence(all, oracle, subject, now);
    SelectMembers(CleanTest(), Select(AfterTest(before.latestIncidentAt), before.current));
    SelectMembers(AfterTest(before.latestIncidentAt), before.current);
    SelectMembers(WindowTest(now), all);
    forall e | e in before.clean + [x] ensures e in all + [x] {}
  }

  /** The first situation, concretely: one event long expired gives "supervised"; one fresh
      clean run added to it gives "human controlled". */
  lemma ExpiredThenCleanExample(subject: string, stale: Event, recent: Event, now: int)
    requires stale.recordedAt == 0 && now == EVIDENCE_TTL + 1 && recent.recordedAt == now && Clean(recent)
    ensures LicenseTier(LicenseEvidence([stale], [], subject, now)).0 == Supervised
    ensures Rank(LicenseTier(LicenseEvidence([stale] + [recent], [], subject, now)).0) == 0
  {
    var before := LicenseEvidence([stale], [], subject, now);
    SelectAppend(WindowTest(now), [], stale);
    assert [] + [stale] == [stale];
    assert before.current == [];
    CleanRunIsAdded([stale], [], subject, now, recent);
    TierAfterCleanRun(before, LicenseEvidence([stale] + [recent], [], subject, now));
  }

  lemma {:induction false} SelectAll(keep: Event -> bool, es: seq<Event>)
    requires forall e | e in es :: keep(e)
    ensures Select(keep, es) == es
  {
    if es == [] {
    } else {
      var n := |es| - 1;
      assert forall e | e in es[..n] :: e in es;
      SelectAll(keep, es[..n]);
      assert es == es[..n] + [es[n]] && es[n] in es;
    }
  }

  lemma {:induction false} SelectNone(keep: Event -> bool, es: seq<Event>)
    requires forall e | e in es :: !keep(e)
    ensures Select(keep, es) == []
  {
    if es == [] {
    } else {
      var n := |es| - 1;
      assert forall e | e in es[..n] :: e in es;
      SelectNone(keep, es[..n]);
      assert es[n] in es;
    }
  }

  /** A ledger of clean, current, independently verified runs is all evidence. */
  lemma CleanLedger(runs: seq<Event>, subject: string, now: int)
    requires forall e | e in runs :: InWindow(e, now) && Clean(e) && e.verifier != subject
    ensures
      var ev := LicenseEvidence(runs, [], subject, now);
      ev.clean == runs && ev.independent == runs && ev.current == runs && ev.latestIncident.None?
  {
    SelectAll(WindowTest(now), runs);
    SelectNone(SevereTest(), runs);
    SelectAll(AfterTest(None), runs);
    SelectAll(CleanTest(), runs);
    SelectAll(IndependentTest(subject), runs);
  }

  lemma OneScope(runs: seq<Event>, scope: string)
    requires runs != [] && Normal(scope) && forall e | e in runs :: e.paths == [scope]
    ensures CommonPathsOf(PathsOf(runs)) != []
  {
    forall i | 0 <= i < |runs| ensures CoveredBy(runs[i].paths, scope) {
      assert runs[i] in runs && Covers(runs[i].paths[0], scope);
    }
    ScopesIntersect(runs, scope);
  }

  lemma TwentyRunsOnOneScope(runs: seq<Event>, subject: string, now: int, scope: string)
    requires |runs| >= 20 && Normal(scope)
    requires forall e | e in runs :: InWindow(e, now) && Clean(e) && e.verifier != subject && e.paths == [scope]
    ensures LicenseTier(LicenseEvidence(runs, [], subject, now)).0 == Autonomous
    ensures LicenseEvidence(runs, [], subject, now).scopes == CommonPathsOf(PathsOf(runs))
  {
    CleanLedger(runs, subject, now);
    OneScope(runs, scope);
    FullEvidence(LicenseEvidence(runs, [], subject, now));
  }

  lemma FullEvidence(e: Evidence)
    requires e.oracle == [] && e.current != [] && e.latestIncident.None? && e.scopes != []
    requires |e.clean| >= 20 && |e.independent| >= 15
    ensures LicenseTier(e).0 == Autonomous
  {
  }

  /** Twenty clean runs on "a" make an agent autonomous; one clean run on "b" ends that. */
  lemma UnrelatedRun(runs: seq<Event>, x: Event, subject: string, now: int)
    requires |runs| >= 20 && NewCleanRun(runs, now, x) && x.paths == ["b"]
    requires forall e | e in runs :: InWindow(e, now) && Clean(e) && e.verifier != subject && e.paths == ["a"]
    ensures LicenseTier(LicenseEvidence(runs, [], subject, now)).0 == Autonomous
    ensures Rank(LicenseTier(LicenseEvidence(runs + [x], [], subject, now)).0) < Rank(Autonomous)
  {
    TwentyRunsOnOneScope(runs, subject, now, "a");
    NoSharedPath(runs);
    assert NormalLedger(runs + [x]);
    CleanRunLowersTier(runs, [], subject, now, x);
  }

  /** The second situation, concretely. */
  lemma UnrelatedRunExample(subject: string, reviewer: string)
    requires subject != reviewer
    ensures
      var runs := seq(20, i => Event("run", 0, reviewer, true, {}, ["a"]));
      var x := Event("other", 0, reviewer, true, {}, ["b"]);
      && LicenseTier(LicenseEvidence(runs, [], subject, 0)).0 == Autonomous
      && Rank(LicenseTier(LicenseEvidence(runs + [x], [], subject, 0)).0) < Rank(Autonomous)
  {
    var runs := seq(20, i => Event("run", 0, reviewer, true, {}, ["a"]));
    assert forall e | e in runs :: e == Event("run", 0, reviewer, true, {}, ["a"]);
    UnrelatedRun(runs, Event("other", 0, reviewer, true, {}, ["b"]), subject, 0);
  }

  lemma NeverBoth(p: string)
    requires Normal(p)
    ensures !(Covers("a", p) && Covers("b", p))
  {
    if Covers("a", p) {
      assert StripSlashes("a") == "a";
      assert p[0] == 'a';
    }
    if Covers("b", p) {
      assert StripSlashes("b") == "b";
      assert p[0] == 'b';
    }
  }

  lemma NoSharedPath(runs: seq<Event>)
    requires runs != [] && forall e | e in runs :: e.paths == ["a"]
    ensures !ShareAPath(CommonPathsOf(PathsOf(runs)), ["b"])
  {
    forall p | Normal(p) ensures !(CoveredBy(CommonPathsOf(PathsOf(runs)), p) && CoveredBy(["b"], p)) {
      ScopesIntersect(runs, p);
      NeverBoth(p);
      assert runs[0] in runs;
    }
  }
}
