/**
 Baseline compaction and the regression gate of
 scripts/mcp_conformance/run_codex_compliance.py, and what they promise over whole
 chains of runs: compaction keeps the gate, and the gate is a ratchet.
 */
module RegressionGate {
  import opened GateErrors
  import opened Ordering
  import opened Results
  import opened RegressionReport

  lemma KeyInjective()
    ensures Injective(KeyOf)
  {
    forall x: Identity, y: Identity | KeyOf(x) == KeyOf(y)
      ensures x == y
    {
      assert KeyOf(x)[0] == KeyOf(y)[0] && KeyOf(x)[1] == KeyOf(y)[1] && KeyOf(x)[2] == KeyOf(y)[2];
      assert KeyOf(x)[3] == KeyOf(y)[3] && KeyOf(x)[4] == KeyOf(y)[4];
      assert ModeName(Shipping)[5] != ModeName(Intermediate)[5] && ModeName(Modern)[3] != ModeName(Shipping)[3];
      assert ModeName(Modern)[3] != ModeName(Intermediate)[3];
      assert TransportName(x.transport)[0] == TransportName(y.transport)[0];
      assert SourceName(x.source)[0] == SourceName(y.source)[0];
    }
  }

  // `sorted` on identities.
  function Listing(s: set<Identity>): (r: seq<Identity>)
    ensures forall x :: x in r <==> x in s
  {
    KeyInjective();
    Sorted(s, KeyOf)
  }

  function WithStatus(ids: Statuses, status: Status): set<Identity> {
    set id | id in ids && status in ids[id]
  }

  predicate HasShippingFailure(ids: Statuses) {
    exists id :: id in ids && id.mode == Shipping && Fail in ids[id]
  }

  // What a gate reports by itself, next to the problems of the two sides.
  datatype Finding =
    | NoAuthPolicy | DifferentAuthPolicy | ShippingRegression
    | ShippingFailed(checkId: string) | ShippingNotPassing(checkId: string)

  type Error = GateError<Problem, Finding>

  function If(c: bool, f: Finding): seq<Error> {
    if c then [Raised(f)] else []
  }

  // -------------------------------------------------------------------- compaction

  function RecordOf(id: Identity): Record {
    Record(Some(id.mode), Some(id.transport), Some(id.source), id.scenario, id.checkId)
  }

  function Records(ids: seq<Identity>): seq<Record> {
    seq(|ids|, i requires 0 <= i < |ids| => RecordOf(ids[i]))
  }

  function CompactReport(ids: Statuses, catalogs: map<Mode, seq<string>>, automaticAuth: bool): Report
    requires forall m :: m in REQUIRED_MODES ==> m in catalogs
  {
    Report(Some(REPORT_SCHEMA_VERSION), Some(true), Some(true),
           Some(OfficialInfo(Some(REPOSITORY), Some(GIT_REF), true,
                             Some(map m | m in REQUIRED_MODES :: catalogs[m]))),
           Some(automaticAuth), Some(COMPACT_KIND), Some(REQUIRED_MODES), Some(TRANSPORTS),
           Some(CompactChecks(Some(Records(Listing(WithStatus(ids, Pass)))),
                              Some(Records(Listing(WithStatus(ids, Fail)))))),
           None)
  }

  function CompactionErrors(report: Report, catalog: Catalog): seq<Error> {
    var found := RequiredChecks(report, catalog);
    Labelled(Baseline, found.problems)
    + If(report.automaticAuth.None?, NoAuthPolicy)
    + If(HasShippingFailure(found.ids), ShippingRegression)
  }

  function CompactBaseline(report: Report, catalog: Catalog): Result<Report, seq<Error>> {
    var errors := CompactionErrors(report, catalog);
    if errors != [] then Err(errors)
    else
      NoProblemsCatalog(report, catalog);
      Ok(CompactReport(RequiredChecks(report, catalog).ids, Selected(report), report.automaticAuth.value))
  }

  // -------------------------------------------------------------------------- gate

  datatype Gate = Gate(success: bool, errors: seq<Error>, newFailures: seq<Identity>, missingChecks: seq<Identity>,
                       knownFailures: seq<Identity>, fixedChecks: seq<Identity>)

  function StatusesOf(ids: Statuses, id: Identity): set<Status> {
    if id in ids then ids[id] else {}
  }

  function FailedProblems(ids: seq<Identity>): seq<Error> {
    seq(|ids|, i requires 0 <= i < |ids| => Raised(ShippingFailed(ids[i].checkId)))
  }

  function NotPassingProblems(ids: seq<Identity>): seq<Error> {
    seq(|ids|, i requires 0 <= i < |ids| => Raised(ShippingNotPassing(ids[i].checkId)))
  }

  function AuthProblems(candidate: Report, baseline: Report): seq<Error> {
    if baseline.automaticAuth.None? || candidate.automaticAuth.None? then [Raised(NoAuthPolicy)]
    else If(baseline.automaticAuth != candidate.automaticAuth, DifferentAuthPolicy)
  }

  // The sets of identities the verdict lists.
  function ShippingFailures(ids: Statuses): set<Identity> {
    set id | id in ids && id.mode == Shipping && Fail in ids[id]
  }

  function NewFailures(candidate: Statuses, baseline: Statuses): set<Identity> {
    set id | id in candidate && Fail in candidate[id] && Fail !in StatusesOf(baseline, id)
  }

  function KnownFailures(candidate: Statuses, baseline: Statuses): set<Identity> {
    set id | id in candidate && Fail in candidate[id] && Fail in StatusesOf(baseline, id)
  }

  function MissingChecks(candidate: Statuses, baseline: Statuses): set<Identity> {
    set id | id in baseline && Pass !in StatusesOf(candidate, id)
      && (Pass in baseline[id] || (Fail in baseline[id] && Fail !in StatusesOf(candidate, id)))
  }

  function FixedChecks(candidate: Statuses, baseline: Statuses): set<Identity> {
    set id | id in baseline && Fail in baseline[id] && Fail !in StatusesOf(candidate, id) && Pass in StatusesOf(candidate, id)
  }

  // The verdict in closed form: each list is the sorted listing of a set of identities.
  function GateOn(candidate: Statuses, baseline: Statuses, configuration: seq<Error>): Gate {
    var errors := configuration
      + FailedProblems(Listing(ShippingFailures(candidate)))
      + NotPassingProblems(Listing(ShippingFailures(baseline)));
    var newFailures := Listing(NewFailures(candidate, baseline));
    var missing := Listing(MissingChecks(candidate, baseline));
    Gate(errors == [] && newFailures == [] && missing == [], errors, newFailures, missing,
         Listing(KnownFailures(candidate, baseline)), Listing(FixedChecks(candidate, baseline)))
  }

  function GateOf(candidate: Report, baseline: Report, catalog: Catalog): Gate {
    var b, c := RequiredChecks(baseline, catalog), RequiredChecks(candidate, catalog);
    GateOn(c.ids, b.ids, Labelled(Baseline, b.problems) + Labelled(Candidate, c.problems) + AuthProblems(candidate, baseline))
  }

  lemma FailedSnoc(ids: seq<Identity>, id: Identity)
    ensures FailedProblems(ids + [id]) == FailedProblems(ids) + [Raised(ShippingFailed(id.checkId))]
    ensures FailedProblems(ids + []) == FailedProblems(ids)
  {
    assert ids + [] == ids;
  }

  lemma FailedNone()
    ensures FailedProblems([]) == []
  {
  }

  lemma NotPassingSnoc(ids: seq<Identity>, id: Identity)
    ensures NotPassingProblems(ids + [id]) == NotPassingProblems(ids) + [Raised(ShippingNotPassing(id.checkId))]
    ensures NotPassingProblems(ids + []) == NotPassingProblems(ids)
  {
    assert ids + [] == ids;
  }

  // One sorted pass over a side of the gate, as the source makes it.
  method CandidatePass(candidate: Statuses, baseline: Statuses)
      returns (shipping: seq<Error>, newFailures: seq<Identity>, knownFailures: seq<Identity>)
    ensures shipping == FailedProblems(Listing(ShippingFailures(candidate)))
    ensures newFailures == Listing(NewFailures(candidate, baseline))
    ensures knownFailures == Listing(KnownFailures(candidate, baseline))
  {
    hide Listing, FailedProblems;
    var keys := Listing(candidate.Keys);
    FailedNone();
    shipping, newFailures, knownFailures := [], [], [];
    ghost var allShipping := ShippingFailures(candidate);
    ghost var allNew := NewFailures(candidate, baseline);
    ghost var allKnown := KnownFailures(candidate, baseline);
    for k := 0 to |keys|
      invariant shipping == FailedProblems(Keep(keys[..k], allShipping))
      invariant newFailures == Keep(keys[..k], allNew)
      invariant knownFailures == Keep(keys[..k], allKnown)
    {
      KeepSnoc(keys, k, allShipping);
      KeepSnoc(keys, k, allNew);
      KeepSnoc(keys, k, allKnown);
      FailedSnoc(Keep(keys[..k], allShipping), keys[k]);
      var identity := keys[k];
      assert identity in candidate;
      if Fail !in candidate[identity] {
        continue;
      }
      if identity.mode == Shipping {
        shipping := shipping + [Raised(ShippingFailed(identity.checkId))];
      }
      if identity in baseline && Fail in baseline[identity] {
        knownFailures := knownFailures + [identity];
      } else {
        newFailures := newFailures + [identity];
      }
    }
    assert keys[..|keys|] == keys;
    ListingKeep(candidate.Keys, allShipping);
    ListingKeep(candidate.Keys, allNew);
    ListingKeep(candidate.Keys, allKnown);
  }

  method BaselinePass(candidate: Statuses, baseline: Statuses)
      returns (shipping: seq<Error>, missing: seq<Identity>, fixedChecks: seq<Identity>)
    ensures shipping == NotPassingProblems(Listing(ShippingFailures(baseline)))
    ensures missing == Listing(MissingChecks(candidate, baseline))
    ensures fixedChecks == Listing(FixedChecks(candidate, baseline))
  {
    hide Listing;
    var keys := Listing(baseline.Keys);
    shipping, missing, fixedChecks := [], [], [];
    ghost var allShipping := ShippingFailures(baseline);
    ghost var allMissing := MissingChecks(candidate, baseline);
    ghost var allFixed := FixedChecks(candidate, baseline);
    for k := 0 to |keys|
      invariant shipping == NotPassingProblems(Keep(keys[..k], allShipping))
      invariant missing == Keep(keys[..k], allMissing)
      invariant fixedChecks == Keep(keys[..k], allFixed)
    {
      KeepSnoc(keys, k, allShipping);
      KeepSnoc(keys, k, allMissing);
      KeepSnoc(keys, k, allFixed);
      NotPassingSnoc(Keep(keys[..k], allShipping), keys[k]);
      var identity := keys[k];
      assert identity in baseline;
      var statuses := StatusesOf(candidate, identity);
      if identity.mode == Shipping && Fail in baseline[identity] {
        shipping := shipping + [Raised(ShippingNotPassing(identity.checkId))];
      }
      if Pass in baseline[identity] && Pass !in statuses {
        missing := missing + [identity];
      } else if Fail in baseline[identity] && Fail !in statuses && Pass !in statuses {
        missing := missing + [identity];
      } else if Fail in baseline[identity] && Fail !in statuses {
        fixedChecks := fixedChecks + [identity];
      }
    }
    assert keys[..|keys|] == keys;
    ListingKeep(baseline.Keys, allShipping);
    ListingKeep(baseline.Keys, allMissing);
    ListingKeep(baseline.Keys, allFixed);
  }

  method EvaluateRegressionGate(report: Report, baselineReport: Report, catalog: Catalog) returns (gate: Gate)
    ensures gate == GateOf(report, baselineReport, catalog)
  {
    var problems, baselineChecks := RequiredRegressionChecks(baselineReport, catalog);
    var errors := Labelled(Baseline, problems);
    var candidateChecks;
    problems, candidateChecks := RequiredRegressionChecks(report, catalog);
    errors := errors + Labelled(Candidate, problems);
    errors := errors + AuthProblems(report, baselineReport);
    var failed, newFailures, knownFailures := CandidatePass(candidateChecks, baselineChecks);
    var notPassing, missing, fixedChecks := BaselinePass(candidateChecks, baselineChecks);
    errors := errors + failed + notPassing;
    gate := Gate(errors == [] && newFailures == [] && missing == [], errors, newFailures, missing,
                 knownFailures, fixedChecks);
  }

  lemma ListingKeep(s: set<Identity>, t: set<Identity>)
    requires t <= s
    ensures Keep(Listing(s), t) == Listing(t)
  {
    KeyInjective();
    KeepSorted(s, t, KeyOf);
  }

  // ------------------------------------------- what an error-free report looks like

  ghost predicate CleanIds(ids: Statuses, catalog: Catalog) {
    forall id :: id in ids ==>
      ids[id] != {} && id.checkId != "" && (CountsAsScenario(id) ==> id.scenario in catalog(id.mode))
  }

  lemma {:induction false} ModesKeepProblems(f: Found, cases: CaseTable, report: Report, catalog: Catalog,
                                             modes: seq<Mode>)
    ensures var g := AddModes(f, cases, report, catalog, modes);
      g.problems == [] ==>
        f.problems == [] && forall m :: m in modes ==> CatalogProblem(Selected(report), catalog, m) == []
    ensures var g := AddModes(f, cases, report, catalog, modes);
      g.problems == [] && CleanIds(f.ids, catalog) ==> CleanIds(g.ids, catalog)
    decreases |modes|
  {
    if modes != [] {
      var front, mode := modes[..|modes| - 1], modes[|modes| - 1];
      ModesKeepProblems(f, cases, report, catalog, front);
      var f1 := AddModes(f, cases, report, catalog, front);
      var f2 := f1.(problems := f1.problems + CatalogProblem(Selected(report), catalog, mode));
      TransportsKeepProblems(f2, cases, catalog, mode, TRANSPORTS);
      assert modes == front + [mode];
    }
  }

  lemma {:induction false} TransportsKeepProblems(f: Found, cases: CaseTable, catalog: Catalog, mode: Mode,
                                                  transports: seq<Transport>)
    ensures var g := AddTransports(f, cases, catalog, mode, transports);
      g.problems == [] ==> f.problems == [] && (CleanIds(f.ids, catalog) ==> CleanIds(g.ids, catalog))
    decreases |transports|
  {
    if transports != [] {
      var front, t := transports[..|transports| - 1], transports[|transports| - 1];
      TransportsKeepProblems(f, cases, catalog, mode, front);
      TransportKeepsProblems(AddTransports(f, cases, catalog, mode, front), cases, catalog, mode, t);
    }
  }

  lemma TransportKeepsProblems(f: Found, cases: CaseTable, catalog: Catalog, mode: Mode, t: Transport)
    ensures var g := AddTransport(f, cases, catalog, mode, t);
      g.problems == [] ==> f.problems == [] && (CleanIds(f.ids, catalog) ==> CleanIds(g.ids, catalog))
  {
    var key := (mode, Known(t));
    if key in cases && cases[key].Some? && cases[key].value != [] {
      ChecksFacts(f, cases[key].value, mode, t);
      var s := AddChecks(CheckScan(f, {}), cases[key].value, mode, t);
      ScenariosExpected(Elements(catalog(mode)), s.observed, mode);
    }
  }

  lemma ScenariosExpected(expected: set<string>, observed: set<string>, mode: Mode)
    ensures ScenarioProblems(expected, observed, mode) == [] <==> expected == observed
  {
  }

  // Every identity a case adds belongs to that case, and its scenario was observed.
  lemma {:induction false} ChecksFacts(f: Found, checks: seq<Check>, mode: Mode, transport: Transport)
    ensures var s := AddChecks(CheckScan(f, {}), checks, mode, transport);
      && (s.found.problems == [] ==> f.problems == [])
      && forall id :: id in s.found.ids ==>
        (id in f.ids && s.found.ids[id] == f.ids[id])
        || (id.mode == mode && id.transport == transport && s.found.ids[id] != {} && id.checkId != ""
            && (CountsAsScenario(id) ==> id.scenario in s.observed))
    decreases |checks|
  {
    if checks != [] {
      ChecksFacts(f, checks[..|checks| - 1], mode, transport);
      IdentityNamed(mode, transport, checks[|checks| - 1]);
    }
  }

  lemma IdentityNamed(mode: Mode, transport: Transport, c: Check)
    ensures var id := CheckIdentity(mode, transport, c);
      id.Some? ==> id.value.checkId != "" && id.value.mode == mode && id.value.transport == transport
  {
  }

  lemma {:induction false} CompactModesFacts(report: Report, catalog: Catalog, ids: Statuses, modes: seq<Mode>)
    ensures CompactModesProblems(report, catalog, ids, modes) == []
      <==> forall m :: m in modes ==> CompactModeProblems(report, catalog, ids, m) == []
    decreases |modes|
  {
    hide CompactModeProblems;
    if modes != [] {
      var front, mode := modes[..|modes| - 1], modes[|modes| - 1];
      CompactModesFacts(report, catalog, ids, front);
      NoneOfEither(CompactModesProblems(report, catalog, ids, front),
                   CompactModeProblems(report, catalog, ids, mode));
      assert modes == front + [mode];
    }
  }

  lemma NoneOfEither(a: seq<Problem>, b: seq<Problem>)
    ensures a + b == [] <==> a == [] && b == []
  {
  }

  lemma {:induction false} RecordsFacts(b: Bucket, records: seq<Record>, status: Status)
    ensures var r := AddRecords(b, records, status);
      && (r.found.problems == [] ==> b.found.problems == [])
      && forall id :: id in r.found.ids ==>
        (id in b.found.ids && r.found.ids[id] == b.found.ids[id]) || (r.found.ids[id] != {} && id.checkId != "")
    decreases |records|
  {
    if records != [] {
      RecordsFacts(b, records[..|records| - 1], status);
    }
  }

  lemma BucketsFacts(checks: CompactChecks, listed: seq<Problem>)
    ensures var f := CompactBuckets(checks, listed);
      forall id :: id in f.ids ==> f.ids[id] != {} && id.checkId != ""
  {
    var f0 := Found(listed, map[]);
    if checks.passing.Some? {
      RecordsFacts(Bucket(f0, {}), checks.passing.value, Pass);
    }
    var f1 := AddBucket(f0, checks.passing, Pass);
    assert forall id :: id in f1.ids ==> f1.ids[id] != {} && id.checkId != "";
    if checks.failing.Some? {
      RecordsFacts(Bucket(f1, {}), checks.failing.value, Fail);
    }
  }

  // A report with no problems has the pinned catalog and only well-formed identities.
  lemma NoProblemsClean(report: Report, catalog: Catalog)
    requires RequiredChecks(report, catalog).problems == []
    ensures CleanIds(RequiredChecks(report, catalog).ids, catalog)
    ensures forall m :: m in REQUIRED_MODES ==> m in Selected(report) && Selected(report)[m] == catalog(m)
  {
    hide CleanIds, CompactChecksFound, FullChecksFound, Selected;
    if report.baselineKind.Some? {
      CompactClean(report, catalog, HeaderProblems(report));
    } else {
      FullClean(report, catalog, HeaderProblems(report));
    }
  }

  lemma CompactClean(report: Report, catalog: Catalog, header: seq<Problem>)
    requires CompactChecksFound(report, catalog, header).problems == []
    ensures CleanIds(CompactChecksFound(report, catalog, header).ids, catalog)
    ensures forall m :: m in REQUIRED_MODES ==> m in Selected(report) && Selected(report)[m] == catalog(m)
  {
    hide Selected;
    var listed := CompactHeader(report, header);
    var all := CompactBuckets(report.checks.value, listed);
    BucketsFacts(report.checks.value, listed);
    CompactModesFacts(report, catalog, all.ids, REQUIRED_MODES);
    forall id | id in all.ids
      ensures CountsAsScenario(id) ==> id.scenario in catalog(id.mode)
    {
      ModeIsRequired(id.mode);
      assert CompactModeProblems(report, catalog, all.ids, id.mode) == [];
      assert CountsAsScenario(id) ==> id.scenario in ObservedScenarios(all.ids, id.mode);
    }
  }

  lemma FullClean(report: Report, catalog: Catalog, header: seq<Problem>)
    requires FullChecksFound(report, catalog, header).problems == []
    ensures CleanIds(FullChecksFound(report, catalog, header).ids, catalog)
    ensures forall m :: m in REQUIRED_MODES ==> m in Selected(report) && Selected(report)[m] == catalog(m)
  {
    hide Selected, AddModes, AddCases;
    var scan := if report.cases.None? then CaseScan(header + [NoCases], map[])
                else AddCases(CaseScan(header, map[]), report.cases.value);
    ModesKeepProblems(Found(scan.problems, map[]), scan.cases, report, catalog, REQUIRED_MODES);
  }

  lemma ModeIsRequired(m: Mode)
    ensures m in REQUIRED_MODES
  {
    assert REQUIRED_MODES[0] == Shipping && REQUIRED_MODES[1] == Intermediate && REQUIRED_MODES[2] == Modern;
  }

  lemma NoProblemsCatalog(report: Report, catalog: Catalog)
    requires RequiredChecks(report, catalog).problems == []
    ensures forall m :: m in REQUIRED_MODES ==> m in Selected(report) && Selected(report)[m] == catalog(m)
  {
    NoProblemsClean(report, catalog);
  }

  // ------------------------------------------------- reading a compact baseline back

  // The statuses a gate looks at.
  ghost function EraseSkip(ids: Statuses): Statuses {
    map id | id in ids && Observed(ids, id) :: ids[id] - {Skip}
  }

  ghost predicate Observed(ids: Statuses, id: Identity) {
    id in ids && (Pass in ids[id] || Fail in ids[id])
  }

  // Every required case and every pinned scenario has a check that was not skipped.
  ghost predicate CoveredCase(ids: Statuses, mode: Mode, transport: Transport) {
    exists id :: Observed(ids, id) && id.mode == mode && id.transport == transport
  }

  ghost predicate CoveredScenario(ids: Statuses, mode: Mode, scenario: string) {
    exists id :: Observed(ids, id) && id.mode == mode && CountsAsScenario(id) && id.scenario == scenario
  }

  ghost predicate CoveredMode(ids: Statuses, catalog: Catalog, mode: Mode) {
    && (forall t: Transport :: CoveredCase(ids, mode, t))
    && (forall s :: s in catalog(mode) ==> CoveredScenario(ids, mode, s))
  }

  ghost predicate Covered(ids: Statuses, catalog: Catalog) {
    forall mode: Mode :: CoveredMode(ids, catalog, mode)
  }

  ghost function AddAll(ids: Statuses, s: set<Identity>, status: Status): Statuses {
    map id | id in ids.Keys + s :: StatusesOf(ids, id) + if id in s then {status} else {}
  }

  lemma AddAllOne(ids: Statuses, s: set<Identity>, id: Identity, status: Status)
    requires id !in s
    ensures AddStatus(AddAll(ids, s, status), id, status) == AddAll(ids, s + {id}, status)
  {
    var a, b := AddStatus(AddAll(ids, s, status), id, status), AddAll(ids, s + {id}, status);
    assert a.Keys == b.Keys;
    forall x | x in a
      ensures a[x] == b[x]
    {
      assert StatusesOf(ids, x) + {} == StatusesOf(ids, x);
    }
  }

  lemma AddNone(ids: Statuses, status: Status)
    ensures AddAll(ids, {}, status) == ids
  {
    var same := AddAll(ids, {}, status);
    assert same.Keys == ids.Keys && forall id :: id in same ==> same[id] == ids[id] + {} == ids[id];
  }

  lemma {:induction false} AddListed(f: Found, list: seq<Identity>, status: Status)
    requires forall i, j :: 0 <= i < j < |list| ==> list[i] != list[j]
    requires forall id :: id in list ==> id.checkId != ""
    ensures AddRecords(Bucket(f, {}), Records(list), status)
         == Bucket(Found(f.problems, AddAll(f.ids, Elements(list), status)), Elements(list))
    decreases |list|
  {
    hide AddAll, AddRecord;
    if list == [] {
      AddNone(f.ids, status);
      assert Elements(list) == {};
    } else {
      var front, last := list[..|list| - 1], list[|list| - 1];
      assert Records(list)[..|list| - 1] == Records(front);
      AddListed(f, front, status);
      assert list == front + [last] && last !in front;
      assert Elements(list) == Elements(front) + {last};
      AddListedOne(f, Elements(front), last, status);
    }
  }

  lemma AddListedOne(f: Found, s: set<Identity>, id: Identity, status: Status)
    requires id !in s && id.checkId != ""
    ensures AddRecord(Bucket(Found(f.problems, AddAll(f.ids, s, status)), s), RecordOf(id), status)
         == Bucket(Found(f.problems, AddAll(f.ids, s + {id}, status)), s + {id})
  {
    hide AddAll, AddStatus;
    assert RecordIdentity(RecordOf(id)) == Some(id);
    AddAllOne(f.ids, s, id, status);
  }

  lemma ListingDistinct(s: set<Identity>)
    ensures var r := Listing(s); Elements(r) == s && forall i, j :: 0 <= i < j < |r| ==> r[i] != r[j]
  {
    KeyInjective();
    SortedIsSorted(s, KeyOf);
  }

  lemma BothAt(ids: Statuses, id: Identity)
    ensures var both := AddAll(AddAll(map[], WithStatus(ids, Pass), Pass), WithStatus(ids, Fail), Fail);
      && (id in both <==> id in EraseSkip(ids))
      && (id in both ==> both[id] == EraseSkip(ids)[id])
  {
    var p, q := WithStatus(ids, Pass), WithStatus(ids, Fail);
    var both := AddAll(AddAll(map[], p, Pass), q, Fail);
    if id in both {
      assert both[id] == (if id in p then {Pass} else {}) + if id in q then {Fail} else {};
      forall x: Status
        ensures x in both[id] <==> x in ids[id] - {Skip}
      {
        match x
        case Pass =>
        case Fail =>
        case Skip =>
      }
    }
  }

  lemma BothBuckets(ids: Statuses)
    ensures AddAll(AddAll(map[], WithStatus(ids, Pass), Pass), WithStatus(ids, Fail), Fail) == EraseSkip(ids)
  {
    hide AddAll, EraseSkip, WithStatus;
    var both := AddAll(AddAll(map[], WithStatus(ids, Pass), Pass), WithStatus(ids, Fail), Fail);
    forall id: Identity
      ensures id in both <==> id in EraseSkip(ids)
      ensures id in both ==> both[id] == EraseSkip(ids)[id]
    {
      BothAt(ids, id);
    }
  }

  lemma CompactBucketsRead(ids: Statuses)
    requires forall id :: id in ids ==> id.checkId != ""
    ensures CompactBuckets(CompactChecks(Some(Records(Listing(WithStatus(ids, Pass)))),
                                         Some(Records(Listing(WithStatus(ids, Fail))))), [])
         == Found([], EraseSkip(ids))
  {
    var p, q := WithStatus(ids, Pass), WithStatus(ids, Fail);
    ListingDistinct(p);
    ListingDistinct(q);
    AddListed(Found([], map[]), Listing(p), Pass);
    AddListed(Found([], AddAll(map[], p, Pass)), Listing(q), Fail);
    BothBuckets(ids);
  }

  lemma CaseRead(ids: Statuses, mode: Mode, transport: Transport)
    ensures HasCase(EraseSkip(ids), mode, transport) <==> CoveredCase(ids, mode, transport)
  {
    if CoveredCase(ids, mode, transport) {
      var id :| Observed(ids, id) && id.mode == mode && id.transport == transport;
      assert id in EraseSkip(ids);
    }
  }

  lemma ScenariosRead(ids: Statuses, catalog: Catalog, mode: Mode)
    requires CleanIds(ids, catalog)
    ensures ScenarioProblems(Elements(catalog(mode)), ObservedScenarios(EraseSkip(ids), mode), mode) == []
      <==> forall s :: s in catalog(mode) ==> CoveredScenario(ids, mode, s)
  {
    var expected, observed := Elements(catalog(mode)), ObservedScenarios(EraseSkip(ids), mode);
    ScenariosExpected(expected, observed, mode);
    assert observed <= expected;
    forall s
      ensures s in observed <==> CoveredScenario(ids, mode, s)
    {
      if CoveredScenario(ids, mode, s) {
        var id :| Observed(ids, id) && id.mode == mode && CountsAsScenario(id) && id.scenario == s;
        assert id in EraseSkip(ids);
      }
    }
  }

  lemma CompactModeRead(report: Report, ids: Statuses, catalog: Catalog, mode: Mode)
    requires CleanIds(ids, catalog)
    requires mode in Selected(report) && Selected(report)[mode] == catalog(mode)
    ensures CompactModeProblems(report, catalog, EraseSkip(ids), mode) == [] <==> CoveredMode(ids, catalog, mode)
  {
    CaseRead(ids, mode, Stdio);
    CaseRead(ids, mode, OfficialHttp);
    ScenariosRead(ids, catalog, mode);
    assert CatalogProblem(Selected(report), catalog, mode) == [];
    assert (forall t: Transport :: CoveredCase(ids, mode, t)) <==>
      CoveredCase(ids, mode, Stdio) && CoveredCase(ids, mode, OfficialHttp);
  }

  lemma CompactHeaderRead(ids: Statuses, catalogs: map<Mode, seq<string>>, automaticAuth: bool)
    requires forall m :: m in REQUIRED_MODES ==> m in catalogs
    ensures var c := CompactReport(ids, catalogs, automaticAuth);
      HeaderProblems(c) == [] && CompactHeader(c, []) == []
  {
    assert TRANSPORTS[0] == Stdio && TRANSPORTS[1] == OfficialHttp;
    assert Elements(TRANSPORTS) == {Stdio, OfficialHttp};
  }

  lemma CompactRead(ids: Statuses, catalogs: map<Mode, seq<string>>, automaticAuth: bool, catalog: Catalog)
    requires forall m :: m in REQUIRED_MODES ==> m in catalogs
    requires forall id :: id in ids ==> id.checkId != ""
    ensures var c := CompactReport(ids, catalogs, automaticAuth);
      RequiredChecks(c, catalog) == Found(CompactModesProblems(c, catalog, EraseSkip(ids), REQUIRED_MODES), EraseSkip(ids))
  {
    CompactHeaderRead(ids, catalogs, automaticAuth);
    CompactBucketsRead(ids);
    var c := CompactReport(ids, catalogs, automaticAuth);
    assert CompactBuckets(c.checks.value, []) == Found([], EraseSkip(ids));
    var more := CompactModesProblems(c, catalog, EraseSkip(ids), REQUIRED_MODES);
    assert [] + more == more;
  }

  // What a successful compaction knows about the report, and what it returns.
  lemma CompactionFacts(report: Report, catalog: Catalog)
    requires CompactBaseline(report, catalog).Ok?
    ensures Acceptable(report, catalog)
    ensures forall m :: m in REQUIRED_MODES ==> m in Selected(report)
    ensures CompactBaseline(report, catalog).value
         == CompactReport(RequiredChecks(report, catalog).ids, Selected(report), report.automaticAuth.value)
  {
    NoProblemsAtAll(report, catalog);
    NoProblemsClean(report, catalog);
  }

  lemma NoProblemsAtAll(report: Report, catalog: Catalog)
    ensures CompactionErrors(report, catalog) == [] <==> Acceptable(report, catalog)
  {
    var f := RequiredChecks(report, catalog);
    assert |CompactionErrors(report, catalog)| == |f.problems|
      + |If(report.automaticAuth.None?, NoAuthPolicy)| + |If(HasShippingFailure(f.ids), ShippingRegression)|;
  }

  // A report the gate can accept at all: no problems, an auth policy, shipping clean.
  ghost predicate Acceptable(report: Report, catalog: Catalog) {
    var f := RequiredChecks(report, catalog);
    f.problems == [] && report.automaticAuth.Some? && !HasShippingFailure(f.ids)
  }

  // Reading a compact baseline back gives the statuses without SKIP, and no problem
  // exactly when every case and scenario has a check that was not skipped.
  lemma CompactionReadsBack(report: Report, catalog: Catalog)
    requires CompactBaseline(report, catalog).Ok?
    ensures var ids := RequiredChecks(report, catalog).ids;
      var back := RequiredChecks(CompactBaseline(report, catalog).value, catalog);
      back.ids == EraseSkip(ids) && (back.problems == [] <==> Covered(ids, catalog))
  {
    CompactionFacts(report, catalog);
    NoProblemsClean(report, catalog);
    var ids := RequiredChecks(report, catalog).ids;
    var c := CompactReport(ids, Selected(report), report.automaticAuth.value);
    CompactRead(ids, Selected(report), report.automaticAuth.value, catalog);
    CompactModesFacts(c, catalog, EraseSkip(ids), REQUIRED_MODES);
    forall mode: Mode
      ensures mode in REQUIRED_MODES
      ensures CompactModeProblems(c, catalog, EraseSkip(ids), mode) == [] <==> CoveredMode(ids, catalog, mode)
    {
      ModeIsRequired(mode);
      CompactModeRead(c, ids, catalog, mode);
    }
  }

  lemma GateIgnoresSkip(candidate: Statuses, baseline: Statuses, configuration: seq<Error>)
    ensures GateOn(candidate, EraseSkip(baseline), configuration) == GateOn(candidate, baseline, configuration)
  {
    var kept := EraseSkip(baseline);
    assert forall id :: Fail in StatusesOf(kept, id) <==> Fail in StatusesOf(baseline, id);
    assert forall id :: Pass in StatusesOf(kept, id) <==> Pass in StatusesOf(baseline, id);
    assert ShippingFailures(kept) == ShippingFailures(baseline);
    assert NewFailures(candidate, kept) == NewFailures(candidate, baseline);
    assert KnownFailures(candidate, kept) == KnownFailures(candidate, baseline);
    assert MissingChecks(candidate, kept) == MissingChecks(candidate, baseline);
    assert FixedChecks(candidate, kept) == FixedChecks(candidate, baseline);
  }

  // Every candidate is judged alike by a report and by its compact baseline, exactly
  // when the report covers every case and scenario with a check that was not skipped.
  lemma CompactionPreservesGate(candidate: Report, report: Report, catalog: Catalog)
    requires CompactBaseline(report, catalog).Ok?
    ensures GateOf(candidate, CompactBaseline(report, catalog).value, catalog) == GateOf(candidate, report, catalog)
      <==> Covered(RequiredChecks(report, catalog).ids, catalog)
  {
    hide RequiredChecks, CompactReport, CompactBaseline, EraseSkip, Covered, GateOn;
    var compact := CompactBaseline(report, catalog).value;
    CompactionFacts(report, catalog);
    CompactionReadsBack(report, catalog);
    CompactAuth(RequiredChecks(report, catalog).ids, Selected(report), report.automaticAuth.value);
    var b, k, c := RequiredChecks(report, catalog), RequiredChecks(compact, catalog), RequiredChecks(candidate, catalog);
    Prefixed(c.ids, b.ids, b.problems, k.problems, Labelled(Candidate, c.problems), AuthProblems(candidate, report));
  }

  lemma Prefixed(c: Statuses, b: Statuses, none: seq<Problem>, some: seq<Problem>, p: seq<Error>, q: seq<Error>)
    requires none == []
    ensures GateOn(c, EraseSkip(b), Labelled(Baseline, some) + p + q) == GateOn(c, b, Labelled(Baseline, none) + p + q)
      <==> some == []
  {
    GateIgnoresSkip(c, b, Labelled(Baseline, some) + p + q);
    if some != [] {
      var g, g' := GateOn(c, b, Labelled(Baseline, none) + p + q), GateOn(c, b, Labelled(Baseline, some) + p + q);
      assert |g'.errors| == |some| + |g.errors|;
    }
  }

  lemma ErasedShipping(ids: Statuses)
    ensures HasShippingFailure(EraseSkip(ids)) <==> HasShippingFailure(ids)
    ensures WithStatus(EraseSkip(ids), Pass) == WithStatus(ids, Pass)
    ensures WithStatus(EraseSkip(ids), Fail) == WithStatus(ids, Fail)
  {
    if HasShippingFailure(ids) {
      var id :| id in ids && id.mode == Shipping && Fail in ids[id];
      assert id in EraseSkip(ids);
    }
  }

  lemma SameCatalogs(ids: Statuses, catalogs: map<Mode, seq<string>>, automaticAuth: bool)
    requires forall m :: m in REQUIRED_MODES ==> m in catalogs
    ensures var again := Selected(CompactReport(ids, catalogs, automaticAuth));
      && (forall m :: m in REQUIRED_MODES ==> m in again)
      && (map m | m in REQUIRED_MODES :: again[m]) == (map m | m in REQUIRED_MODES :: catalogs[m])
  {
    hide Listing, Records, WithStatus;
  }

  lemma SameReport(ids: Statuses, catalogs: map<Mode, seq<string>>, automaticAuth: bool)
    requires forall m :: m in REQUIRED_MODES ==> m in catalogs
    ensures var c := CompactReport(ids, catalogs, automaticAuth);
      && (forall m :: m in REQUIRED_MODES ==> m in Selected(c))
      && CompactReport(EraseSkip(ids), Selected(c), automaticAuth) == c
  {
    hide Listing, Records, WithStatus, EraseSkip, Selected;
    ErasedShipping(ids);
    SameCatalogs(ids, catalogs, automaticAuth);
  }

  // Compacting a readable compact baseline again changes nothing.
  lemma CompactionIdempotent(report: Report, catalog: Catalog)
    requires CompactBaseline(report, catalog).Ok?
    requires Covered(RequiredChecks(report, catalog).ids, catalog)
    ensures CompactBaseline(CompactBaseline(report, catalog).value, catalog) == CompactBaseline(report, catalog)
  {
    hide RequiredChecks, CompactReport, EraseSkip;
    var compact := CompactBaseline(report, catalog).value;
    CompactionFacts(report, catalog);
    CompactionReadsBack(report, catalog);
    var ids := RequiredChecks(report, catalog).ids;
    CompactAuth(ids, Selected(report), report.automaticAuth.value);
    ErasedShipping(ids);
    NoProblemsAtAll(compact, catalog);
    CompactionFacts(compact, catalog);
    SameReport(ids, Selected(report), report.automaticAuth.value);
  }

  lemma CompactAuth(ids: Statuses, catalogs: map<Mode, seq<string>>, automaticAuth: bool)
    requires forall m :: m in REQUIRED_MODES ==> m in catalogs
    ensures CompactReport(ids, catalogs, automaticAuth).automaticAuth == Some(automaticAuth)
  {
  }

  // ------------------------------------------------------------------- the ratchet

  // Nothing passes that did not, and nothing that was checked goes unchecked.
  ghost predicate Ratchet(later: Statuses, earlier: Statuses) {
    && WithStatus(earlier, Pass) <= WithStatus(later, Pass)
    && WithStatus(later, Fail) <= WithStatus(earlier, Fail)
    && WithStatus(earlier, Fail) <= WithStatus(later, Fail) + WithStatus(later, Pass)
  }

  ghost predicate Accepts(candidate: Report, baseline: Report, catalog: Catalog) {
    GateOf(candidate, baseline, catalog).success
  }

  lemma ErrorsEmpty(b: Statuses, c: Statuses, p: seq<Problem>, q: seq<Problem>, a: seq<Error>)
    ensures GateOn(c, b, Labelled(Baseline, p) + Labelled(Candidate, q) + a).errors == []
      <==> p == [] && q == [] && a == [] && !HasShippingFailure(b) && !HasShippingFailure(c)
  {
    assert |GateOn(c, b, Labelled(Baseline, p) + Labelled(Candidate, q) + a).errors|
      == |p| + |q| + |a| + |Listing(ShippingFailures(c))| + |Listing(ShippingFailures(b))|;
    ListingEmpty(ShippingFailures(c));
    ListingEmpty(ShippingFailures(b));
    ShippingEmpty(c);
    ShippingEmpty(b);
  }

  lemma ShippingEmpty(ids: Statuses)
    ensures ShippingFailures(ids) == {} <==> !HasShippingFailure(ids)
  {
    if HasShippingFailure(ids) {
      var id :| id in ids && id.mode == Shipping && Fail in ids[id];
      assert id in ShippingFailures(ids);
    }
  }

  lemma ListingEmpty(s: set<Identity>)
    ensures Listing(s) == [] <==> s == {}
  {
    if s != {} {
      var id :| id in s;
      assert id in Listing(s);
    }
  }

  // What acceptance means.
  lemma AcceptsIff(candidate: Report, baseline: Report, catalog: Catalog)
    ensures Accepts(candidate, baseline, catalog) <==>
      && Acceptable(candidate, catalog) && Acceptable(baseline, catalog)
      && candidate.automaticAuth == baseline.automaticAuth
      && Ratchet(RequiredChecks(candidate, catalog).ids, RequiredChecks(baseline, catalog).ids)
  {
    var b, c := RequiredChecks(baseline, catalog), RequiredChecks(candidate, catalog);
    ErrorsEmpty(b.ids, c.ids, b.problems, c.problems, AuthProblems(candidate, baseline));
    ListingEmpty(NewFailures(c.ids, b.ids));
    ListingEmpty(MissingChecks(c.ids, b.ids));
    RatchetIff(c.ids, b.ids);
  }

  lemma RatchetIff(c: Statuses, b: Statuses)
    ensures NewFailures(c, b) == {} && MissingChecks(c, b) == {} <==> Ratchet(c, b)
  {
    if NewFailures(c, b) == {} && MissingChecks(c, b) == {} {
      forall id | id in WithStatus(c, Fail)
        ensures id in WithStatus(b, Fail)
      {
        assert id !in NewFailures(c, b);
      }
      forall id | id in WithStatus(b, Pass)
        ensures id in WithStatus(c, Pass)
      {
        assert id !in MissingChecks(c, b);
      }
      forall id | id in WithStatus(b, Fail)
        ensures id in WithStatus(c, Fail) + WithStatus(c, Pass)
      {
        assert id !in MissingChecks(c, b);
      }
    }
    if Ratchet(c, b) {
      forall id | id in c && Fail in c[id]
        ensures id !in NewFailures(c, b)
      {
        assert id in WithStatus(c, Fail);
        assert id in WithStatus(b, Fail);
      }
      forall id | id in b
        ensures id !in MissingChecks(c, b)
      {
        assert Pass in b[id] ==> id in WithStatus(b, Pass) && id in WithStatus(c, Pass);
        assert Fail in b[id] ==> id in WithStatus(b, Fail);
      }
    }
  }

  lemma AcceptanceReflexive(report: Report, catalog: Catalog)
    ensures Accepts(report, report, catalog) <==> Acceptable(report, catalog)
  {
    AcceptsIff(report, report, catalog);
  }

  lemma AcceptanceTransitive(first: Report, second: Report, third: Report, catalog: Catalog)
    requires Accepts(second, first, catalog) && Accepts(third, second, catalog)
    ensures Accepts(third, first, catalog)
  {
    AcceptsIff(second, first, catalog);
    AcceptsIff(third, second, catalog);
    AcceptsIff(third, first, catalog);
  }

  // The baseline kept after a run: the run itself or its compact form.
  ghost predicate KeptAs(baseline: Report, run: Report, catalog: Catalog) {
    baseline == run || CompactBaseline(run, catalog) == Ok(baseline)
  }

  // Runs accepted one after the other, each against what was kept of the one before.
  ghost predicate Chain(runs: seq<Report>, kept: seq<Report>, catalog: Catalog) {
    |kept| == |runs|
    && (forall i :: 0 <= i < |runs| ==> KeptAs(kept[i], runs[i], catalog))
    && forall i :: 0 < i < |runs| ==> Accepts(runs[i], kept[i - 1], catalog)
  }

  // A run accepted against a compact baseline is accepted against what it was made from.
  lemma AcceptedByKept(candidate: Report, baseline: Report, run: Report, catalog: Catalog)
    requires KeptAs(baseline, run, catalog) && Accepts(candidate, baseline, catalog)
    ensures Accepts(candidate, run, catalog)
  {
    if baseline != run {
      hide RequiredChecks, GateOf, CompactReport, CompactBaseline, EraseSkip;
      CompactionFacts(run, catalog);
      CompactionReadsBack(run, catalog);
      var ids := RequiredChecks(run, catalog).ids;
      CompactAuth(ids, Selected(run), run.automaticAuth.value);
      ErasedShipping(ids);
      AcceptsIff(candidate, baseline, catalog);
      AcceptsIff(candidate, run, catalog);
    }
  }

  // Over any chain, every later run is accepted by every earlier one, so passing
  // identities only grow, failing ones only shrink, and none is ever lost.
  lemma {:induction false} ChainIsRatchet(runs: seq<Report>, kept: seq<Report>, catalog: Catalog, i: nat, j: nat)
    requires Chain(runs, kept, catalog) && i < j < |runs|
    ensures Accepts(runs[j], runs[i], catalog)
    ensures Ratchet(RequiredChecks(runs[j], catalog).ids, RequiredChecks(runs[i], catalog).ids)
    decreases j
  {
    hide GateOf, RequiredChecks, CompactBaseline, Ratchet;
    AcceptedByKept(runs[j], kept[j - 1], runs[j - 1], catalog);
    if i < j - 1 {
      ChainIsRatchet(runs, kept, catalog, i, j - 1);
      AcceptanceTransitive(runs[i], runs[j - 1], runs[j], catalog);
    }
    AcceptsIff(runs[j], runs[i], catalog);
  }

  // ---------------------------------------------- a baseline of which nothing is kept

  function SkippedCheck(source: Source, scenario: Option<string>): Check {
    Check(Some(source), scenario, "check", Some("check"), Some(Skip), true)
  }

  function SkippedChecks(scenarios: seq<string>): seq<Check> {
    if scenarios == [] then [SkippedCheck(Supplemental, None)]
    else SkippedChecks(scenarios[..|scenarios| - 1]) + [SkippedCheck(Official, Some(scenarios[|scenarios| - 1]))]
  }

  const REQUIRED_CASES: seq<(Mode, Transport)> := [
    (Shipping, Stdio), (Shipping, OfficialHttp), (Intermediate, Stdio), (Intermediate, OfficialHttp),
    (Modern, Stdio), (Modern, OfficialHttp)]

  function SkippedCase(catalog: Catalog, key: (Mode, Transport)): Case {
    Case(Some(key.0), Known(key.1), Some(SkippedChecks(catalog(key.0))))
  }

  function SkippedCases(catalog: Catalog, keys: seq<(Mode, Transport)>): seq<Case> {
    seq(|keys|, i requires 0 <= i < |keys| => SkippedCase(catalog, keys[i]))
  }

  // The report of a run that skipped every check of the catalog.
  function SkippedReport(catalog: Catalog): Report {
    Report(
      Some(REPORT_SCHEMA_VERSION), Some(true), Some(true),
      Some(OfficialInfo(Some(REPOSITORY), Some(GIT_REF), true, Some(map m | m in REQUIRED_MODES :: catalog(m)))),
      Some(false), None, None, None, None, Some(SkippedCases(catalog, REQUIRED_CASES)))
  }

  ghost predicate OnlySkips(f: Found) {
    f.problems == [] && forall id :: id in f.ids ==> f.ids[id] == {Skip}
  }

  ghost predicate Named(scenarios: seq<string>) {
    forall s :: s in scenarios ==> s != ""
  }

  lemma SkippedAdd(s: CheckScan, source: Source, scenario: Option<string>, mode: Mode, t: Transport)
    requires OnlySkips(s.found) && scenario != Some("")
    ensures var r := AddCheck(s, SkippedCheck(source, scenario), mode, t);
      && OnlySkips(r.found)
      && (source == Supplemental ==> r.observed == s.observed)
      && (source == Official && scenario.Some? && t == OfficialHttp ==> r.observed == s.observed + {scenario.value})
  {
  }

  lemma {:induction false} SkippedAdds(f: Found, scenarios: seq<string>, mode: Mode, t: Transport)
    requires OnlySkips(f) && Named(scenarios)
    ensures SkippedChecks(scenarios) != []
    ensures var r := AddChecks(CheckScan(f, {}), SkippedChecks(scenarios), mode, t);
      OnlySkips(r.found) && (t == OfficialHttp ==> r.observed == Elements(scenarios))
    decreases |scenarios|
  {
    hide AddCheck, OnlySkips, SkippedCheck;
    var s, checks := CheckScan(f, {}), SkippedChecks(scenarios);
    if scenarios == [] {
      assert checks[..0] == [];
      SkippedAdd(s, Supplemental, None, mode, t);
    } else {
      var front, last := scenarios[..|scenarios| - 1], scenarios[|scenarios| - 1];
      assert checks[..|checks| - 1] == SkippedChecks(front);
      assert scenarios == front + [last];
      forall x | x in front
        ensures x != ""
      {
        assert x in scenarios;
      }
      SkippedAdds(f, front, mode, t);
      assert last in scenarios;
      SkippedAdd(AddChecks(s, SkippedChecks(front), mode, t), Official, Some(last), mode, t);
      assert Elements(scenarios) == Elements(front) + {last};
    }
  }

  // The case table of the skipped report.
  ghost predicate Tabled(cases: CaseTable, catalog: Catalog, keys: seq<(Mode, Transport)>) {
    forall k: (Mode, Transport) ::
      && ((k.0, Known(k.1)) in cases <==> k in keys)
      && (k in keys ==> cases[(k.0, Known(k.1))] == Some(SkippedChecks(catalog(k.0))))
  }

  lemma {:induction false} SkippedTable(catalog: Catalog, keys: seq<(Mode, Transport)>)
    requires forall i, j :: 0 <= i < j < |keys| ==> keys[i] != keys[j]
    ensures var r := AddCases(CaseScan([], map[]), SkippedCases(catalog, keys));
      r.problems == [] && Tabled(r.cases, catalog, keys)
    decreases |keys|
  {
    hide SkippedChecks, SkippedCase, AddCase, Tabled;
    if keys == [] {
      NothingTabled(catalog);
    } else {
      var front, last := keys[..|keys| - 1], keys[|keys| - 1];
      assert keys == front + [last] && last !in front;
      assert SkippedCases(catalog, keys)[..|keys| - 1] == SkippedCases(catalog, front);
      SkippedTable(catalog, front);
      TableStep(AddCases(CaseScan([], map[]), SkippedCases(catalog, front)), catalog, front, last);
    }
  }

  lemma NothingTabled(catalog: Catalog)
    ensures Tabled(map[], catalog, [])
  {
  }

  lemma TableStep(s: CaseScan, catalog: Catalog, keys: seq<(Mode, Transport)>, key: (Mode, Transport))
    requires s.problems == [] && Tabled(s.cases, catalog, keys) && key !in keys
    ensures var r := AddCase(s, SkippedCase(catalog, key));
      r.problems == [] && Tabled(r.cases, catalog, keys + [key])
  {
    hide SkippedChecks;
  }

  lemma SkippedTransport(f: Found, cases: CaseTable, catalog: Catalog, mode: Mode, t: Transport)
    requires OnlySkips(f) && Named(catalog(mode))
    requires (mode, Known(t)) in cases && cases[(mode, Known(t))] == Some(SkippedChecks(catalog(mode)))
    ensures OnlySkips(AddTransport(f, cases, catalog, mode, t))
  {
    hide SkippedChecks, AddChecks;
    SkippedAdds(f, catalog(mode), mode, t);
  }

  lemma SkippedMode(f: Found, cases: CaseTable, report: Report, catalog: Catalog, mode: Mode)
    requires OnlySkips(f) && Named(catalog(mode)) && Tabled(cases, catalog, REQUIRED_CASES)
    requires CatalogProblem(Selected(report), catalog, mode) == []
    ensures OnlySkips(AddMode(f, cases, report, catalog, mode))
  {
    hide AddTransport, Selected, SkippedChecks, OnlySkips, CatalogProblem;
    assert (mode, Stdio) in REQUIRED_CASES && (mode, OfficialHttp) in REQUIRED_CASES;
    assert f.(problems := f.problems + []) == f;
    SkippedTransport(f, cases, catalog, mode, Stdio);
    var g := AddTransport(f, cases, catalog, mode, Stdio);
    SkippedTransport(g, cases, catalog, mode, OfficialHttp);
    TwoTransports(f, cases, catalog, mode);
  }

  lemma TwoTransports(f: Found, cases: CaseTable, catalog: Catalog, mode: Mode)
    ensures AddTransports(f, cases, catalog, mode, TRANSPORTS)
         == AddTransport(AddTransport(f, cases, catalog, mode, Stdio), cases, catalog, mode, OfficialHttp)
  {
    hide AddTransport;
    assert TRANSPORTS[..1] == [Stdio] && [Stdio][..0] == [];
    assert AddTransports(f, cases, catalog, mode, []) == f;
    assert AddTransports(f, cases, catalog, mode, [Stdio]) == AddTransport(f, cases, catalog, mode, Stdio);
  }

  lemma {:induction false} SkippedModes(f: Found, cases: CaseTable, report: Report, catalog: Catalog, modes: seq<Mode>)
    requires OnlySkips(f) && Tabled(cases, catalog, REQUIRED_CASES)
    requires forall m :: m in modes ==> Named(catalog(m)) && CatalogProblem(Selected(report), catalog, m) == []
    ensures OnlySkips(AddModes(f, cases, report, catalog, modes))
    decreases |modes|
  {
    hide AddMode, Tabled, Named, CatalogProblem, OnlySkips;
    if modes != [] {
      var front, last := modes[..|modes| - 1], modes[|modes| - 1];
      SkippedModes(f, cases, report, catalog, front);
      SkippedMode(AddModes(f, cases, report, catalog, front), cases, report, catalog, last);
    }
  }

  lemma SkippedFound(catalog: Catalog)
    requires forall m :: Named(catalog(m))
    ensures OnlySkips(RequiredChecks(SkippedReport(catalog), catalog))
  {
    hide AddCases, AddModes, SkippedCases, Tabled, Named;
    var report := SkippedReport(catalog);
    assert HeaderProblems(report) == [];
    SkippedTable(catalog, REQUIRED_CASES);
    SkippedModes(Found([], map[]), AddCases(CaseScan([], map[]), report.cases.value).cases, report, catalog, REQUIRED_MODES);
  }

  // The coverage is not automatic.  Whatever the catalog, a run that skipped all its checks
  // compacts and is accepted against itself, but nothing is accepted against its compact
  // form, and every candidate is judged differently by the two.
  lemma SkippedBaseline(catalog: Catalog, candidate: Report)
    requires forall m :: Named(catalog(m))
    ensures var report := SkippedReport(catalog);
      && CompactBaseline(report, catalog).Ok? && !Covered(RequiredChecks(report, catalog).ids, catalog)
      && Accepts(report, report, catalog)
      && !Accepts(candidate, CompactBaseline(report, catalog).value, catalog)
      && GateOf(candidate, CompactBaseline(report, catalog).value, catalog) != GateOf(candidate, report, catalog)
  {
    hide RequiredChecks, GateOf, CompactReport, Labelled, Ratchet;
    var report := SkippedReport(catalog);
    SkippedFound(catalog);
    NoProblemsAtAll(report, catalog);
    var ids := RequiredChecks(report, catalog).ids;
    assert !CoveredCase(ids, Shipping, Stdio);
    assert !CoveredMode(ids, catalog, Shipping);
    AcceptanceReflexive(report, catalog);
    CompactionReadsBack(report, catalog);
    AcceptsIff(candidate, CompactBaseline(report, catalog).value, catalog);
    CompactionPreservesGate(candidate, report, catalog);
  }
}
