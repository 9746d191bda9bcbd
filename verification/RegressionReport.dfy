/**
 Conformance reports of scripts/mcp_conformance/run_codex_compliance.py and their
 validation (`_required_regression_checks`).

 Only the fields the validator reads are kept.  A field of the wrong JSON type is
 `None` or a `Malformed...` record; the pinned scenario lists are a parameter, the
 `catalog`, so every result holds for any pinned revision.
 */
module RegressionReport {
  import opened Ordering
  import opened Results
  import opened Sequences

  datatype Mode = Shipping | Intermediate | Modern
  datatype Transport = Stdio | OfficialHttp
  datatype Source = Official | Harness | Supplemental
  datatype Status = Pass | Fail | Skip

  const REPORT_SCHEMA_VERSION := 4
  const COMPACT_KIND := "mcp-conformance-regression-baseline-v1"
  const REPOSITORY := "modelcontextprotocol/conformance"
  const GIT_REF := "49103de6ed70804e940637bf3e9e29e4a3f54e64"
  const REQUIRED_MODES := [Shipping, Intermediate, Modern]
  const TRANSPORTS := [Stdio, OfficialHttp]

  function ModeName(m: Mode): string {
    match m case Shipping => "2025-06-18" case Intermediate => "2025-11-25" case Modern => "2026-07-28"
  }

  function TransportName(t: Transport): string {
    match t case Stdio => "stdio" case OfficialHttp => "official-http"
  }

  function SourceName(s: Source): string {
    match s case Official => "official" case Harness => "harness" case Supplemental => "supplemental"
  }

  datatype Identity = Identity(mode: Mode, transport: Transport, source: Source, scenario: string, checkId: string)

  // The tuple a frozen, ordered dataclass is compared by.
  function KeyOf(id: Identity): Key {
    [ModeName(id.mode), TransportName(id.transport), SourceName(id.source), id.scenario, id.checkId]
  }

  type Statuses = map<Identity, set<Status>>
  type Catalog = Mode -> seq<string>

  // ---------------------------------------------------------------- report fields

  datatype Check =
    | MalformedCheck
    | Check(source: Option<Source>, scenario: Option<string>, name: string, checkId: Option<string>,
            status: Option<Status>, success: bool)

  datatype TransportField = Known(transport: Transport) | OtherName(name: string) | NotAString

  datatype Case =
    | MalformedCase
    | Case(mode: Option<Mode>, transport: TransportField, checks: Option<seq<Check>>)

  datatype Record =
    | MalformedRecord
    | Record(mode: Option<Mode>, transport: Option<Transport>, source: Option<Source>, scenario: string, checkId: string)

  datatype CompactChecks = CompactChecks(passing: Option<seq<Record>>, failing: Option<seq<Record>>)

  datatype OfficialInfo = OfficialInfo(
    repository: Option<string>, gitRef: Option<string>, authenticationIncluded: bool,
    scenarios: Option<map<Mode, seq<string>>>)

  datatype Report = Report(
    schemaVersion: Option<int>, versionCheck: Option<bool>, modernFeature: Option<bool>,
    official: Option<OfficialInfo>, automaticAuth: Option<bool>,
    baselineKind: Option<string>, requiredModes: Option<seq<Mode>>, transports: Option<seq<Transport>>,
    checks: Option<CompactChecks>, cases: Option<seq<Case>>)

  datatype Problem =
    | WrongSchema | NoVersionCheck | NoModernFeature
    | NoOfficial | WrongRepository | WrongRevision
    | NoAuthentication | NoCatalog
    | UnsupportedKind | WrongModes | WrongTransports
    | NoIdentities | NoBucket(bucket: Status)
    | BadRecord(bucket: Status) | DuplicateRecord(bucket: Status)
    | NoCases | BadCase | DuplicateCase(mode: Mode, field: TransportField)
    | WrongCatalog(mode: Mode) | MissingCase(mode: Mode, transport: Transport)
    | NoChecks(mode: Mode, transport: Transport)
    | BadCheck(mode: Mode, transport: Transport)
    | NotObserved(mode: Mode, scenarios: set<string>)
    | Unexpected(mode: Mode, scenarios: set<string>)

  // A validation so far: the problems reported and the statuses seen per identity.
  datatype Found = Found(problems: seq<Problem>, ids: Statuses)

  // ------------------------------------------------------------------- identities

  // The zeros of the Unicode decimal-digit blocks, as str.isdecimal sees them.
  predicate IsDecimalZero(z: int) {
    z == 0x30 || z == 0x660 || z == 0x6F0 || z == 0x7C0 || z == 0x966 || z == 0x9E6 || z == 0xA66 || z == 0xAE6
    || z == 0xB66 || z == 0xBE6 || z == 0xC66 || z == 0xCE6 || z == 0xD66 || z == 0xDE6 || z == 0xE50 || z == 0xED0
    || z == 0xF20 || z == 0x1040 || z == 0x1090 || z == 0x17E0 || z == 0x1810 || z == 0x1946 || z == 0x19D0
    || z == 0x1A80 || z == 0x1A90 || z == 0x1B50 || z == 0x1BB0 || z == 0x1C40 || z == 0x1C50 || z == 0xA620
    || z == 0xA8D0 || z == 0xA900 || z == 0xA9D0 || z == 0xA9F0 || z == 0xAA50 || z == 0xABF0 || z == 0xFF10
    || z == 0x104A0 || z == 0x10D30 || z == 0x11066 || z == 0x110F0 || z == 0x11136 || z == 0x111D0 || z == 0x112F0
    || z == 0x11450 || z == 0x114D0 || z == 0x11650 || z == 0x116C0 || z == 0x11730 || z == 0x118E0 || z == 0x11950
    || z == 0x11C50 || z == 0x11D50 || z == 0x11DA0 || z == 0x11F50 || z == 0x16A60 || z == 0x16AC0 || z == 0x16B50
    || z == 0x1D7CE || z == 0x1D7D8 || z == 0x1D7E2 || z == 0x1D7EC || z == 0x1D7F6 || z == 0x1E140 || z == 0x1E2F0
    || z == 0x1E4F0 || z == 0x1E950 || z == 0x1FBF0
  }

  predicate IsDecimalText(s: string) {
    s != "" && forall i :: 0 <= i < |s| ==> exists z :: s[i] as int - 9 <= z <= s[i] as int && IsDecimalZero(z)
  }

  // The index of the last '#', or the length when there is none.
  function LastHash(name: string): (i: nat)
    ensures i <= |name|
    ensures i < |name| ==> name[i] == '#' && '#' !in name[i + 1..]
    ensures i == |name| ==> '#' !in name
  {
    if name == "" then 0
    else
      var k := LastHash(name[1..]);
      if k < |name| - 1 then k + 1 else if name[0] == '#' then 0 else |name|
  }

  // The name without the arrival number of a repeated observation.
  function StableName(name: string): string {
    var i := LastHash(name);
    if 0 < i < |name| && IsDecimalText(name[i + 1..]) then name[..i] else name
  }

  function CheckIdentity(mode: Mode, transport: Transport, check: Check): Option<Identity> {
    if check.MalformedCheck? || check.source.None? || check.name == "" then None
    else if check.scenario == Some("") || check.checkId == Some("") then None
    else Some(Identity(mode, transport, check.source.value,
                       if check.scenario.Some? then check.scenario.value else "",
                       if check.checkId.Some? then check.checkId.value else StableName(check.name)))
  }

  // Two observations of one check that differ only in their numbers are one identity.
  lemma RetryNumberIrrelevant(mode: Mode, transport: Transport, check: Check, m: string, n: string)
    requires check.Check? && check.checkId.None? && check.name != ""
    requires IsDecimalText(m) && IsDecimalText(n)
    ensures CheckIdentity(mode, transport, check.(name := check.name + "#" + m))
         == CheckIdentity(mode, transport, check.(name := check.name + "#" + n))
  {
    NumberedName(check.name, m);
    NumberedName(check.name, n);
  }

  lemma DecimalHasNoHash(s: string)
    requires IsDecimalText(s)
    ensures '#' !in s
  {
    forall i | 0 <= i < |s|
      ensures s[i] != '#'
    {
      var z :| s[i] as int - 9 <= z <= s[i] as int && IsDecimalZero(z);
    }
  }

  lemma NumberedName(stem: string, n: string)
    requires stem != "" && IsDecimalText(n)
    ensures StableName(stem + "#" + n) == stem
  {
    hide IsDecimalText;
    DecimalHasNoHash(n);
    var name := stem + "#" + n;
    var i := LastHash(name);
    assert name[|stem|] == '#';
    assert i == |stem| && name[i + 1..] == n && name[..i] == stem;
  }

  function AddStatus(ids: Statuses, id: Identity, status: Status): Statuses {
    ids[id := (if id in ids then ids[id] else {}) + {status}]
  }

  predicate CountsAsScenario(id: Identity) {
    id.transport == OfficialHttp && (id.source == Official || id.source == Harness)
  }

  // ---------------------------------------------------------------------- headers

  function When(c: bool, p: Problem): seq<Problem> {
    if c then [p] else []
  }

  function OfficialProblems(official: Option<OfficialInfo>): seq<Problem> {
    if official.None? then [NoOfficial]
    else
      When(official.value.repository != Some(REPOSITORY), WrongRepository)
      + When(official.value.gitRef != Some(GIT_REF), WrongRevision)
      + When(!official.value.authenticationIncluded, NoAuthentication)
      + When(official.value.scenarios.None?, NoCatalog)
  }

  function HeaderProblems(report: Report): seq<Problem> {
    When(report.schemaVersion != Some(REPORT_SCHEMA_VERSION), WrongSchema)
    + When(report.versionCheck != Some(true), NoVersionCheck)
    + When(report.modernFeature != Some(true), NoModernFeature)
    + OfficialProblems(report.official)
  }

  function Selected(report: Report): map<Mode, seq<string>> {
    if report.official.Some? && report.official.value.scenarios.Some? then report.official.value.scenarios.value
    else map[]
  }

  function CatalogProblem(selected: map<Mode, seq<string>>, catalog: Catalog, mode: Mode): seq<Problem> {
    When(mode !in selected || selected[mode] != catalog(mode), WrongCatalog(mode))
  }

  function ScenarioProblems(expected: set<string>, observed: set<string>, mode: Mode): seq<Problem> {
    When(expected - observed != {}, NotObserved(mode, expected - observed))
    + When(observed - expected != {}, Unexpected(mode, observed - expected))
  }

  // -------------------------------------------------------------- compact baselines

  datatype Bucket = Bucket(found: Found, seen: set<Identity>)

  function RecordIdentity(r: Record): Option<Identity> {
    if r.MalformedRecord? || r.mode.None? || r.transport.None? || r.source.None? || r.checkId == "" then None
    else Some(Identity(r.mode.value, r.transport.value, r.source.value, r.scenario, r.checkId))
  }

  function AddRecord(b: Bucket, r: Record, status: Status): Bucket {
    var id := RecordIdentity(r);
    if id.None? then b.(found := b.found.(problems := b.found.problems + [BadRecord(status)]))
    else if id.value in b.seen then b.(found := b.found.(problems := b.found.problems + [DuplicateRecord(status)]))
    else Bucket(b.found.(ids := AddStatus(b.found.ids, id.value, status)), b.seen + {id.value})
  }

  function AddRecords(b: Bucket, records: seq<Record>, status: Status): Bucket {
    if records == [] then b
    else AddRecord(AddRecords(b, records[..|records| - 1], status), records[|records| - 1], status)
  }

  function AddBucket(f: Found, records: Option<seq<Record>>, status: Status): Found {
    if records.None? then f.(problems := f.problems + [NoBucket(status)])
    else AddRecords(Bucket(f, {}), records.value, status).found
  }

  predicate HasCase(ids: Statuses, mode: Mode, transport: Transport) {
    exists id :: id in ids && id.mode == mode && id.transport == transport
  }

  function ObservedScenarios(ids: Statuses, mode: Mode): set<string> {
    set id | id in ids && id.mode == mode && CountsAsScenario(id) :: id.scenario
  }

  function CompactModeProblems(report: Report, catalog: Catalog, ids: Statuses, mode: Mode): seq<Problem> {
    CatalogProblem(Selected(report), catalog, mode)
    + When(!HasCase(ids, mode, Stdio), MissingCase(mode, Stdio))
    + When(!HasCase(ids, mode, OfficialHttp), MissingCase(mode, OfficialHttp))
    + ScenarioProblems(Elements(catalog(mode)), ObservedScenarios(ids, mode), mode)
  }

  function CompactModesProblems(report: Report, catalog: Catalog, ids: Statuses, modes: seq<Mode>): seq<Problem> {
    if modes == [] then []
    else CompactModesProblems(report, catalog, ids, modes[..|modes| - 1])
         + CompactModeProblems(report, catalog, ids, modes[|modes| - 1])
  }

  function CompactHeader(report: Report, header: seq<Problem>): seq<Problem> {
    header
    + When(report.requiredModes != Some(REQUIRED_MODES), WrongModes)
    + When(report.transports.None? || |report.transports.value| != 2
           || Elements(report.transports.value) != {Stdio, OfficialHttp}, WrongTransports)
  }

  function CompactBuckets(checks: CompactChecks, listed: seq<Problem>): Found {
    AddBucket(AddBucket(Found(listed, map[]), checks.passing, Pass), checks.failing, Fail)
  }

  function CompactChecksFound(report: Report, catalog: Catalog, header: seq<Problem>): Found {
    if report.baselineKind != Some(COMPACT_KIND) then Found(header + [UnsupportedKind], map[])
    else
      var listed := CompactHeader(report, header);
      if report.checks.None? then Found(listed + [NoIdentities], map[])
      else
        var all := CompactBuckets(report.checks.value, listed);
        Found(all.problems + CompactModesProblems(report, catalog, all.ids, REQUIRED_MODES), all.ids)
  }

  // -------------------------------------------------------------------- full reports

  type CaseTable = map<(Mode, TransportField), Option<seq<Check>>>

  datatype CaseScan = CaseScan(problems: seq<Problem>, cases: CaseTable)

  function AddCase(s: CaseScan, c: Case): CaseScan {
    if c.MalformedCase? then s.(problems := s.problems + [BadCase])
    else if c.mode.None? then s
    else if c.transport.NotAString? then s.(problems := s.problems + [BadCase])
    else if (c.mode.value, c.transport) in s.cases then
      s.(problems := s.problems + [DuplicateCase(c.mode.value, c.transport)])
    else s.(cases := s.cases[(c.mode.value, c.transport) := c.checks])
  }

  function AddCases(s: CaseScan, cases: seq<Case>): CaseScan {
    if cases == [] then s
    else AddCase(AddCases(s, cases[..|cases| - 1]), cases[|cases| - 1])
  }

  datatype CheckScan = CheckScan(found: Found, observed: set<string>)

  predicate WellFormedCheck(mode: Mode, transport: Transport, c: Check) {
    CheckIdentity(mode, transport, c).Some? && c.status.Some? && c.success == (c.status.value != Fail)
  }

  function AddCheck(s: CheckScan, c: Check, mode: Mode, transport: Transport): CheckScan {
    if !WellFormedCheck(mode, transport, c) then
      s.(found := s.found.(problems := s.found.problems + [BadCheck(mode, transport)]))
    else
      var id := CheckIdentity(mode, transport, c).value;
      CheckScan(s.found.(ids := AddStatus(s.found.ids, id, c.status.value)),
                if CountsAsScenario(id) then s.observed + {id.scenario} else s.observed)
  }

  function AddChecks(s: CheckScan, checks: seq<Check>, mode: Mode, transport: Transport): CheckScan {
    if checks == [] then s
    else AddCheck(AddChecks(s, checks[..|checks| - 1], mode, transport), checks[|checks| - 1], mode, transport)
  }

  function AddTransport(f: Found, cases: CaseTable, catalog: Catalog, mode: Mode, transport: Transport): Found {
    var key := (mode, Known(transport));
    if key !in cases then f.(problems := f.problems + [MissingCase(mode, transport)])
    else if cases[key].None? || cases[key].value == [] then f.(problems := f.problems + [NoChecks(mode, transport)])
    else
      var s := AddChecks(CheckScan(f, {}), cases[key].value, mode, transport);
      if transport == OfficialHttp then
        s.found.(problems := s.found.problems + ScenarioProblems(Elements(catalog(mode)), s.observed, mode))
      else s.found
  }

  function AddTransports(f: Found, cases: CaseTable, catalog: Catalog, mode: Mode, transports: seq<Transport>): Found {
    if transports == [] then f
    else AddTransport(AddTransports(f, cases, catalog, mode, transports[..|transports| - 1]),
                      cases, catalog, mode, transports[|transports| - 1])
  }

  function AddMode(f: Found, cases: CaseTable, report: Report, catalog: Catalog, mode: Mode): Found {
    var f0 := f.(problems := f.problems + CatalogProblem(Selected(report), catalog, mode));
    AddTransports(f0, cases, catalog, mode, TRANSPORTS)
  }

  function AddModes(f: Found, cases: CaseTable, report: Report, catalog: Catalog, modes: seq<Mode>): Found {
    if modes == [] then f
    else AddMode(AddModes(f, cases, report, catalog, modes[..|modes| - 1]),
                 cases, report, catalog, modes[|modes| - 1])
  }

  function FullChecksFound(report: Report, catalog: Catalog, header: seq<Problem>): Found {
    var scan := if report.cases.None? then CaseScan(header + [NoCases], map[])
                else AddCases(CaseScan(header, map[]), report.cases.value);
    AddModes(Found(scan.problems, map[]), scan.cases, report, catalog, REQUIRED_MODES)
  }

  // What `_required_regression_checks` appends to `errors` and returns.
  function RequiredChecks(report: Report, catalog: Catalog): Found {
    var header := HeaderProblems(report);
    if report.baselineKind.Some? then CompactChecksFound(report, catalog, header)
    else FullChecksFound(report, catalog, header)
  }

  // ------------------------------------------------------------- the validator loops

  method ScanCases(list: seq<Case>, header: seq<Problem>) returns (errors: seq<Problem>, cases: CaseTable)
    ensures CaseScan(errors, cases) == AddCases(CaseScan(header, map[]), list)
  {
    errors, cases := header, map[];
    for k := 0 to |list|
      invariant CaseScan(errors, cases) == AddCases(CaseScan(header, map[]), list[..k])
    {
      assert list[..k + 1][..k] == list[..k];
      var c := list[k];
      if c.MalformedCase? {
        errors := errors + [BadCase];
      } else if c.mode.None? {
        continue;
      } else if c.transport.NotAString? {
        errors := errors + [BadCase];
      } else if (c.mode.value, c.transport) in cases {
        errors := errors + [DuplicateCase(c.mode.value, c.transport)];
      } else {
        cases := cases[(c.mode.value, c.transport) := c.checks];
      }
    }
    assert list[..|list|] == list;
  }

  method ScanChecks(checks: seq<Check>, mode: Mode, transport: Transport, found: Found)
      returns (errors: seq<Problem>, identities: Statuses, observed: set<string>)
    ensures CheckScan(Found(errors, identities), observed) == AddChecks(CheckScan(found, {}), checks, mode, transport)
  {
    errors, identities, observed := found.problems, found.ids, {};
    for k := 0 to |checks|
      invariant CheckScan(Found(errors, identities), observed)
             == AddChecks(CheckScan(found, {}), checks[..k], mode, transport)
    {
      assert checks[..k + 1][..k] == checks[..k];
      var identity := CheckIdentity(mode, transport, checks[k]);
      if identity.None? || checks[k].status.None? || checks[k].success != (checks[k].status.value != Fail) {
        errors := errors + [BadCheck(mode, transport)];
      } else {
        identities := AddStatus(identities, identity.value, checks[k].status.value);
        if CountsAsScenario(identity.value) {
          observed := observed + {identity.value.scenario};
        }
      }
    }
    assert checks[..|checks|] == checks;
  }

  method ScanRecords(records: seq<Record>, status: Status, found: Found)
      returns (errors: seq<Problem>, identities: Statuses)
    ensures Found(errors, identities) == AddRecords(Bucket(found, {}), records, status).found
  {
    errors, identities := found.problems, found.ids;
    var seen: set<Identity> := {};
    for k := 0 to |records|
      invariant Bucket(Found(errors, identities), seen) == AddRecords(Bucket(found, {}), records[..k], status)
    {
      assert records[..k + 1][..k] == records[..k];
      var identity := RecordIdentity(records[k]);
      if identity.None? {
        errors := errors + [BadRecord(status)];
      } else if identity.value in seen {
        errors := errors + [DuplicateRecord(status)];
      } else {
        seen := seen + {identity.value};
        identities := AddStatus(identities, identity.value, status);
      }
    }
    assert records[..|records|] == records;
  }

  method ScanBuckets(checks: CompactChecks, listed: seq<Problem>)
      returns (errors: seq<Problem>, identities: Statuses)
    ensures Found(errors, identities) == CompactBuckets(checks, listed)
  {
    errors, identities := listed, map[];
    if checks.passing.None? {
      errors := errors + [NoBucket(Pass)];
    } else {
      errors, identities := ScanRecords(checks.passing.value, Pass, Found(errors, identities));
    }
    if checks.failing.None? {
      errors := errors + [NoBucket(Fail)];
    } else {
      errors, identities := ScanRecords(checks.failing.value, Fail, Found(errors, identities));
    }
  }

  method ScanCompactModes(report: Report, catalog: Catalog, ids: Statuses, modes: seq<Mode>, listed: seq<Problem>)
      returns (errors: seq<Problem>)
    ensures errors == listed + CompactModesProblems(report, catalog, ids, modes)
  {
    errors := listed;
    for m := 0 to |modes|
      invariant errors == listed + CompactModesProblems(report, catalog, ids, modes[..m])
    {
      assert modes[..m + 1][..m] == modes[..m];
      var more := CompactModeProblems(report, catalog, ids, modes[m]);
      Assoc(listed, CompactModesProblems(report, catalog, ids, modes[..m]), more);
      errors := errors + more;
    }
    assert modes[..|modes|] == modes;
  }

  method ScanCompact(report: Report, catalog: Catalog, header: seq<Problem>)
      returns (errors: seq<Problem>, identities: Statuses)
    ensures Found(errors, identities) == CompactChecksFound(report, catalog, header)
  {
    errors, identities := header, map[];
    if report.baselineKind != Some(COMPACT_KIND) {
      errors := errors + [UnsupportedKind];
      return;
    }
    errors := CompactHeader(report, errors);
    if report.checks.None? {
      errors := errors + [NoIdentities];
      return;
    }
    errors, identities := ScanBuckets(report.checks.value, errors);
    errors := ScanCompactModes(report, catalog, identities, REQUIRED_MODES, errors);
  }

  method ScanMode(found: Found, cases: CaseTable, report: Report, catalog: Catalog, mode: Mode)
      returns (errors: seq<Problem>, identities: Statuses)
    ensures Found(errors, identities) == AddMode(found, cases, report, catalog, mode)
  {
    errors := found.problems + CatalogProblem(Selected(report), catalog, mode);
    identities := found.ids;
    ghost var f0 := Found(errors, identities);
    for t := 0 to |TRANSPORTS|
      invariant Found(errors, identities) == AddTransports(f0, cases, catalog, mode, TRANSPORTS[..t])
    {
      assert TRANSPORTS[..t + 1][..t] == TRANSPORTS[..t];
      var transport := TRANSPORTS[t];
      var key := (mode, Known(transport));
      if key !in cases {
        errors := errors + [MissingCase(mode, transport)];
      } else if cases[key].None? || cases[key].value == [] {
        errors := errors + [NoChecks(mode, transport)];
      } else {
        var observed;
        errors, identities, observed := ScanChecks(cases[key].value, mode, transport, Found(errors, identities));
        if transport == OfficialHttp {
          errors := errors + ScenarioProblems(Elements(catalog(mode)), observed, mode);
        }
      }
    }
    assert TRANSPORTS[..|TRANSPORTS|] == TRANSPORTS;
  }

  method RequiredRegressionChecks(report: Report, catalog: Catalog)
      returns (errors: seq<Problem>, identities: Statuses)
    ensures Found(errors, identities) == RequiredChecks(report, catalog)
  {
    errors, identities := HeaderProblems(report), map[];
    if report.baselineKind.Some? {
      errors, identities := ScanCompact(report, catalog, errors);
      return;
    }
    var cases: CaseTable := map[];
    if report.cases.None? {
      errors := errors + [NoCases];
    } else {
      errors, cases := ScanCases(report.cases.value, errors);
    }
    ghost var f0 := Found(errors, map[]);
    for m := 0 to |REQUIRED_MODES|
      invariant Found(errors, identities) == AddModes(f0, cases, report, catalog, REQUIRED_MODES[..m])
    {
      assert REQUIRED_MODES[..m + 1][..m] == REQUIRED_MODES[..m];
      errors, identities := ScanMode(Found(errors, identities), cases, report, catalog, REQUIRED_MODES[m]);
    }
    assert REQUIRED_MODES[..|REQUIRED_MODES|] == REQUIRED_MODES;
  }
}
