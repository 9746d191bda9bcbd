/**
 Reviewer reports of scripts/mcp_conformance/review_regressions.py and their
 validation (`_required_review_checks`).

 Only the fields the validator reads are kept; a field of the wrong JSON type is
 `None` or a `Malformed...` record.  The set of required cases is a parameter.
 */
module ReviewReport {
  import opened Ordering
  import opened Results

  const REVIEW_MODES := ["2025-06-18", "2025-11-25", "2026-07-28"]
  const REPORT_SCHEMA_VERSION := 1
  const BASELINE_KIND := "mcp-review-regression-baseline-v1"
  const REVIEWER := "codex-mcp-regression-suite"

  datatype CaseKey = CaseKey(mode: string, transport: string)
  datatype CheckId = CheckId(mode: string, transport: string, checkId: string)

  type Verdicts = map<CheckId, bool>

  function CaseOf(id: CheckId): CaseKey {
    CaseKey(id.mode, id.transport)
  }

  function CaseOrder(c: CaseKey): Key {
    [c.mode, c.transport]
  }

  function CheckOrder(id: CheckId): Key {
    [id.mode, id.transport, id.checkId]
  }

  lemma OrdersInjective()
    ensures Injective(CaseOrder) && Injective(CheckOrder)
  {
    forall x, y | CaseOrder(x) == CaseOrder(y)
      ensures x == y
    {
      assert CaseOrder(x)[0] == CaseOrder(y)[0] && CaseOrder(x)[1] == CaseOrder(y)[1];
    }
    forall x, y | CheckOrder(x) == CheckOrder(y)
      ensures x == y
    {
      assert CheckOrder(x)[0] == CheckOrder(y)[0] && CheckOrder(x)[1] == CheckOrder(y)[1];
      assert CheckOrder(x)[2] == CheckOrder(y)[2];
    }
  }

  function ListCases(s: set<CaseKey>): (r: seq<CaseKey>)
    ensures forall x :: x in r <==> x in s
    ensures |r| == |s|
  {
    OrdersInjective();
    Sorted(s, CaseOrder)
  }

  function ListChecks(s: set<CheckId>): (r: seq<CheckId>)
    ensures forall x :: x in r <==> x in s
    ensures |r| == |s|
  {
    OrdersInjective();
    Sorted(s, CheckOrder)
  }

  // ---------------------------------------------------------------- report fields

  datatype CaseRecord = MalformedCaseRecord | CaseRecord(mode: string, transport: string)
  datatype CheckRecord = MalformedCheckRecord | CheckRecord(mode: string, transport: string, checkId: string)
  datatype Buckets = Buckets(passing: Option<seq<CheckRecord>>, failing: Option<seq<CheckRecord>>)

  datatype FullCheck = MalformedCheck | FullCheck(name: string, success: bool)
  datatype FullCase =
    | MalformedCase
    | FullCase(key: Option<CaseKey>, checks: Option<seq<FullCheck>>, success: Option<bool>)

  datatype Summary = Summary(passed: int, failed: int, total: int, casesPassed: int, casesTotal: int)

  datatype Report = Report(
    schemaVersion: Option<int>, reviewer: Option<string>, baselineKind: Option<string>,
    requiredModes: Option<seq<string>>, modes: Option<seq<string>>,
    requiredCases: Option<seq<CaseRecord>>, checks: Option<Buckets>, cases: Option<seq<FullCase>>,
    summary: Option<Summary>, success: Option<bool>)

  datatype Problem =
    | WrongSchema | WrongReviewer | WrongModes | UnsupportedKind
    | NoRequiredCases | BadCase | DuplicateCase | NoIdentities | NoBucket(passing: bool)
    | BadRecord(passing: bool) | DuplicateCheck
    | NoCases | UnexpectedCaseRecord | NoChecks(key: CaseKey) | BadCheck | CaseSuccess(key: CaseKey)
    | MissingCase(key: CaseKey) | UnexpectedCase(key: CaseKey) | WrongTotals | WrongSuccess

  datatype Scan = Scan(problems: seq<Problem>, observed: set<CaseKey>, ids: Verdicts)

  function When(c: bool, p: Problem): seq<Problem> {
    if c then [p] else []
  }

  predicate IsReviewName(s: string) {
    "review/" <= s
  }

  function HeaderProblems(report: Report): seq<Problem> {
    When(report.schemaVersion != Some(REPORT_SCHEMA_VERSION), WrongSchema)
    + When(report.reviewer != Some(REVIEWER), WrongReviewer)
    + When((if report.baselineKind.Some? then report.requiredModes else report.modes) != Some(REVIEW_MODES), WrongModes)
  }

  // ------------------------------------------------------------- compact baselines

  function AddCaseRecord(s: Scan, c: CaseRecord): Scan {
    if c.MalformedCaseRecord? then s.(problems := s.problems + [BadCase])
    else if CaseKey(c.mode, c.transport) in s.observed then s.(problems := s.problems + [DuplicateCase])
    else s.(observed := s.observed + {CaseKey(c.mode, c.transport)})
  }

  function AddCaseRecords(s: Scan, cs: seq<CaseRecord>): Scan {
    if cs == [] then s else AddCaseRecord(AddCaseRecords(s, cs[..|cs| - 1]), cs[|cs| - 1])
  }

  function AddRecord(s: Scan, r: CheckRecord, required: set<CaseKey>, success: bool): Scan {
    if r.MalformedCheckRecord? || !IsReviewName(r.checkId) || CaseKey(r.mode, r.transport) !in required then
      s.(problems := s.problems + [BadRecord(success)])
    else if CheckId(r.mode, r.transport, r.checkId) in s.ids then s.(problems := s.problems + [DuplicateCheck])
    else s.(ids := s.ids[CheckId(r.mode, r.transport, r.checkId) := success])
  }

  function AddRecords(s: Scan, rs: seq<CheckRecord>, required: set<CaseKey>, success: bool): Scan {
    if rs == [] then s
    else AddRecord(AddRecords(s, rs[..|rs| - 1], required, success), rs[|rs| - 1], required, success)
  }

  function AddBucket(s: Scan, rs: Option<seq<CheckRecord>>, required: set<CaseKey>, success: bool): Scan {
    if rs.None? then s.(problems := s.problems + [NoBucket(success)])
    else AddRecords(s, rs.value, required, success)
  }

  function CompactCases(report: Report, header: seq<Problem>): Scan {
    var s := Scan(header + When(report.baselineKind != Some(BASELINE_KIND), UnsupportedKind), {}, map[]);
    if report.requiredCases.None? then s.(problems := s.problems + [NoRequiredCases])
    else AddCaseRecords(s, report.requiredCases.value)
  }

  function CompactScan(report: Report, required: set<CaseKey>, header: seq<Problem>): Scan {
    var s := CompactCases(report, header);
    var buckets := if report.checks.Some? then report.checks.value else Buckets(None, None);
    var s1 := s.(problems := s.problems + When(report.checks.None?, NoIdentities));
    AddBucket(AddBucket(s1, buckets.passing, required, true), buckets.failing, required, false)
  }

  // ------------------------------------------------------------------ full reports

  datatype CaseScan = CaseScan(scan: Scan, success: bool)

  function AddCheck(c: CaseScan, key: CaseKey, f: FullCheck): CaseScan {
    var s := c.scan;
    if f.MalformedCheck? || !IsReviewName(f.name) then c.(scan := s.(problems := s.problems + [BadCheck]))
    else
      var id := CheckId(key.mode, key.transport, f.name);
      if id in s.ids then c.(scan := s.(problems := s.problems + [DuplicateCheck]))
      else CaseScan(s.(ids := s.ids[id := f.success]), c.success && f.success)
  }

  function AddChecks(c: CaseScan, key: CaseKey, fs: seq<FullCheck>): CaseScan {
    if fs == [] then c else AddCheck(AddChecks(c, key, fs[..|fs| - 1]), key, fs[|fs| - 1])
  }

  function AddCase(s: Scan, c: FullCase, required: set<CaseKey>): Scan {
    if c.MalformedCase? then s.(problems := s.problems + [BadCase])
    else if c.key.None? || c.key.value !in required then s.(problems := s.problems + [UnexpectedCaseRecord])
    else
      var key := c.key.value;
      if key in s.observed then s.(problems := s.problems + [DuplicateCase])
      else
        var s1 := s.(observed := s.observed + {key});
        if c.checks.None? || c.checks.value == [] then s1.(problems := s1.problems + [NoChecks(key)])
        else
          var r := AddChecks(CaseScan(s1, true), key, c.checks.value);
          r.scan.(problems := r.scan.problems + When(c.success != Some(r.success), CaseSuccess(key)))
  }

  function AddCases(s: Scan, cs: seq<FullCase>, required: set<CaseKey>): Scan {
    if cs == [] then s else AddCase(AddCases(s, cs[..|cs| - 1], required), cs[|cs| - 1], required)
  }

  function FullScan(report: Report, required: set<CaseKey>, header: seq<Problem>): Scan {
    if report.cases.None? then Scan(header + [NoCases], {}, map[])
    else AddCases(Scan(header, {}, map[]), report.cases.value, required)
  }

  // ------------------------------------------------------------------------- totals

  function Passing(ids: Verdicts): set<CheckId> {
    set id | id in ids && ids[id]
  }

  function Failing(ids: Verdicts): set<CheckId> {
    set id | id in ids && !ids[id]
  }

  predicate CasePassed(ids: Verdicts, c: CaseKey) {
    && (forall id :: id in ids && CaseOf(id) == c ==> ids[id])
    && exists id :: id in ids && CaseOf(id) == c
  }

  function Totals(ids: Verdicts, observed: set<CaseKey>): Summary {
    Summary(|Passing(ids)|, |ids| - |Passing(ids)|, |ids|, |set c | c in observed && CasePassed(ids, c)|, |observed|)
  }

  function MissingProblems(cs: seq<CaseKey>): seq<Problem> {
    seq(|cs|, i requires 0 <= i < |cs| => MissingCase(cs[i]))
  }

  function UnexpectedProblems(cs: seq<CaseKey>): seq<Problem> {
    seq(|cs|, i requires 0 <= i < |cs| => UnexpectedCase(cs[i]))
  }

  function FinalProblems(report: Report, required: set<CaseKey>, s: Scan): seq<Problem> {
    MissingProblems(ListCases(required - s.observed))
    + UnexpectedProblems(ListCases(s.observed - required))
    + When(report.summary != Some(Totals(s.ids, s.observed)), WrongTotals)
    + When(report.baselineKind.None?
           && report.success != Some(s.observed != {} && |s.ids| - |Passing(s.ids)| == 0), WrongSuccess)
  }

  // What `_required_review_checks` appends to `errors`, observes and returns.
  function RequiredChecks(report: Report, required: set<CaseKey>): Scan {
    var header := HeaderProblems(report);
    var s := if report.baselineKind.Some? then CompactScan(report, required, header)
             else FullScan(report, required, header);
    s.(problems := s.problems + FinalProblems(report, required, s))
  }

  // --------------------------------------------------------------- the validator loops

  method ScanRecords(rs: seq<CheckRecord>, required: set<CaseKey>, success: bool, s: Scan)
      returns (errors: seq<Problem>, identities: Verdicts)
    ensures Scan(errors, s.observed, identities) == AddRecords(s, rs, required, success)
  {
    errors, identities := s.problems, s.ids;
    for k := 0 to |rs|
      invariant Scan(errors, s.observed, identities) == AddRecords(s, rs[..k], required, success)
    {
      assert rs[..k + 1][..k] == rs[..k];
      var r := rs[k];
      if r.MalformedCheckRecord? || !IsReviewName(r.checkId) || CaseKey(r.mode, r.transport) !in required {
        errors := errors + [BadRecord(success)];
        continue;
      }
      var identity := CheckId(r.mode, r.transport, r.checkId);
      if identity in identities {
        errors := errors + [DuplicateCheck];
        continue;
      }
      identities := identities[identity := success];
    }
    assert rs[..|rs|] == rs;
  }

  method ScanCaseRecords(cs: seq<CaseRecord>, s: Scan) returns (errors: seq<Problem>, observed: set<CaseKey>)
    ensures Scan(errors, observed, s.ids) == AddCaseRecords(s, cs)
  {
    errors, observed := s.problems, s.observed;
    for k := 0 to |cs|
      invariant Scan(errors, observed, s.ids) == AddCaseRecords(s, cs[..k])
    {
      assert cs[..k + 1][..k] == cs[..k];
      if cs[k].MalformedCaseRecord? {
        errors := errors + [BadCase];
        continue;
      }
      var identity := CaseKey(cs[k].mode, cs[k].transport);
      if identity in observed {
        errors := errors + [DuplicateCase];
        continue;
      }
      observed := observed + {identity};
    }
    assert cs[..|cs|] == cs;
  }

  method ScanChecks(key: CaseKey, checks: seq<FullCheck>, s: Scan)
      returns (errors: seq<Problem>, identities: Verdicts, caseSuccess: bool)
    ensures CaseScan(Scan(errors, s.observed, identities), caseSuccess) == AddChecks(CaseScan(s, true), key, checks)
  {
    errors, identities, caseSuccess := s.problems, s.ids, true;
    for k := 0 to |checks|
      invariant CaseScan(Scan(errors, s.observed, identities), caseSuccess)
             == AddChecks(CaseScan(s, true), key, checks[..k])
    {
      assert checks[..k + 1][..k] == checks[..k];
      if checks[k].MalformedCheck? || !IsReviewName(checks[k].name) {
        errors := errors + [BadCheck];
        continue;
      }
      var identity := CheckId(key.mode, key.transport, checks[k].name);
      if identity in identities {
        errors := errors + [DuplicateCheck];
        continue;
      }
      identities := identities[identity := checks[k].success];
      caseSuccess := caseSuccess && checks[k].success;
    }
    assert checks[..|checks|] == checks;
  }

  method ScanCases(cs: seq<FullCase>, required: set<CaseKey>, header: seq<Problem>)
      returns (errors: seq<Problem>, observed: set<CaseKey>, identities: Verdicts)
    ensures Scan(errors, observed, identities) == AddCases(Scan(header, {}, map[]), cs, required)
  {
    errors, observed, identities := header, {}, map[];
    for k := 0 to |cs|
      invariant Scan(errors, observed, identities) == AddCases(Scan(header, {}, map[]), cs[..k], required)
    {
      assert cs[..k + 1][..k] == cs[..k];
      var c := cs[k];
      if c.MalformedCase? {
        errors := errors + [BadCase];
        continue;
      }
      if c.key.None? || c.key.value !in required {
        errors := errors + [UnexpectedCaseRecord];
        continue;
      }
      var key := c.key.value;
      if key in observed {
        errors := errors + [DuplicateCase];
        continue;
      }
      observed := observed + {key};
      if c.checks.None? || c.checks.value == [] {
        errors := errors + [NoChecks(key)];
        continue;
      }
      var caseSuccess;
      errors, identities, caseSuccess := ScanChecks(key, c.checks.value, Scan(errors, observed, identities));
      if c.success != Some(caseSuccess) {
        errors := errors + [CaseSuccess(key)];
      }
    }
    assert cs[..|cs|] == cs;
  }

  method ScanCompact(report: Report, required: set<CaseKey>, header: seq<Problem>)
      returns (errors: seq<Problem>, observed: set<CaseKey>, identities: Verdicts)
    ensures Scan(errors, observed, identities) == CompactScan(report, required, header)
  {
    errors, observed, identities := header, {}, map[];
    errors := errors + When(report.baselineKind != Some(BASELINE_KIND), UnsupportedKind);
    if report.requiredCases.None? {
      errors := errors + [NoRequiredCases];
    } else {
      errors, observed := ScanCaseRecords(report.requiredCases.value, Scan(errors, {}, map[]));
    }
    assert Scan(errors, observed, identities) == CompactCases(report, header);
    var buckets := Buckets(None, None);
    errors := errors + When(report.checks.None?, NoIdentities);
    if report.checks.Some? {
      buckets := report.checks.value;
    }
    if buckets.passing.None? {
      errors := errors + [NoBucket(true)];
    } else {
      errors, identities := ScanRecords(buckets.passing.value, required, true, Scan(errors, observed, identities));
    }
    if buckets.failing.None? {
      errors := errors + [NoBucket(false)];
    } else {
      errors, identities := ScanRecords(buckets.failing.value, required, false, Scan(errors, observed, identities));
    }
  }

  method RequiredReviewChecks(report: Report, required: set<CaseKey>)
      returns (errors: seq<Problem>, identities: Verdicts)
    ensures errors == RequiredChecks(report, required).problems
    ensures identities == RequiredChecks(report, required).ids
  {
    var header, cases := HeaderProblems(report), {};
    if report.baselineKind.Some? {
      errors, cases, identities := ScanCompact(report, required, header);
    } else if report.cases.None? {
      errors, identities := header + [NoCases], map[];
    } else {
      errors, cases, identities := ScanCases(report.cases.value, required, header);
    }
    errors := errors + FinalProblems(report, required, Scan(errors, cases, identities));
  }
}
