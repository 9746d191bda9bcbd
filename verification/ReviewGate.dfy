/**
 Baseline compaction and the regression gate of
 scripts/mcp_conformance/review_regressions.py: an exact round trip and a preorder.
 */
module ReviewGate {
  import opened GateErrors
  import opened Ordering
  import opened Results
  import opened ReviewReport

  // -------------------------------------------------------------------- compaction

  function CaseRecords(cs: seq<CaseKey>): seq<CaseRecord> {
    seq(|cs|, i requires 0 <= i < |cs| => CaseRecord(cs[i].mode, cs[i].transport))
  }

  function CheckRecords(ids: seq<CheckId>): seq<CheckRecord> {
    seq(|ids|, i requires 0 <= i < |ids| => CheckRecord(ids[i].mode, ids[i].transport, ids[i].checkId))
  }

  function CompactReport(ids: Verdicts, required: set<CaseKey>, summary: Summary): Report {
    Report(Some(REPORT_SCHEMA_VERSION), Some(REVIEWER), Some(BASELINE_KIND), Some(REVIEW_MODES), None,
           Some(CaseRecords(ListCases(required))),
           Some(Buckets(Some(CheckRecords(ListChecks(Passing(ids)))), Some(CheckRecords(ListChecks(Failing(ids)))))),
           None, Some(summary), None)
  }

  function CompactBaseline(report: Report, required: set<CaseKey>): Result<Report, seq<Problem>> {
    var s := RequiredChecks(report, required);
    if s.problems != [] then Err(s.problems)
    else
      CleanFacts(report, required);
      Ok(CompactReport(s.ids, required, report.summary.value))
  }

  // -------------------------------------------------------------------------- gate

  // This gate reports nothing beside the problems of the two sides.
  type Error = GateError<Problem, ()>

  datatype Gate = Gate(success: bool, errors: seq<Error>, knownFailures: seq<CheckId>, newFailures: seq<CheckId>,
                       missingChecks: seq<CheckId>, fixedChecks: seq<CheckId>)

  function KnownFailures(c: Verdicts, b: Verdicts): set<CheckId> {
    set id | id in c && !c[id] && id in b && !b[id]
  }

  function NewFailures(c: Verdicts, b: Verdicts): set<CheckId> {
    set id | id in c && !c[id] && !(id in b && !b[id])
  }

  function MissingChecks(c: Verdicts, b: Verdicts): set<CheckId> {
    set id | id in b && id !in c
  }

  function FixedChecks(c: Verdicts, b: Verdicts): set<CheckId> {
    set id | id in b && !b[id] && id in c && c[id]
  }

  function GateOn(c: Verdicts, b: Verdicts, errors: seq<Error>): Gate {
    var newFailures, missing := ListChecks(NewFailures(c, b)), ListChecks(MissingChecks(c, b));
    Gate(errors == [] && newFailures == [] && missing == [], errors, ListChecks(KnownFailures(c, b)), newFailures,
         missing, ListChecks(FixedChecks(c, b)))
  }

  function GateOf(candidate: Report, baseline: Report, required: set<CaseKey>): Gate {
    var b, c := RequiredChecks(baseline, required), RequiredChecks(candidate, required);
    GateOn(c.ids, b.ids, Labelled(Baseline, b.problems) + Labelled(Candidate, c.problems))
  }

  lemma ListKeep(s: set<CheckId>, t: set<CheckId>)
    requires t <= s
    ensures Keep(ListChecks(s), t) == ListChecks(t)
  {
    OrdersInjective();
    KeepSorted(s, t, CheckOrder);
  }

  method EvaluateReviewGate(report: Report, baselineReport: Report, required: set<CaseKey>) returns (gate: Gate)
    ensures gate == GateOf(report, baselineReport, required)
  {
    var baselineProblems, b := RequiredReviewChecks(baselineReport, required);
    var candidateProblems, c := RequiredReviewChecks(report, required);
    var errors := Labelled(Baseline, baselineProblems) + Labelled(Candidate, candidateProblems);
    var known, new_ := CandidatePass(c, b);
    var missing, fixedChecks := BaselinePass(c, b);
    gate := Gate(errors == [] && new_ == [] && missing == [], errors, known, new_, missing, fixedChecks);
  }

  method CandidatePass(c: Verdicts, b: Verdicts) returns (known: seq<CheckId>, newFailures: seq<CheckId>)
    ensures known == ListChecks(KnownFailures(c, b)) && newFailures == ListChecks(NewFailures(c, b))
  {
    hide ListChecks;
    var keys := ListChecks(c.Keys);
    known, newFailures := [], [];
    ghost var allKnown, allNew := KnownFailures(c, b), NewFailures(c, b);
    for k := 0 to |keys|
      invariant known == Keep(keys[..k], allKnown) && newFailures == Keep(keys[..k], allNew)
    {
      KeepSnoc(keys, k, allKnown);
      KeepSnoc(keys, k, allNew);
      var identity := keys[k];
      assert identity in c;
      if c[identity] {
        continue;
      }
      if identity in b && !b[identity] {
        known := known + [identity];
      } else {
        newFailures := newFailures + [identity];
      }
    }
    assert keys[..|keys|] == keys;
    ListKeep(c.Keys, allKnown);
    ListKeep(c.Keys, allNew);
  }

  method BaselinePass(c: Verdicts, b: Verdicts) returns (missing: seq<CheckId>, fixedChecks: seq<CheckId>)
    ensures missing == ListChecks(MissingChecks(c, b)) && fixedChecks == ListChecks(FixedChecks(c, b))
  {
    hide ListChecks;
    var keys := ListChecks(b.Keys);
    missing, fixedChecks := [], [];
    ghost var allMissing, allFixed := MissingChecks(c, b), FixedChecks(c, b);
    for k := 0 to |keys|
      invariant missing == Keep(keys[..k], allMissing) && fixedChecks == Keep(keys[..k], allFixed)
    {
      KeepSnoc(keys, k, allMissing);
      KeepSnoc(keys, k, allFixed);
      var identity := keys[k];
      assert identity in b;
      if identity !in c {
        missing := missing + [identity];
      } else if !b[identity] && c[identity] {
        fixedChecks := fixedChecks + [identity];
      }
    }
    assert keys[..|keys|] == keys;
    ListKeep(b.Keys, allMissing);
    ListKeep(b.Keys, allFixed);
  }

  // ------------------------------------------- what an error-free report looks like

  ghost predicate CleanIds(ids: Verdicts, required: set<CaseKey>) {
    forall id :: id in ids ==> IsReviewName(id.checkId) && CaseOf(id) in required
  }

  lemma {:induction false} RecordsClean(s: Scan, rs: seq<CheckRecord>, required: set<CaseKey>, success: bool)
    requires CleanIds(s.ids, required)
    ensures CleanIds(AddRecords(s, rs, required, success).ids, required)
    decreases |rs|
  {
    if rs != [] {
      RecordsClean(s, rs[..|rs| - 1], required, success);
    }
  }

  lemma {:induction false} CaseRecordsKeepIds(s: Scan, cs: seq<CaseRecord>)
    ensures AddCaseRecords(s, cs).ids == s.ids
    decreases |cs|
  {
    if cs != [] {
      CaseRecordsKeepIds(s, cs[..|cs| - 1]);
    }
  }

  lemma {:induction false} ChecksClean(c: CaseScan, key: CaseKey, fs: seq<FullCheck>, required: set<CaseKey>)
    requires CleanIds(c.scan.ids, required) && key in required
    ensures CleanIds(AddChecks(c, key, fs).scan.ids, required)
    decreases |fs|
  {
    if fs != [] {
      ChecksClean(c, key, fs[..|fs| - 1], required);
    }
  }

  lemma {:induction false} CasesClean(s: Scan, cs: seq<FullCase>, required: set<CaseKey>)
    requires CleanIds(s.ids, required)
    ensures CleanIds(AddCases(s, cs, required).ids, required)
    decreases |cs|
  {
    if cs != [] {
      var c := cs[|cs| - 1];
      CasesClean(s, cs[..|cs| - 1], required);
      var s0 := AddCases(s, cs[..|cs| - 1], required);
      if c.FullCase? && c.key.Some? && c.key.value in required && c.checks.Some? {
        ChecksClean(CaseScan(s0.(observed := s0.observed + {c.key.value}), true), c.key.value, c.checks.value, required);
      }
    }
  }

  lemma AlwaysClean(report: Report, required: set<CaseKey>)
    ensures CleanIds(RequiredChecks(report, required).ids, required)
  {
    hide AddCases, AddRecords, AddCaseRecords, HeaderProblems, FinalProblems, CleanIds;
    EmptyClean(required);
    var header := HeaderProblems(report);
    if report.baselineKind.None? {
      if report.cases.Some? {
        CasesClean(Scan(header, {}, map[]), report.cases.value, required);
      }
    } else {
      var s := CompactCases(report, header);
      if report.requiredCases.Some? {
        CaseRecordsKeepIds(Scan(header + When(report.baselineKind != Some(BASELINE_KIND), UnsupportedKind), {}, map[]),
                           report.requiredCases.value);
      }
      assert s.ids == map[];
      var buckets := if report.checks.Some? then report.checks.value else Buckets(None, None);
      var s1 := s.(problems := s.problems + When(report.checks.None?, NoIdentities));
      if buckets.passing.Some? {
        RecordsClean(s1, buckets.passing.value, required, true);
      }
      if buckets.failing.Some? {
        RecordsClean(AddBucket(s1, buckets.passing, required, true), buckets.failing.value, required, false);
      }
    }
  }

  lemma EmptyClean(required: set<CaseKey>)
    ensures CleanIds(map[], required)
  {
  }

  lemma CleanFacts(report: Report, required: set<CaseKey>)
    requires RequiredChecks(report, required).problems == []
    ensures var s := RequiredChecks(report, required);
      s.observed == required && report.summary == Some(Totals(s.ids, required)) && CleanIds(s.ids, required)
  {
    AlwaysClean(report, required);
    var header := HeaderProblems(report);
    var s := if report.baselineKind.Some? then CompactScan(report, required, header)
             else FullScan(report, required, header);
    NoFinalProblems(report, required, s);
  }

  lemma NoFinalProblems(report: Report, required: set<CaseKey>, s: Scan)
    ensures FinalProblems(report, required, s) == [] <==>
      && s.observed == required && report.summary == Some(Totals(s.ids, s.observed))
      && (report.baselineKind.None? ==> report.success == Some(s.observed != {} && |s.ids| - |Passing(s.ids)| == 0))
  {
    hide Totals, ListCases;
    var missing, unexpected := required - s.observed, s.observed - required;
    NoneOfFour(MissingProblems(ListCases(missing)), UnexpectedProblems(ListCases(unexpected)),
               When(report.summary != Some(Totals(s.ids, s.observed)), WrongTotals),
               When(report.baselineKind.None?
                    && report.success != Some(s.observed != {} && |s.ids| - |Passing(s.ids)| == 0), WrongSuccess));
    NothingLeft(required, s.observed);
    NothingLeft(s.observed, required);
  }

  lemma NothingLeft<T>(a: set<T>, b: set<T>)
    ensures |a - b| == 0 <==> a <= b
  {
    if |a - b| == 0 {
      forall x | x in a
        ensures x in b
      {
        assert x !in a - b;
      }
    } else {
      assert a - b != {};
    }
  }

  lemma NoneOfFour(a: seq<Problem>, b: seq<Problem>, c: seq<Problem>, d: seq<Problem>)
    ensures a + b + c + d == [] <==> |a| == 0 && |b| == 0 && |c| == 0 && |d| == 0
  {
    assert |a + b + c + d| == |a| + |b| + |c| + |d|;
  }

  // ---------------------------------------------------------------- the round trip

  lemma {:induction false} CaseRecordsRead(s: Scan, cs: seq<CaseKey>)
    requires forall i, j :: 0 <= i < j < |cs| ==> cs[i] != cs[j]
    requires forall c :: c in cs ==> c !in s.observed
    ensures AddCaseRecords(s, CaseRecords(cs)) == s.(observed := s.observed + Elements(cs))
    decreases |cs|
  {
    if cs == [] {
      assert s.observed + Elements(cs) == s.observed;
    } else {
      var front, last := cs[..|cs| - 1], cs[|cs| - 1];
      assert CaseRecords(cs)[..|cs| - 1] == CaseRecords(front);
      CaseRecordsRead(s, front);
      LastElement(cs);
      assert last in cs;
      assert s.observed + Elements(front) + {last} == s.observed + Elements(cs);
    }
  }

  ghost function AddAll(ids: Verdicts, s: set<CheckId>, success: bool): Verdicts {
    map id | id in ids.Keys + s :: if id in s then success else ids[id]
  }

  lemma {:induction false} CheckRecordsRead(s: Scan, ids: seq<CheckId>, required: set<CaseKey>, success: bool)
    requires forall i, j :: 0 <= i < j < |ids| ==> ids[i] != ids[j]
    requires forall id :: id in ids ==> id !in s.ids && IsReviewName(id.checkId) && CaseOf(id) in required
    ensures AddRecords(s, CheckRecords(ids), required, success) == s.(ids := AddAll(s.ids, Elements(ids), success))
    decreases |ids|
  {
    hide AddRecord;
    if ids == [] {
      assert AddAll(s.ids, Elements(ids), success) == s.ids;
    } else {
      var front, last := ids[..|ids| - 1], ids[|ids| - 1];
      assert CheckRecords(ids)[..|ids| - 1] == CheckRecords(front);
      CheckRecordsRead(s, front, required, success);
      LastElement(ids);
      var before := s.(ids := AddAll(s.ids, Elements(front), success));
      AddAllOne(s.ids, Elements(front), last, success);
      AddOneRecord(before, last, required, success);
    }
  }

  lemma LastElement<T(!new)>(s: seq<T>)
    requires s != [] && forall i, j :: 0 <= i < j < |s| ==> s[i] != s[j]
    ensures var front, last := s[..|s| - 1], s[|s| - 1];
      last !in Elements(front) && Elements(s) == Elements(front) + {last}
  {
    assert s == s[..|s| - 1] + [s[|s| - 1]];
  }

  lemma AddAllOne(ids: Verdicts, s: set<CheckId>, id: CheckId, success: bool)
    ensures AddAll(ids, s, success)[id := success] == AddAll(ids, s + {id}, success)
  {
  }

  lemma AddOneRecord(s: Scan, id: CheckId, required: set<CaseKey>, success: bool)
    requires id !in s.ids && IsReviewName(id.checkId) && CaseOf(id) in required
    ensures AddRecord(s, CheckRecord(id.mode, id.transport, id.checkId), required, success)
         == s.(ids := s.ids[id := success])
  {
  }

  lemma ListDistinct(s: set<CheckId>, t: set<CaseKey>)
    ensures var r := ListChecks(s); Elements(r) == s && forall i, j :: 0 <= i < j < |r| ==> r[i] != r[j]
    ensures var r := ListCases(t); Elements(r) == t && forall i, j :: 0 <= i < j < |r| ==> r[i] != r[j]
  {
    OrdersInjective();
    SortedIsSorted(s, CheckOrder);
    SortedIsSorted(t, CaseOrder);
  }

  lemma CompactScanRead(ids: Verdicts, required: set<CaseKey>, summary: Summary)
    requires CleanIds(ids, required)
    ensures CompactScan(CompactReport(ids, required, summary), required, []) == Scan([], required, ids)
  {
    hide ListCases, ListChecks, AddRecords, AddCaseRecords, CaseRecords, CheckRecords;
    var c := CompactReport(ids, required, summary);
    CompactCasesRead(ids, required, summary);
    CompactBucketsRead(ids, required);
    assert [] + When(false, NoIdentities) == [];
    assert c.checks.value.passing == Some(CheckRecords(ListChecks(Passing(ids))));
    assert c.checks.value.failing == Some(CheckRecords(ListChecks(Failing(ids))));
  }

  lemma CompactCasesRead(ids: Verdicts, required: set<CaseKey>, summary: Summary)
    ensures CompactCases(CompactReport(ids, required, summary), []) == Scan([], required, map[])
  {
    hide ListCases, AddCaseRecords;
    ListDistinct({}, required);
    CaseRecordsRead(Scan([], {}, map[]), ListCases(required));
    assert {} + required == required;
    assert [] + When(false, UnsupportedKind) == [];
  }

  lemma CompactBucketsRead(ids: Verdicts, required: set<CaseKey>)
    requires CleanIds(ids, required)
    ensures var s := AddRecords(Scan([], required, map[]), CheckRecords(ListChecks(Passing(ids))), required, true);
      AddRecords(s, CheckRecords(ListChecks(Failing(ids))), required, false) == Scan([], required, ids)
  {
    hide ListChecks, AddRecords, CheckRecords, AddAll, Passing, Failing, IsReviewName, CaseOf;
    PassingThenFailing(ids);
    var s, p, q := Scan([], required, map[]), Passing(ids), Failing(ids);
    BucketRead(s, p, required, true);
    BucketRead(s.(ids := AddAll(map[], p, true)), q, required, false);
  }

  lemma PassingThenFailing(ids: Verdicts)
    ensures Passing(ids) <= ids.Keys && Failing(ids) <= ids.Keys && Passing(ids) !! Failing(ids)
    ensures AddAll(map[], Passing(ids), true).Keys == Passing(ids)
    ensures AddAll(AddAll(map[], Passing(ids), true), Failing(ids), false) == ids
  {
  }

  lemma BucketRead(s: Scan, t: set<CheckId>, required: set<CaseKey>, success: bool)
    requires t !! s.ids.Keys && forall id :: id in t ==> IsReviewName(id.checkId) && CaseOf(id) in required
    ensures AddRecords(s, CheckRecords(ListChecks(t)), required, success) == s.(ids := AddAll(s.ids, t, success))
  {
    hide ListChecks, AddRecords, CheckRecords, AddAll;
    ListDistinct(t, required);
    CheckRecordsRead(s, ListChecks(t), required, success);
  }

  // A compact baseline reads back without problems to the same verdicts and totals.
  lemma CompactionRoundTrip(report: Report, required: set<CaseKey>)
    requires CompactBaseline(report, required).Ok?
    ensures var compact := CompactBaseline(report, required).value;
      var s, back := RequiredChecks(report, required), RequiredChecks(compact, required);
      && back == Scan([], s.observed, s.ids)
      && Some(Totals(back.ids, back.observed)) == report.summary == compact.summary
  {
    var s := RequiredChecks(report, required);
    CleanFacts(report, required);
    var compact := CompactReport(s.ids, required, report.summary.value);
    assert HeaderProblems(compact) == [];
    CompactScanRead(s.ids, required, report.summary.value);
    NoFinalProblems(compact, required, Scan([], required, s.ids));
  }

  // Compaction succeeds on exactly the reports without problems, keeps every gate
  // verdict on both sides, and done twice is done once.
  lemma CompactionPreservesGate(report: Report, other: Report, required: set<CaseKey>)
    requires CompactBaseline(report, required).Ok?
    ensures var compact := CompactBaseline(report, required).value;
      && GateOf(other, compact, required) == GateOf(other, report, required)
      && GateOf(compact, other, required) == GateOf(report, other, required)
      && CompactBaseline(compact, required) == Ok(compact)
  {
    hide RequiredChecks, GateOn;
    CompactionRoundTrip(report, required);
    CleanFacts(report, required);
  }

  // ------------------------------------------------------------------- the preorder

  ghost predicate Accepts(candidate: Report, baseline: Report, required: set<CaseKey>) {
    GateOf(candidate, baseline, required).success
  }

  // Nothing checked is dropped, and nothing fails that did not fail before.
  ghost predicate Ratchet(later: Verdicts, earlier: Verdicts) {
    earlier.Keys <= later.Keys && Failing(later) <= Failing(earlier)
  }

  lemma RatchetIff(c: Verdicts, b: Verdicts)
    ensures |NewFailures(c, b)| == 0 && |MissingChecks(c, b)| == 0 <==> Ratchet(c, b)
  {
    if NewFailures(c, b) == {} && MissingChecks(c, b) == {} {
      forall id | id in b
        ensures id in c
      {
        assert id !in MissingChecks(c, b);
      }
      forall id | id in Failing(c)
        ensures id in Failing(b)
      {
        assert id !in NewFailures(c, b);
      }
    }
    if Ratchet(c, b) {
      forall id | id in c && !c[id]
        ensures id in b && !b[id]
      {
        assert id in Failing(c);
      }
      assert NewFailures(c, b) == {} && MissingChecks(c, b) == {};
    }
  }

  lemma AcceptsIff(candidate: Report, baseline: Report, required: set<CaseKey>)
    ensures Accepts(candidate, baseline, required) <==>
      && RequiredChecks(candidate, required).problems == [] && RequiredChecks(baseline, required).problems == []
      && Ratchet(RequiredChecks(candidate, required).ids, RequiredChecks(baseline, required).ids)
  {
    hide RequiredChecks, ListChecks;
    var b, c := RequiredChecks(baseline, required), RequiredChecks(candidate, required);
    var errors: seq<Error> := Labelled(Baseline, b.problems) + Labelled(Candidate, c.problems);
    assert |errors| == |b.problems| + |c.problems|;
    RatchetIff(c.ids, b.ids);
  }

  lemma AcceptanceIsPreorder(first: Report, second: Report, third: Report, required: set<CaseKey>)
    ensures Accepts(first, first, required) <==> CompactBaseline(first, required).Ok?
    ensures Accepts(second, first, required) && Accepts(third, second, required) ==> Accepts(third, first, required)
  {
    hide RequiredChecks, GateOf, CompactReport;
    AcceptsIff(first, first, required);
    AcceptsIff(second, first, required);
    AcceptsIff(third, second, required);
    AcceptsIff(third, first, required);
  }

  // The baseline kept after a run: the run itself or its compact form.
  ghost predicate Chain(runs: seq<Report>, kept: seq<Report>, required: set<CaseKey>) {
    |kept| == |runs|
    && (forall i :: 0 <= i < |runs| ==> kept[i] == runs[i] || CompactBaseline(runs[i], required) == Ok(kept[i]))
    && forall i :: 0 < i < |runs| ==> Accepts(runs[i], kept[i - 1], required)
  }

  // Over any chain of accepted runs every later run is accepted by every earlier one.
  lemma {:induction false} ChainIsRatchet(runs: seq<Report>, kept: seq<Report>, required: set<CaseKey>, i: nat, j: nat)
    requires Chain(runs, kept, required) && i < j < |runs|
    ensures Accepts(runs[j], runs[i], required)
    ensures Ratchet(RequiredChecks(runs[j], required).ids, RequiredChecks(runs[i], required).ids)
    decreases j
  {
    hide GateOf, RequiredChecks, CompactBaseline, Ratchet;
    if kept[j - 1] != runs[j - 1] {
      CompactionPreservesGate(runs[j - 1], runs[j], required);
    }
    assert Accepts(runs[j], runs[j - 1], required);
    if i < j - 1 {
      ChainIsRatchet(runs, kept, required, i, j - 1);
      AcceptanceIsPreorder(runs[i], runs[j - 1], runs[j], required);
    }
    AcceptsIff(runs[j], runs[i], required);
  }
}
