/** `build_report`: the counts over a list of result dictionaries, with the
    list passed through unchanged. */
module Reporting {
  import opened Wrappers
  import opened Json
  import opened Runner

  datatype ReportSummary = ReportSummary(totalTests: int, passed: int, failed: int)

  datatype Report = Report(summary: ReportSummary, results: seq<Members>)

  /** `r.get("passed")` is truthy; a missing key reads as `None`. */
  predicate RecordPassed(r: Members) {
    Truthy(Get(r, "passed").GetOr(JNull))
  }

  /** A result passes exactly when the first value stored under `passed` is
      truthy, and never when there is no such key. */
  lemma RecordPassedValue(r: Members, i: int)
    requires 0 <= i < |r| && r[i].0 == "passed" && KeyAbsentBefore(r, "passed", i)
    ensures RecordPassed(r) <==> Truthy(r[i].1)
    ensures !RecordPassed(r) <==> r[i].1 in {JNull, JBool(false), JInt(0), JString(""), JArray([]), JObject([])}
  {
  }

  /** `sum(1 for r in results if r.get("passed"))`. */
  function CountRecordsPassed(rs: seq<Members>): (n: nat)
    ensures n <= |rs|
    ensures n == 0 <==> forall i :: 0 <= i < |rs| ==> !RecordPassed(rs[i])
    ensures n == |rs| <==> forall i :: 0 <= i < |rs| ==> RecordPassed(rs[i])
  {
    if rs == [] then 0
    else
      var front := rs[..|rs| - 1];
      assert forall i :: 0 <= i < |front| ==> front[i] == rs[i];
      CountRecordsPassed(front) + if RecordPassed(rs[|rs| - 1]) then 1 else 0
  }

  function BuildReport(results: seq<Members>): (r: Report)
    ensures r.results == results
    ensures r.summary.totalTests == |results|
    ensures r.summary.passed == CountRecordsPassed(results)
    ensures r.summary.passed + r.summary.failed == r.summary.totalTests
    ensures 0 <= r.summary.passed && 0 <= r.summary.failed
    ensures results == [] ==> r.summary == ReportSummary(0, 0, 0)
  {
    var total := |results|;
    var passed := CountRecordsPassed(results);
    Report(ReportSummary(total, passed, total - passed), results)
  }

  /** A result without a `passed` key is counted as not passed. */
  lemma MissingPassedNotCounted(rs: seq<Members>, r: Members)
    requires !HasKey(r, "passed")
    ensures CountRecordsPassed(rs + [r]) == CountRecordsPassed(rs)
    ensures BuildReport(rs + [r]).summary.failed == BuildReport(rs).summary.failed + 1
  {
    assert (rs + [r])[..|rs|] == rs;
  }

  /** The dictionaries the runner produces. */
  function Records(rs: seq<TestResult>): (recs: seq<Members>)
    ensures |recs| == |rs|
    ensures forall i :: 0 <= i < |rs| ==> recs[i] == ToRecord(rs[i])
  {
    seq(|rs|, i requires 0 <= i < |rs| => ToRecord(rs[i]))
  }

  lemma RecordPassedOf(r: TestResult)
    ensures RecordPassed(ToRecord(r)) == r.passed
  {
    ToRecordFields(r);
  }

  /** Reporting the runner's results gives the runner's own counts. */
  lemma {:induction false} ReportMatchesExecution(rs: seq<TestResult>)
    ensures var s := BuildReport(Records(rs)).summary;
      s.totalTests == Tally(rs).total && s.passed == Tally(rs).passed && s.failed == Tally(rs).failed
  {
    RecordsPassedCount(rs);
  }

  /** The runner's result dictionaries count as passed exactly the results
      that passed. */
  lemma {:induction false} RecordsPassedCount(rs: seq<TestResult>)
    ensures CountRecordsPassed(Records(rs)) == CountPassed(rs)
  {
    if rs != [] {
      var front, last := rs[..|rs| - 1], rs[|rs| - 1];
      var recs := Records(rs);
      RecordsPassedCount(front);
      assert recs[..|rs| - 1] == Records(front);
      RecordPassedOf(last);
      assert RecordPassed(recs[|rs| - 1]) == last.passed;
    }
  }
}
