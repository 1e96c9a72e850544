/** The execution engine: one HTTP request per test case, in order, each
    outcome turned into one result record, then the pass/fail counts. The
    HTTP client is an oracle `network(i, request)` giving the outcome of the
    i-th request of a batch. */
module Runner {
  import opened Wrappers
  import opened Json
  import opened Strings
  import opened Cases

  /** Longest response snippet kept in a result. */
  const SNIPPET_LIMIT := 280
  /** Status recorded when no response was received. */
  const NO_RESPONSE := -1

  /** What `requests.request` is called with; `json` is `None` when the
      `json=` argument is not passed. */
  datatype HttpRequest = HttpRequest(verb: string, url: string, headers: Headers, json: Option<JValue>)

  /** A response with its status code and text, or the exception raised. */
  datatype Outcome = Received(code: int, text: string) | Failed(message: string)

  /** Exactly one of `response_snippet` and `error` is present in a result. */
  datatype Detail = Snippet(text: string) | Error(message: string)

  datatype TestResult = TestResult(
    name: string,
    status: int,
    expectedStatus: int,
    passed: bool,
    detail: Detail)

  datatype Summary = Summary(total: int, passed: int, failed: int)

  datatype Execution = Execution(results: seq<TestResult>, summary: Summary)

  /** The request the runner issues for `t`: the method upper-cased (default
      `GET`), headers defaulting to none, and the body attached only for a
      mutating verb. */
  function RequestFor(t: TestCase): (r: HttpRequest)
    ensures r.verb == Upper(t.verb.GetOr("GET")) && r.url == t.url
    ensures r.json.Some? <==> IsMutating(r.verb)
    ensures r.json.Some? ==> r.json.value == t.body
    ensures t.headers.None? ==> r.headers == []
    ensures t.headers.Some? ==> r.headers == t.headers.value
  {
    var verb := Upper(t.verb.GetOr("GET"));
    var headers := if t.headers.Some? then t.headers.value else [];
    HttpRequest(verb, t.url, headers, if IsMutating(verb) then Some(t.body) else None)
  }

  /** `resp.text[:280] if resp.text else ""`. */
  function SnippetOf(text: string): (r: string)
    ensures |r| <= SNIPPET_LIMIT && |r| <= |text| && r == text[..|r|]
    ensures |text| <= SNIPPET_LIMIT ==> r == text
    ensures |text| >= SNIPPET_LIMIT ==> |r| == SNIPPET_LIMIT
  {
    if text == "" then "" else if |text| <= SNIPPET_LIMIT then text else text[..SNIPPET_LIMIT]
  }

  /** The result record for case `t` given the outcome of its request. */
  function ResultFor(t: TestCase, o: Outcome): (r: TestResult)
    ensures r.name == t.name.GetOr("test")
    ensures r.expectedStatus == t.expectedStatus.GetOr(200)
    ensures r.passed <==> o.Received? && o.code == r.expectedStatus
    ensures o.Received? ==> r.status == o.code && r.detail == Snippet(SnippetOf(o.text))
    ensures o.Failed? ==> r.status == NO_RESPONSE && r.detail == Error(o.message)
  {
    var name := t.name.GetOr("test");
    var expected := t.expectedStatus.GetOr(200);
    match o
    case Received(code, text) => TestResult(name, code, expected, code == expected, Snippet(SnippetOf(text)))
    case Failed(message) => TestResult(name, NO_RESPONSE, expected, false, Error(message))
  }

  /** `sum(1 for r in results if r["passed"])`. */
  function CountPassed(rs: seq<TestResult>): (n: nat)
    ensures n <= |rs|
    ensures n == |rs| <==> forall i :: 0 <= i < |rs| ==> rs[i].passed
    ensures n == 0 <==> forall i :: 0 <= i < |rs| ==> !rs[i].passed
  {
    if rs == [] then 0
    else
      var front := rs[..|rs| - 1];
      assert forall i :: 0 <= i < |front| ==> front[i] == rs[i];
      CountPassed(front) + if rs[|rs| - 1].passed then 1 else 0
  }

  /** The summary of a batch of results. */
  function Tally(rs: seq<TestResult>): (s: Summary)
    ensures s.total == |rs| && s.passed == CountPassed(rs)
    ensures s.passed + s.failed == s.total
    ensures 0 <= s.passed && 0 <= s.failed
    ensures rs == [] ==> s == Summary(0, 0, 0)
  {
    var total := |rs|;
    var passed := CountPassed(rs);
    Summary(total, passed, total - passed)
  }

  /** Appending one result adds one to the total and one to either the
      passed or the failed count. */
  lemma TallyAppend(rs: seq<TestResult>, r: TestResult)
    ensures Tally(rs + [r]).total == Tally(rs).total + 1
    ensures Tally(rs + [r]).passed == Tally(rs).passed + (if r.passed then 1 else 0)
    ensures Tally(rs + [r]).failed == Tally(rs).failed + (if r.passed then 0 else 1)
  {
    assert (rs + [r])[..|rs|] == rs;
  }

  /** `execute_tests`: one request and one result per case, in order, and the
      counts of the results. */
  method ExecuteTests(tests: seq<TestCase>, network: (nat, HttpRequest) -> Outcome)
    returns (out: Execution, sent: seq<HttpRequest>)
    ensures |out.results| == |tests| && |sent| == |tests|
    ensures forall i :: 0 <= i < |tests| ==> sent[i] == RequestFor(tests[i])
    ensures forall i :: 0 <= i < |tests| ==>
      out.results[i] == ResultFor(tests[i], network(i, sent[i]))
    ensures out.summary == Tally(out.results)
  {
    var results: seq<TestResult> := [];
    sent := [];
    var i := 0;
    while i < |tests|
      invariant 0 <= i <= |tests|
      invariant |results| == i && |sent| == i
      invariant forall j :: 0 <= j < i ==> sent[j] == RequestFor(tests[j])
      invariant forall j :: 0 <= j < i ==> results[j] == ResultFor(tests[j], network(j, sent[j]))
    {
      var t := tests[i];
      var verb := Upper(t.verb.GetOr("GET"));
      var url := t.url;
      var headers := if t.headers.Some? then t.headers.value else [];
      var body := t.body;
      var expected := t.expectedStatus.GetOr(200);
      var name := t.name.GetOr("test");
      var request := if IsMutating(verb)
        then HttpRequest(verb, url, headers, Some(body))
        else HttpRequest(verb, url, headers, None);
      var record: TestResult;
      match network(i, request) {
        case Received(code, text) =>
          record := TestResult(name, code, expected, code == expected, Snippet(SnippetOf(text)));
        case Failed(message) =>
          record := TestResult(name, NO_RESPONSE, expected, false, Error(message));
      }
      results := results + [record];
      sent := sent + [request];
      i := i + 1;
    }
    var total := |results|;
    var passedCount := CountPassed(results);
    var failedCount := total - passedCount;
    out := Execution(results, Summary(total, passedCount, failedCount));
  }

  /** `run_single_happy_path`: the one-case variant, whose result is always
      named `happy_path` and follows the same rules as `execute_tests`. */
  method RunSingleHappyPath(
    verb: string, url: string, headers: Option<Headers>, body: JValue,
    expectedStatus: int, network: HttpRequest -> Outcome)
    returns (sent: HttpRequest, result: TestResult)
    ensures result.name == "happy_path"
    ensures sent == RequestFor(TestCase(Some("happy_path"), Some(verb), url, headers, body, Some(expectedStatus), None))
    ensures result == ResultFor(TestCase(Some("happy_path"), Some(verb), url, headers, body, Some(expectedStatus), None), network(sent))
  {
    var upper := Upper(verb);
    var hs := if headers.Some? then headers.value else [];
    sent := if IsMutating(upper)
      then HttpRequest(upper, url, hs, Some(body))
      else HttpRequest(upper, url, hs, None);
    match network(sent) {
      case Received(code, text) =>
        result := TestResult("happy_path", code, expectedStatus, code == expectedStatus, Snippet(SnippetOf(text)));
      case Failed(message) =>
        result := TestResult("happy_path", NO_RESPONSE, expectedStatus, false, Error(message));
    }
  }

  /** The result as the dictionary the runner builds (without `elapsed_ms`). */
  function ToRecord(r: TestResult): Members {
    [("name", JString(r.name)),
     ("status", JInt(r.status)),
     ("expected_status", JInt(r.expectedStatus)),
     ("passed", JBool(r.passed))] +
    match r.detail
    case Snippet(text) => [("response_snippet", JString(text))]
    case Error(message) => [("error", JString(message))]
  }

  /** The result dictionary has distinct keys, reads back every field of the
      result, holds `passed` as a boolean, and has exactly one of
      `response_snippet` and `error`. */
  lemma ToRecordFields(r: TestResult)
    ensures var rec := ToRecord(r);
      DistinctKeys(rec)
      && Get(rec, "name") == Some(JString(r.name))
      && Get(rec, "status") == Some(JInt(r.status))
      && Get(rec, "expected_status") == Some(JInt(r.expectedStatus))
      && Get(rec, "passed") == Some(JBool(r.passed))
      && (HasKey(rec, "response_snippet") <==> r.detail.Snippet?)
      && (HasKey(rec, "error") <==> r.detail.Error?)
      && (r.detail.Snippet? ==> Get(rec, "response_snippet") == Some(JString(r.detail.text)))
      && (r.detail.Error? ==> Get(rec, "error") == Some(JString(r.detail.message)))
  {
    var rec := ToRecord(r);
    assert rec[2] == ("expected_status", JInt(r.expectedStatus));
    assert rec[3] == ("passed", JBool(r.passed));
    assert |rec| == 5 && rec[4].0 == (if r.detail.Snippet? then "response_snippet" else "error");
    assert forall i :: 0 <= i < 4 ==> |rec[i].0| !in {5, 16};
  }
}
