/** The `/run_tests` handler: reject malformed requests, derive the bearer
    header, build the happy-path plus missing-field plan, execute it, and
    return the summary, the results and the failures. */
module App {
  import opened Wrappers
  import opened Json
  import opened Strings
  import opened Cases
  import opened Runner

  const PLAN_NOTES := "Happy path + one edge case"
  const NO_INPUT_DETAIL := "Provide 'endpoint' or 'openapi_url'"
  const OPENAPI_DETAIL := "OpenAPI ingestion not implemented yet"

  /** The validated `endpoint` of a request. `sampleResponse` is accepted
      and never read. */
  datatype EndpointBody = EndpointBody(
    verb: string,
    url: string,
    sampleRequest: Option<Members>,
    sampleResponse: Option<Members>,
    auth: Option<Members>,
    expectedStatus: Option<int>)

  datatype RunRequest = RunRequest(
    openapiUrl: Option<string>,
    endpoint: Option<EndpointBody>,
    maxTests: int)

  /** The `HTTPException` raised for a rejected request. */
  datatype HttpError = HttpError(status: int, detail: string)

  datatype RunSummary = RunSummary(totalTests: int, passed: int, failed: int, notes: string)

  datatype RunResponse = RunResponse(summary: RunSummary, results: seq<TestResult>, failures: seq<TestResult>)

  /** `body.openapi_url` is truthy: present and not the empty string. */
  predicate OpenApiGiven(body: RunRequest) {
    body.openapiUrl.Some? && body.openapiUrl.value != ""
  }

  /** `ep.auth.get("token")`, `None` when missing. */
  function TokenOf(auth: Members): JValue {
    Get(auth, "token").GetOr(JNull)
  }

  /** The request headers: one `Authorization: Bearer <token>` header for a
      non-empty auth dictionary of type `bearer` with a truthy token, and no
      header otherwise. */
  function BearerHeaders(auth: Option<Members>): (h: Headers)
    ensures |h| <= 1
    ensures h != [] <==>
      auth.Some? && auth.value != []
      && Get(auth.value, "type") == Some(JString("bearer")) && Truthy(TokenOf(auth.value))
    ensures h != [] ==> h[0] == ("Authorization", "Bearer " + Str(TokenOf(auth.value)))
  {
    var headers: Headers := [];
    if auth.Some? && auth.value != [] && Get(auth.value, "type") == Some(JString("bearer")) && Truthy(TokenOf(auth.value))
    then headers + [("Authorization", "Bearer " + Str(TokenOf(auth.value)))]
    else headers
  }

  /** The condition for the missing-first-field case. */
  predicate EdgeCaseApplies(ep: EndpointBody) {
    ep.sampleRequest.Some? && ep.sampleRequest.value != [] && IsMutating(Upper(ep.verb))
  }

  /** The plan the handler executes, with `headers` on every case. Unlike the
      planner's fallback it keeps the verb as given (the runner upper-cases
      it) and attaches no rationale. */
  function AppPlan(ep: EndpointBody, headers: Headers): seq<TestCase> {
    [HappyCase(ep, headers)] + if EdgeCaseApplies(ep) then [EdgeCase(ep, headers)] else []
  }

  /** The handler's happy-path case. */
  function HappyCase(ep: EndpointBody, headers: Headers): TestCase {
    var happyBody := if IsMutating(Upper(ep.verb)) && ep.sampleRequest.Some? then JObject(ep.sampleRequest.value) else JNull;
    TestCase(Some("happy_path"), Some(ep.verb), ep.url, Some(headers), happyBody,
             Some(OrDefault(ep.expectedStatus, 200)), None)
  }

  /** The handler's missing-first-field case. */
  function EdgeCase(ep: EndpointBody, headers: Headers): TestCase
    requires EdgeCaseApplies(ep)
  {
    var ms := ep.sampleRequest.value;
    TestCase(Some("missing_" + ms[0].0), Some(ep.verb), ep.url, Some(headers),
             JObject(RemoveKey(ms, ms[0].0)), Some(400), None)
  }

  /** `[r for r in results if not r["passed"]]`. */
  function Failures(rs: seq<TestResult>): (f: seq<TestResult>)
    ensures |f| == |rs| - CountPassed(rs)
    ensures forall j :: 0 <= j < |f| ==> !f[j].passed
  {
    if rs == [] then []
    else
      var front := rs[..|rs| - 1];
      Failures(front) + if rs[|rs| - 1].passed then [] else [rs[|rs| - 1]]
  }

  /** The positions of the failed results, in increasing order. */
  function FailedIndices(rs: seq<TestResult>): seq<nat> {
    if rs == [] then []
    else FailedIndices(rs[..|rs| - 1]) + if rs[|rs| - 1].passed then [] else [|rs| - 1]
  }

  /** The failed positions are increasing, in range, and are exactly the
      positions whose `passed` is false. */
  lemma {:induction false} FailedIndicesExact(rs: seq<TestResult>)
    ensures var idx := FailedIndices(rs);
      (forall j :: 0 <= j < |idx| ==> idx[j] < |rs|)
      && (forall j1, j2 :: 0 <= j1 < j2 < |idx| ==> idx[j1] < idx[j2])
      && (forall i :: 0 <= i < |rs| ==> (i in idx <==> !rs[i].passed))
  {
    if rs != [] {
      var n := |rs|;
      var front := rs[..n - 1];
      FailedIndicesExact(front);
      var idx0 := FailedIndices(front);
      assert n - 1 !in idx0;
      assert forall i :: 0 <= i < n - 1 ==> front[i] == rs[i];
    }
  }

  lemma {:induction false} FailuresAtIndices(rs: seq<TestResult>)
    ensures |FailedIndices(rs)| == |Failures(rs)|
    ensures forall j :: 0 <= j < |FailedIndices(rs)| ==>
      FailedIndices(rs)[j] < |rs| && Failures(rs)[j] == rs[FailedIndices(rs)[j]]
  {
    if rs != [] {
      var n := |rs|;
      var front := rs[..n - 1];
      FailuresAtIndices(front);
      var f0, idx0 := Failures(front), FailedIndices(front);
      var f, idx := Failures(rs), FailedIndices(rs);
      if rs[n - 1].passed {
        assert f == f0 && idx == idx0;
      } else {
        assert f == f0 + [rs[n - 1]] && idx == idx0 + [n - 1];
      }
      forall j | 0 <= j < |idx0|
        ensures idx[j] < n && f[j] == rs[idx[j]]
      {
        assert idx[j] == idx0[j] && f[j] == f0[j];
        assert front[idx0[j]] == rs[idx0[j]];
      }
    }
  }

  /** The failures view is exactly the failed results, in input order: the
      results at the increasing positions whose `passed` is false. */
  lemma FailuresInOrder(rs: seq<TestResult>)
    ensures var f, idx := Failures(rs), FailedIndices(rs);
      |idx| == |f|
      && (forall j :: 0 <= j < |idx| ==> idx[j] < |rs| && f[j] == rs[idx[j]])
      && (forall j1, j2 :: 0 <= j1 < j2 < |idx| ==> idx[j1] < idx[j2])
      && (forall i :: 0 <= i < |rs| ==> (i in idx <==> !rs[i].passed))
  {
    FailedIndicesExact(rs);
    FailuresAtIndices(rs);
  }

  /** The plan has one or two cases whatever `max_tests` is: the happy path
      first, then the missing-field case exactly when its rule applies, every
      case carrying the derived headers. */
  lemma AppPlanShape(ep: EndpointBody, headers: Headers)
    ensures var p := AppPlan(ep, headers);
      1 <= |p| <= 2 && (|p| == 2 <==> EdgeCaseApplies(ep))
      && p[0].name == Some("happy_path") && p[0].verb == Some(ep.verb) && p[0].url == ep.url
      && p[0].expectedStatus == Some(if ep.expectedStatus.Some? && ep.expectedStatus.value != 0 then ep.expectedStatus.value else 200)
      && (IsMutating(Upper(ep.verb)) && ep.sampleRequest.Some? ==> p[0].body == JObject(ep.sampleRequest.value))
      && (!IsMutating(Upper(ep.verb)) || ep.sampleRequest.None? ==> p[0].body == JNull)
      && (forall i :: 0 <= i < |p| ==> p[i].headers == Some(headers))
  {
  }

  /** The missing-field case drops exactly the first key of the sample and
      expects 400. */
  lemma AppEdgeCase(ep: EndpointBody, headers: Headers)
    requires EdgeCaseApplies(ep)
    ensures var ms := ep.sampleRequest.value; var t := AppPlan(ep, headers)[1];
      t.name == Some("missing_" + ms[0].0) && t.expectedStatus == Some(400)
      && t.body.JObject? && !HasKey(t.body.members, ms[0].0)
      && (forall k :: k != ms[0].0 ==> Get(t.body.members, k) == Get(ms, k))
      && (DistinctKeys(ms) ==> t.body == JObject(ms[1..]))
  {
    var ms := ep.sampleRequest.value;
    forall k | k != ms[0].0
      ensures Get(RemoveKey(ms, ms[0].0), k) == Get(ms, k)
    {
      RemoveKeyKeepsOthers(ms, ms[0].0, k);
    }
    if DistinctKeys(ms) {
      RemoveFirstKey(ms);
    }
  }

  /** `run_tests`. A request without an endpoint is rejected (400 without an
      OpenAPI URL, 501 with one) before anything is sent; otherwise the plan
      is executed and its counts and failures reported. */
  method RunTests(body: RunRequest, network: (nat, HttpRequest) -> Outcome)
    returns (resp: Result<RunResponse, HttpError>, sent: seq<HttpRequest>)
    requires 1 <= body.maxTests <= 10
    ensures body.endpoint.None? && !OpenApiGiven(body) ==>
      resp == Failure(HttpError(400, NO_INPUT_DETAIL)) && sent == []
    ensures body.endpoint.None? && OpenApiGiven(body) ==>
      resp == Failure(HttpError(501, OPENAPI_DETAIL)) && sent == []
    ensures body.endpoint.Some? ==>
      resp.Success? &&
      var ep := body.endpoint.value;
      var plan := AppPlan(ep, BearerHeaders(ep.auth));
      var out := resp.value;
      |sent| == |plan| == |out.results|
      && (forall i :: 0 <= i < |plan| ==> sent[i] == RequestFor(plan[i]))
      && (forall i :: 0 <= i < |plan| ==> out.results[i] == ResultFor(plan[i], network(i, sent[i])))
      && out.summary.totalTests == |out.results|
      && out.summary.passed == CountPassed(out.results)
      && out.summary.passed + out.summary.failed == out.summary.totalTests
      && out.summary.notes == PLAN_NOTES
      && out.failures == Failures(out.results)
      && |out.failures| == out.summary.failed
  {
    if body.endpoint.None? && !OpenApiGiven(body) {
      return Failure(HttpError(400, NO_INPUT_DETAIL)), [];
    }
    if body.endpoint.None? {
      return Failure(HttpError(501, OPENAPI_DETAIL)), [];
    }
    var ep := body.endpoint.value;

    var headers := BearerHeaders(ep.auth);
    var tests := [HappyCase(ep, headers)];
    if EdgeCaseApplies(ep) {
      tests := tests + [EdgeCase(ep, headers)];
    }

    var execOut, requests := ExecuteTests(tests, network);
    var failures := Failures(execOut.results);
    resp := Success(RunResponse(
      RunSummary(execOut.summary.total, execOut.summary.passed, execOut.summary.failed, PLAN_NOTES),
      execOut.results, failures));
    sent := requests;
  }
}
