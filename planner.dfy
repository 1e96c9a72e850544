/** The plan synthesizer: ask the language model for a plan and, on any
    failure, fall back to a deterministic rule-based plan. The model's reply
    (`None` when the call raised) and `json.loads` (`None` when it raised)
    are oracles. */
module Planner {
  import opened Wrappers
  import opened Json
  import opened Strings
  import opened Cases
  import Runner

  const FALLBACK_NOTES := "Rule-based fallback"
  const MALFORMED_EMAIL := "not-an-email"

  /** The endpoint dictionary the planner reads. `sampleRequest` is `JNull`
      when the key is missing. `verb` is `None` when the key is absent;
      `expectedStatus` is `None` when the key is absent or holds `None`,
      which `or 200` treats alike. */
  datatype Endpoint = Endpoint(
    verb: Option<string>,
    url: string,
    sampleRequest: JValue,
    expectedStatus: Option<int>)

  datatype Plan = Plan(notes: string, tests: seq<TestCase>)

  /** What `plan_tests` returns: the decoded reply of the model, or the
      fallback plan. */
  datatype PlanOutcome = Generated(payload: JValue) | RuleBased(plan: Plan)

  /** `_extract_json` without `json.loads`: the text from the first `{`
      through the last `}`, or `None` (the `ValueError`) when either brace
      is missing. A last `}` before the first `{` gives Python's empty slice. */
  function ExtractJsonSpan(text: string): (r: Option<string>)
    ensures r.None? <==> '{' !in text || '}' !in text
    ensures r.Some? && r.value != "" ==>
      r.value[0] == '{' && r.value[|r.value| - 1] == '}'
  {
    var s, e := Find(text, '{'), RFind(text, '}');
    if s != -1 && e != -1 then Some(if s <= e then text[s..e + 1] else "") else None
  }

  /** The span runs exactly from the first `{` through the last `}`. */
  lemma ExtractSpanOutermost(text: string, i: nat, j: nat)
    requires i <= j < |text| && text[i] == '{' && text[j] == '}'
    requires forall k :: 0 <= k < i ==> text[k] != '{'
    requires forall k :: j < k < |text| ==> text[k] != '}'
    ensures ExtractJsonSpan(text) == Some(text[i..j + 1])
  {
    assert text[i] in text && text[j] in text;
    assert Find(text, '{') == i;
    assert RFind(text, '}') == j;
  }

  /** When every `}` comes before every `{`, the span is the empty string,
      which `json.loads` then rejects. */
  lemma ExtractSpanInverted(text: string, i: nat, j: nat)
    requires i < |text| && j < |text| && text[i] == '{' && text[j] == '}'
    requires forall a, b :: 0 <= a < |text| && 0 <= b < |text| && text[a] == '}' && text[b] == '{' ==> a < b
    ensures ExtractJsonSpan(text) == Some("")
  {
    assert text[i] in text && text[j] in text;
  }

  /** Python's `s[:n]`: a prefix of at most `n` items, and for a negative
      `n` everything but the last `-n` items. */
  function PyTake<T>(s: seq<T>, n: int): (r: seq<T>)
    ensures |r| <= |s| && r == s[..|r|]
    ensures n >= 0 ==> |r| == if n <= |s| then n else |s|
    ensures n < 0 ==> |r| == if |s| + n >= 0 then |s| + n else 0
  {
    if n >= 0 then (if n <= |s| then s[..n] else s)
    else if |s| + n >= 0 then s[..|s| + n] else []
  }

  /** `endpoint.get("method", "GET").upper()`. */
  function VerbOf(ep: Endpoint): string {
    Upper(ep.verb.GetOr("GET"))
  }

  /** `endpoint.get("sample_request") or {}`. */
  function SampleOf(ep: Endpoint): JValue {
    if Truthy(ep.sampleRequest) then ep.sampleRequest else JObject([])
  }

  /** The condition for the `missing_<first key>` case. */
  predicate MissingApplies(ep: Endpoint) {
    SampleOf(ep).JObject? && SampleOf(ep).members != [] && IsMutating(VerbOf(ep))
  }

  /** The condition for the `invalid_email` case. */
  predicate EmailApplies(ep: Endpoint) {
    SampleOf(ep).JObject? && HasKey(SampleOf(ep).members, "email") && IsMutating(VerbOf(ep))
  }

  function HappyCase(ep: Endpoint): TestCase {
    TestCase(Some("happy_path"), Some(VerbOf(ep)), ep.url, Some([]),
             if IsMutating(VerbOf(ep)) then SampleOf(ep) else JNull,
             Some(OrDefault(ep.expectedStatus, 200)), Some("Happy path"))
  }

  function MissingCase(ep: Endpoint): TestCase
    requires MissingApplies(ep)
  {
    var ms := SampleOf(ep).members;
    var k := ms[0].0;
    TestCase(Some("missing_" + k), Some(VerbOf(ep)), ep.url, Some([]),
             JObject(RemoveKey(ms, k)), Some(400), Some("Missing " + k))
  }

  function InvalidEmailCase(ep: Endpoint): TestCase
    requires EmailApplies(ep)
  {
    var ms := SampleOf(ep).members;
    TestCase(Some("invalid_email"), Some(VerbOf(ep)), ep.url, Some([]),
             JObject(SetKey(ms, "email", JString(MALFORMED_EMAIL))), Some(422), Some("Email validation"))
  }

  /** The untruncated rule-based list: the happy path, then the missing-field
      case, then the invalid-email case, each only when its rule applies. */
  function FallbackCases(ep: Endpoint): seq<TestCase> {
    [HappyCase(ep)]
    + (if MissingApplies(ep) then [MissingCase(ep)] else [])
    + (if EmailApplies(ep) then [InvalidEmailCase(ep)] else [])
  }

  /** The value `_rule_based_fallback(endpoint, max_tests)` returns. */
  function Fallback(ep: Endpoint, maxTests: int): Plan {
    Plan(FALLBACK_NOTES, PyTake(FallbackCases(ep), maxTests))
  }

  /** `_rule_based_fallback`: the list built by appending, then sliced. */
  method RuleBasedFallback(ep: Endpoint, maxTests: int) returns (plan: Plan)
    ensures plan == Fallback(ep, maxTests)
  {
    var tests := [HappyCase(ep)];
    if MissingApplies(ep) {
      tests := tests + [MissingCase(ep)];
    }
    if EmailApplies(ep) {
      tests := tests + [InvalidEmailCase(ep)];
    }
    plan := Plan(FALLBACK_NOTES, PyTake(tests, maxTests));
  }

  /** `plan_tests`: the decoded payload when the model replied and the reply
      holds a span that decodes; otherwise exactly the fallback plan. */
  method PlanTests(ep: Endpoint, maxTests: int, reply: Option<string>, decode: string -> Option<JValue>)
    returns (out: PlanOutcome)
    ensures reply.Some? && ExtractJsonSpan(reply.value).Some? && decode(ExtractJsonSpan(reply.value).value).Some?
      ==> out == Generated(decode(ExtractJsonSpan(reply.value).value).value)
    ensures reply.None? || ExtractJsonSpan(reply.value).None? || decode(ExtractJsonSpan(reply.value).value).None?
      ==> out == RuleBased(Fallback(ep, maxTests))
  {
    if reply.Some? {
      var span := ExtractJsonSpan(reply.value);
      if span.Some? {
        var parsed := decode(span.value);
        if parsed.Some? {
          return Generated(parsed.value);
        }
      }
    }
    var plan := RuleBasedFallback(ep, maxTests);
    out := RuleBased(plan);
  }

  /** Rank of a case in the fixed fallback order. */
  function CaseRank(t: TestCase): int {
    if t.name == Some("happy_path") then 0
    else if t.name.Some? && |t.name.value| >= 8 && t.name.value[..8] == "missing_" then 1
    else if t.name == Some("invalid_email") then 2
    else 3
  }

  /** The untruncated list has one to three cases, the happy path first and
      the others in the order missing-field, invalid-email. */
  lemma FallbackShape(ep: Endpoint)
    ensures 1 <= |FallbackCases(ep)| <= 3
    ensures FallbackCases(ep)[0] == HappyCase(ep)
    ensures forall i, j :: 0 <= i < j < |FallbackCases(ep)| ==>
      CaseRank(FallbackCases(ep)[i]) < CaseRank(FallbackCases(ep)[j]) < 3
    ensures |FallbackCases(ep)| == 1 + (if MissingApplies(ep) then 1 else 0) + (if EmailApplies(ep) then 1 else 0)
  {
    if MissingApplies(ep) {
      var name := MissingCase(ep).name.value;
      assert name[..8] == "missing_";
    }
    assert "invalid_email"[..8][0] != "missing_"[0];
  }

  /** Truncation: with `max_tests >= 0` the plan has at most `max_tests`
      cases and is a prefix of the untruncated list, all of it when it fits. */
  lemma FallbackTruncation(ep: Endpoint, maxTests: int)
    requires 0 <= maxTests
    ensures var tests := Fallback(ep, maxTests).tests;
      |tests| <= maxTests && tests == FallbackCases(ep)[..|tests|]
      && (maxTests >= |FallbackCases(ep)| ==> tests == FallbackCases(ep))
      && Fallback(ep, maxTests).notes == FALLBACK_NOTES
  {
  }

  /** With room for one case the plan starts with the happy path: the
      upper-cased verb, the sample as body only for a mutating verb, and
      `expected_status or 200`. */
  lemma FallbackHappyFirst(ep: Endpoint, maxTests: int)
    requires maxTests >= 1
    ensures var t := Fallback(ep, maxTests).tests[0];
      t.name == Some("happy_path") && t.verb == Some(Upper(ep.verb.GetOr("GET")))
      && t.url == ep.url && t.headers == Some([])
      && (IsMutating(VerbOf(ep)) ==> t.body == SampleOf(ep))
      && (!IsMutating(VerbOf(ep)) ==> t.body == JNull)
      && t.expectedStatus == Some(if ep.expectedStatus.Some? && ep.expectedStatus.value != 0 then ep.expectedStatus.value else 200)
  {
    assert Fallback(ep, maxTests).tests[0] == FallbackCases(ep)[0];
  }

  /** A case named `missing_<k>` is generated exactly when the sample is a
      non-empty object, the verb is mutating, and `k` is the first key. */
  lemma FallbackMissingIff(ep: Endpoint, k: string)
    ensures (exists i :: 0 <= i < |FallbackCases(ep)| && FallbackCases(ep)[i].name == Some("missing_" + k))
      <==> MissingApplies(ep) && k == SampleOf(ep).members[0].0
  {
    var cases := FallbackCases(ep);
    var target := "missing_" + k;
    assert target[0] == 'm' && target[1] == 'i';
    assert "happy_path"[0] == 'h' && "invalid_email"[0] == 'i';
    if MissingApplies(ep) {
      assert cases[1] == MissingCase(ep);
      var k0 := SampleOf(ep).members[0].0;
      if target == "missing_" + k0 {
        assert k == target[8..] == k0;
      }
    }
  }

  /** The missing-field case drops exactly the first key of the sample,
      leaving the rest of the dictionary in order, and expects 400. */
  lemma FallbackMissingBody(ep: Endpoint)
    requires MissingApplies(ep)
    ensures var ms := SampleOf(ep).members; var t := FallbackCases(ep)[1];
      t.name == Some("missing_" + ms[0].0) && t.expectedStatus == Some(400)
      && t.body.JObject? && !HasKey(t.body.members, ms[0].0)
      && (forall k :: k != ms[0].0 ==> Get(t.body.members, k) == Get(ms, k))
      && (DistinctKeys(ms) ==> t.body == JObject(ms[1..]))
  {
    var ms := SampleOf(ep).members;
    forall k | k != ms[0].0
      ensures Get(RemoveKey(ms, ms[0].0), k) == Get(ms, k)
    {
      RemoveKeyKeepsOthers(ms, ms[0].0, k);
    }
    if DistinctKeys(ms) {
      RemoveFirstKey(ms);
    }
  }

  /** A case named `invalid_email` is generated exactly when the sample is
      an object with an `email` key and the verb is mutating; it is the last
      case, replaces only the `email` value in place, and expects 422. */
  lemma FallbackInvalidEmail(ep: Endpoint)
    ensures (exists i :: 0 <= i < |FallbackCases(ep)| && FallbackCases(ep)[i].name == Some("invalid_email"))
      <==> EmailApplies(ep)
    ensures EmailApplies(ep) ==>
      var ms := SampleOf(ep).members; var t := FallbackCases(ep)[|FallbackCases(ep)| - 1];
      t.name == Some("invalid_email") && t.expectedStatus == Some(422) && t.body.JObject?
      && |t.body.members| == |ms|
      && (forall i :: 0 <= i < |ms| ==>
            t.body.members[i].0 == ms[i].0
            && t.body.members[i].1 == if ms[i].0 == "email" then JString(MALFORMED_EMAIL) else ms[i].1)
  {
    var cases := FallbackCases(ep);
    if MissingApplies(ep) {
      var name := MissingCase(ep).name.value;
      assert name[..8] == "missing_";
      assert name[0] == name[..8][0] == 'm';
      assert cases[1].name.value != "invalid_email";
    }
    if EmailApplies(ep) {
      assert cases[|cases| - 1] == InvalidEmailCase(ep);
    }
  }

  /** A concrete plan: POST with `{a: 1, b: 2}`
      gives `happy_path` then `missing_a` with body `{b: 2}` expecting 400,
      and no `invalid_email` case. */
  lemma FallbackExampleMissing(url: string)
    ensures var ep := Endpoint(Some("POST"), url, JObject([("a", JInt(1)), ("b", JInt(2))]), Some(200));
      var tests := Fallback(ep, 5).tests;
      |tests| == 2 && tests[0].name == Some("happy_path") && tests[1].name == Some("missing_a")
      && tests[1].body == JObject([("b", JInt(2))]) && tests[1].expectedStatus == Some(400)
  {
    assert Upper("POST") == "POST";
    var ep := Endpoint(Some("POST"), url, JObject([("a", JInt(1)), ("b", JInt(2))]), Some(200));
    var ms := SampleOf(ep).members;
    assert ms[0].0 != "email" && ms[1].0 != "email";
    assert !HasKey(ms, "email");
    assert DistinctKeys(ms);
    FallbackMissingBody(ep);
    FallbackShape(ep);
    var tests := Fallback(ep, 5).tests;
    assert tests == FallbackCases(ep);
    assert ms[0].0 == "a";
    assert "missing_" + ms[0].0 == "missing_a";
    assert tests[1].name == Some("missing_a");
    assert tests[1].body == JObject([("b", JInt(2))]);
  }

  /** A concrete plan: POST with
      `{email: "a@b.com"}` and expected 201 ends with `invalid_email`,
      whose body holds a malformed address, expecting 422. */
  lemma FallbackExampleEmail(url: string)
    ensures var ep := Endpoint(Some("POST"), url, JObject([("email", JString("a@b.com"))]), Some(201));
      var tests := Fallback(ep, 5).tests;
      |tests| == 3 && tests[0].expectedStatus == Some(201) && tests[2].name == Some("invalid_email")
      && tests[2].expectedStatus == Some(422) && tests[2].body == JObject([("email", JString(MALFORMED_EMAIL))])
  {
    assert Upper("POST") == "POST";
    var ep := Endpoint(Some("POST"), url, JObject([("email", JString("a@b.com"))]), Some(201));
    var ms := SampleOf(ep).members;
    assert ms[0].0 == "email" && HasKey(ms, "email");
    FallbackInvalidEmail(ep);
    FallbackShape(ep);
  }

  /** Executed by the runner, every fallback case keeps the planner's
      upper-cased verb and carries its body on the wire exactly when that
      verb is mutating. */
  lemma FallbackRequests(ep: Endpoint, maxTests: int)
    ensures forall i :: 0 <= i < |Fallback(ep, maxTests).tests| ==>
      var r := Runner.RequestFor(Fallback(ep, maxTests).tests[i]);
      r.verb == VerbOf(ep) && r.url == ep.url && r.headers == []
      && (r.json.Some? <==> IsMutating(VerbOf(ep)))
  {
    UpperIdempotent(ep.verb.GetOr("GET"));
    var full := FallbackCases(ep);
    assert forall i :: 0 <= i < |full| ==> full[i].verb == Some(VerbOf(ep)) && full[i].headers == Some([]);
  }
}
