# AgenticQALite test-generation core, modelled in Dafny

AgenticQALite generates and runs functional HTTP tests for one API endpoint.
This project models the deterministic middle of that pipeline:

- the **plan synthesizer** (`src/planner.py`): locating the JSON span in a
  language-model reply, the rule-based fallback plan (happy path,
  missing-first-field case, invalid-email case, Python-sliced to `max_tests`),
  and the "model reply or fallback" selection;
- the **execution engine** (`src/runner.py`): one request and one result record
  per test case, in order, with defaults for missing fields, the
  280-character response snippet, the `-1` sentinel for a request that got no
  response, and the total/passed/failed counts;
- the **`/run_tests` handler** (`src/app.py`): rejection of requests without an
  endpoint (400, or 501 when only an OpenAPI URL is given), the bearer header,
  the one- or two-case plan, the summary and the failures view;
- **report aggregation** (`src/agenticqa/reporting.py`): counts over a list of
  result dictionaries.

Files and modules: `wrappers.dfy` (Option, Result), `json.dfy` (decoded JSON
values; a dictionary is a sequence of (key, value) members in insertion order,
with `get`, `pop`, item assignment, truthiness, `str`/`repr`), `strings.dfy`
(`upper`, `find`, `rfind`, `str(int)`, `join`), `cases.dfy` (the test-case
record shared by all components), then `planner.dfy`, `runner.dfy`, `app.dfy`
and `reporting.dfy`, one per source file.

External effects are parameters:

- the target HTTP endpoint is an oracle `network(i, request)` that gives the
  outcome of the i-th request of a batch: `Received(code, text)` or
  `Failed(message)` for any exception;
- the language-model call is an `Option<string>` reply (`None` for any
  exception in the call);
- `json.loads` is an oracle `string -> Option<JValue>` (`None` when it raises).

Where the source builds lists by appending, or talks to the network, the model
is a method: `RuleBasedFallback`, `PlanTests`, `ExecuteTests`,
`RunSingleHappyPath` and `RunTests`. Each one's postcondition ties its result to a
specification function (`Fallback`, `RequestFor`/`ResultFor`, `Tally`,
`AppPlan`, `Failures`), and the lemmas state what the source promises about
those functions. `ExecuteTests` keeps the source's loop, and its invariants
carry the per-case correspondence.

A few behaviours of the code that a reader might not expect, and that the model
keeps:

- the handler keeps the endpoint's verb as given in its cases (only the runner
  upper-cases it);
- the handler does not call the planner at all and ignores `max_tests`;
- no step fills in missing fields of model-produced cases from the endpoint;
  only the runner's own defaults apply;
- the fallback's happy-path body for a mutating verb with no (or a falsy)
  sample is `{}`, because of `sample_request or {}`;
- a negative `max_tests` drops cases from the end, as Python slicing does
  (`PyTake`).

## Model

| member | source | states |
|---|---|---|
| `Strings.Find` | src/planner.py:11 | `text.find(c)`: -1 exactly when `c` does not occur, otherwise an index holding `c` with no `c` before it |
| `Strings.RFind` | src/planner.py:11 | `text.rfind(c)`: -1 exactly when `c` does not occur, otherwise an index holding `c` with no `c` after it |
| `Strings.Upper` | src/planner.py:17 | `str.upper` over ASCII: same length, every lowercase letter becomes its uppercase counterpart, every other character is unchanged, and no lowercase letter remains |
| `Strings.UpperIdempotent` | src/runner.py:41 | upper-casing an already upper-cased verb (as the fallback produces) changes nothing |
| `Json.Truthy` | src/agenticqa/reporting.py:7 | Python `bool(v)`: false exactly for `None`, `False`, `0`, `""`, `[]` and `{}` |
| `Json.Get` | src/app.py:40 | `d.get(k)` is present exactly when `k` is a key, is a member of the dictionary, and is the value stored under the first occurrence of `k` (so the value under `k` when keys are distinct) |
| `Json.RemoveKey` | src/planner.py:30 | `pop(k, None)` on a copy: `k` is gone, the other members are exactly those of the input, and the dictionary shrinks when `k` was present |
| `Json.RemoveFirstKey` | src/planner.py:29-30 | dropping the first key of a dictionary with distinct keys leaves exactly its remaining members, in order |
| `Json.RemoveKeyKeepsOthers` | src/planner.py:30 | removing `k` preserves the value of every other key |
| `Json.SetKey` | src/planner.py:37 | `d[k] = v` on a copy: an existing key keeps its position and only its value changes; a new key is appended; keys stay distinct; `k` then reads `v` |
| `Json.Str` | src/app.py:41 | the f-string rendering of the token: a string is its own text, an integer its decimal digits, a boolean `True`/`False`, `None` is `None`, a list or dictionary its `repr` |
| `Json.Repr` | src/app.py:41 | `repr` is never empty; a string is single-quoted, a list is bracketed, a dictionary is braced, an integer is its decimal digits |
| `Cases.OrDefault` | src/planner.py:20 | `x or d` for an optional integer: `x` when present and non-zero, `d` when absent or zero |
| `Planner.ExtractJsonSpan` | src/planner.py:10-14 | fails exactly when `{` or `}` is absent; a non-empty span starts with `{` and ends with `}` |
| `Planner.ExtractSpanOutermost` | src/planner.py:11-13 | the span is the text from the first `{` through the last `}` inclusive |
| `Planner.ExtractSpanInverted` | src/planner.py:13 | when every `}` precedes every `{`, the span is the empty string |
| `Planner.PyTake` | src/planner.py:42 | Python `s[:n]`: always a prefix; `min(n, len)` items for `n >= 0`, all but the last `-n` items for `n < 0` |
| `Planner.RuleBasedFallback` | src/planner.py:16-42 | the appended-then-sliced list equals `Fallback(endpoint, max_tests)`, a function of the endpoint and `max_tests` alone, with notes `Rule-based fallback` |
| `Planner.PlanTests` | src/planner.py:44-50 | the decoded payload when the reply exists and its brace span decodes; on any failure of the call, the span search or the decoding, exactly the fallback plan |
| `Planner.FallbackShape` | src/planner.py:21-41 | the untruncated list has 1 to 3 cases, happy path first, then `missing_*`, then `invalid_email`, one per applicable rule |
| `Planner.FallbackTruncation` | src/planner.py:42 | with `max_tests >= 0` the plan has at most `max_tests` cases, is a prefix of the untruncated list, and is all of it when it fits |
| `Planner.FallbackHappyFirst` | src/planner.py:17-26 | with `max_tests >= 1` the first case is `happy_path` with the upper-cased verb (default GET), no headers, the sample as body only for POST/PUT/PATCH (`None` otherwise) and expected status `expected_status or 200` |
| `Planner.FallbackMissingIff` | src/planner.py:28-34 | a case named `missing_<k>` exists exactly when the sample is a non-empty object, the verb is mutating and `k` is its first key |
| `Planner.FallbackMissingBody` | src/planner.py:28-34 | that case expects 400 and its body lacks `k`, keeps every other key's value, and is the sample minus its first member when keys are distinct |
| `Planner.FallbackInvalidEmail` | src/planner.py:36-41 | an `invalid_email` case exists exactly when the sample object has an `email` key and the verb is mutating; it is last, expects 422, and replaces only the `email` value, in place, by `not-an-email` |
| `Planner.FallbackExampleMissing` | src/planner.py:16-42 | POST with `{a: 1, b: 2}` and `max_tests = 5` gives exactly `happy_path`, `missing_a` with body `{b: 2}` expecting 400 |
| `Planner.FallbackExampleEmail` | src/planner.py:16-42 | POST with `{email: "a@b.com"}` and expected 201 gives three cases, the happy path expecting 201 and `invalid_email` expecting 422 with body `{email: "not-an-email"}` |
| `Planner.FallbackRequests` | src/runner.py:41-53 | executing a fallback case sends the planner's upper-cased verb, the endpoint URL and no headers, and attaches a body exactly when that verb is mutating |
| `Runner.RequestFor` | src/runner.py:41-53 | the request uses the upper-cased method (default GET), headers defaulting to none, and carries the body exactly for POST, PUT and PATCH |
| `Runner.SnippetOf` | src/runner.py:62 | the snippet is a prefix of the response text of at most 280 characters, the whole text when it fits (so `""` for an empty text) |
| `Runner.ResultFor` | src/runner.py:45-73 | name defaults to `test`, expected to 200; `passed` holds exactly when a response arrived with the expected status; a response gives its code and a snippet, a failure gives status -1, `passed` false and the error, never a snippet |
| `Runner.ToRecordFields` | src/runner.py:56-73 | the result dictionary has distinct keys; `name`, `status`, `expected_status` and `passed` read back the result's fields (`passed` a boolean); it has `response_snippet` exactly for a response and `error` exactly for a failure, holding the snippet or the message |
| `Runner.CountPassed` | src/runner.py:76 | the passed count is at most the number of results, equal to it exactly when all passed, and 0 exactly when none passed |
| `Runner.Tally` | src/runner.py:75-78 | total is the number of results, passed is the passed count, `passed + failed == total`, both non-negative, and 0/0/0 for no results |
| `Runner.TallyAppend` | src/runner.py:75-78 | each further result adds one to the total and one to exactly one of passed and failed |
| `Runner.ExecuteTests` | src/runner.py:36-78 | one request and one result per case, in the same order; the i-th request is `RequestFor(case i)`, the i-th result is `ResultFor` of that case and its outcome; the summary is the tally of the results |
| `Runner.RunSingleHappyPath` | src/runner.py:6-34 | a single record named `happy_path`, built by the same request and result rules as a one-case batch |
| `App.BearerHeaders` | src/app.py:39-41 | exactly one header `Authorization: Bearer <token>` when auth is a non-empty dictionary with type `bearer` and a truthy token; no header otherwise |
| `App.Failures` | src/app.py:79 | the failures are all not passed and there are exactly `total - passed` of them |
| `App.FailedIndicesExact` | src/app.py:79 | the failed positions are increasing, in range, and are exactly the positions whose `passed` is false |
| `App.FailuresInOrder` | src/app.py:79 | the failures view is exactly the results whose `passed` is false, in input order |
| `App.AppPlanShape` | src/app.py:44-65 | the handler's plan has 1 or 2 cases, 2 exactly when the edge-case rule applies; the first is `happy_path` with the verb as given, expected `expected_status or 200`, the sample as body only for a mutating verb; every case carries the derived headers |
| `App.AppEdgeCase` | src/app.py:54-65 | the second case is `missing_<first key>`, expects 400, and its body is the sample minus its first key |
| `App.RunTests` | src/app.py:29-80 | no endpoint and no OpenAPI URL gives 400, an OpenAPI URL alone gives 501, both with nothing sent; otherwise the plan `AppPlan`, independent of `max_tests`, is executed case by case, the summary copies the counts (`passed + failed == total`), and the failures view is `Failures(results)` with `failed` elements |
| `Reporting.RecordPassedValue` | src/agenticqa/reporting.py:7 | `r.get("passed")` is truthy exactly when the first value under `passed` is truthy, that is, not `None`, `False`, `0`, `""`, `[]` or `{}` |
| `Reporting.CountRecordsPassed` | src/agenticqa/reporting.py:7 | counts results whose `passed` is truthy: at most the total, 0 exactly when none is, the total exactly when all are |
| `Reporting.BuildReport` | src/agenticqa/reporting.py:5-20 | results returned unchanged; `total_tests` is their number; `passed + failed == total_tests`, both non-negative; 0/0/0 for an empty list |
| `Reporting.MissingPassedNotCounted` | src/agenticqa/reporting.py:7 | a result without a `passed` key adds to `failed`, not to `passed` |
| `Reporting.RecordsPassedCount` | src/agenticqa/reporting.py:7 | over the runner's result dictionaries, the truthy-`passed` count equals the number of results that passed |
| `Reporting.RecordPassedOf` | src/agenticqa/reporting.py:7 | a runner result dictionary counts as passed exactly when the result passed |
| `Reporting.ReportMatchesExecution` | src/agenticqa/reporting.py:5-8 | reporting the runner's result dictionaries gives the runner's own total, passed and failed counts |

## Left out

- `elapsed_ms` and `time.time()`: wall-clock timing is not modelled, and result records carry no elapsed time.
- The `run_id` values built from `datetime` and `uuid` (src/app.py:67, src/agenticqa/reporting.py:11) are not modelled.
- The text of `str(e)`: a failed request's error is whatever message the network oracle gives, so the model does not promise that it is non-empty.
- The HTTP request itself (`requests.request`), the language-model call (src/agenticqa/agent/llm.py) and `json.loads` are oracles. Timeouts are parameters of those calls only.
- Reading the prompt file and building the `json.dumps` prompt (src/planner.py:7-8, 45) are I/O and serialisation; the reply oracle stands for their effect.
- FastAPI and pydantic: the `max_tests` bound `1..10` is a precondition of `RunTests`. The `GET /` root message and the decorators are not modelled.
- `print_summary` and the CLI (src/agenticqa/cli.py), which calls `agenticqa.core.runner`; that module is not part of this model. Config loading (src/agenticqa/config_loader.py) is I/O and is not modelled either.
- JSON numbers are integers only: floats are not modelled. The model's `expected_status` is an integer or absent. In the source, the runner's `int()` also converts a numeric string (`"201"` to 201) or a boolean (`True` to 1) and raises for `None` or a non-numeric string. None of these values can be written in the model.
- Keys present with the value `None`: the model's `None` stands for an absent key. In the source, a `method` given as `None` raises `AttributeError` on `.upper()`. In the planner (src/planner.py:17) this happens inside the exception handler of `plan_tests` (src/planner.py:50), so the error propagates. In the runner (src/runner.py:41) it happens outside the `try`, so the whole batch aborts. A `name` given as `None` stays `None` in the runner's record (src/runner.py:46), because `get` applies its default only to an absent key. None of these cases is modelled.
- `Planner.Endpoint` requires `url`: a missing `url` raises `KeyError` in the source and is not modelled. The same holds for a missing `url` in a runner test case.
- `Strings.Upper`: upper-cases ASCII letters only, while Python's `str.upper` also maps other Unicode letters (some to several characters).
- `Json.Repr`: strings inside a list or dictionary are quoted with `'` and not escaped, while Python switches quotes and escapes special characters. This only matters for a bearer token that is a list or a dictionary.
- The planner's LLM path does not check the shape of the decoded payload (a `tests` list, `notes`), as the source does not either.
