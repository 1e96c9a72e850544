/** The test-case record shared by the planner, the HTTP handler and the
    runner. Every field but `url` may be missing from a case (a planner may
    omit them), which the runner fills with its defaults. An optional field
    that is `None` here is a key absent from the case; a key present with
    the value `None` is not represented. */
module Cases {
  import opened Wrappers
  import opened Json

  /** HTTP headers, in insertion order. */
  type Headers = seq<(string, string)>

  /** One planned HTTP request with its expected outcome. `body` is `JNull`
      for Python's `None` as well as for a missing body. */
  datatype TestCase = TestCase(
    name: Option<string>,
    verb: Option<string>,
    url: string,
    headers: Option<Headers>,
    body: JValue,
    expectedStatus: Option<int>,
    rationale: Option<string>)

  /** The verbs for which a JSON body is attached: `method in ("POST","PUT","PATCH")`. */
  predicate IsMutating(verb: string) {
    verb == "POST" || verb == "PUT" || verb == "PATCH"
  }

  /** Python's `x or d` for an optional integer: `None` and `0` are falsy. */
  function OrDefault(x: Option<int>, d: int): (r: int)
    ensures x.Some? && x.value != 0 ==> r == x.value
    ensures x.None? || x.value == 0 ==> r == d
  {
    if x.Some? && x.value != 0 then x.value else d
  }
}
