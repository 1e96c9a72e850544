/** Decoded JSON values as Python holds them after `json.loads`: `None`,
    booleans, integers, strings, lists and dictionaries. A dictionary is its
    sequence of (key, value) members in insertion order, which is the order
    `next(iter(d.keys()))` and `dict(d)` observe. */
module Json {
  import opened Wrappers
  import Strings

  datatype JValue =
    | JNull
    | JBool(b: bool)
    | JInt(i: int)
    | JString(s: string)
    | JArray(items: seq<JValue>)
    | JObject(members: Members)

  type Members = seq<(string, JValue)>

  /** Python truthiness (`bool(v)`) of a decoded value: exactly `None`,
      `False`, `0`, `""`, `[]` and `{}` are falsy. */
  predicate Truthy(v: JValue)
    ensures !Truthy(v) <==>
      v == JNull || v == JBool(false) || v == JInt(0) || v == JString("")
      || v == JArray([]) || v == JObject([])
  {
    match v
    case JNull => false
    case JBool(b) => b
    case JInt(i) => i != 0
    case JString(s) => s != ""
    case JArray(items) => items != []
    case JObject(ms) => ms != []
  }

  /** `k in d`. */
  predicate HasKey(ms: Members, k: string) {
    exists i :: 0 <= i < |ms| && ms[i].0 == k
  }

  /** A Python dictionary never holds a key twice. */
  predicate DistinctKeys(ms: Members) {
    forall i, j :: 0 <= i < j < |ms| ==> ms[i].0 != ms[j].0
  }

  /** No member before position `i` has key `k`. */
  predicate KeyAbsentBefore(ms: Members, k: string, i: int)
    requires 0 <= i <= |ms|
  {
    forall j :: 0 <= j < i ==> ms[j].0 != k
  }

  /** `d.get(k)`: the value stored under `k`, or `None`. */
  function Get(ms: Members, k: string): (r: Option<JValue>)
    ensures r.Some? <==> HasKey(ms, k)
    ensures r.Some? ==> (k, r.value) in ms
    ensures forall i :: 0 <= i < |ms| && ms[i].0 == k && KeyAbsentBefore(ms, k, i) ==>
      r == Some(ms[i].1)
    ensures DistinctKeys(ms) ==>
      forall i :: 0 <= i < |ms| && ms[i].0 == k ==> r == Some(ms[i].1)
  {
    if ms == [] then None
    else if ms[0].0 == k then Some(ms[0].1)
    else
      var r := Get(ms[1..], k);
      assert forall i :: 1 <= i < |ms| ==> ms[i] == ms[1..][i - 1];
      r
  }

  /** `d.pop(k, None)` on a copy: every member with key `k` is dropped and the
      others keep their order. */
  function RemoveKey(ms: Members, k: string): (r: Members)
    ensures !HasKey(r, k)
    ensures |r| <= |ms|
    ensures forall m :: m in r <==> m in ms && m.0 != k
    ensures HasKey(ms, k) ==> |r| < |ms|
  {
    if ms == [] then []
    else if ms[0].0 == k then RemoveKey(ms[1..], k)
    else
      var rest := RemoveKey(ms[1..], k);
      assert forall m :: m in ms <==> m == ms[0] || m in ms[1..];
      [ms[0]] + rest
  }

  /** Dropping the first key of a dictionary leaves exactly its other members. */
  lemma {:induction false} RemoveFirstKey(ms: Members)
    requires ms != [] && DistinctKeys(ms)
    ensures RemoveKey(ms, ms[0].0) == ms[1..]
  {
    assert !HasKey(ms[1..], ms[0].0);
    RemoveAbsentKey(ms[1..], ms[0].0);
  }

  lemma {:induction false} RemoveAbsentKey(ms: Members, k: string)
    requires !HasKey(ms, k)
    ensures RemoveKey(ms, k) == ms
  {
    if ms != [] {
      assert ms[0].0 != k;
      assert !HasKey(ms[1..], k) by {
        assert forall i :: 0 <= i < |ms| - 1 ==> ms[1..][i] == ms[i + 1];
      }
      RemoveAbsentKey(ms[1..], k);
    }
  }

  /** Removing a key from a dictionary keeps every other key's value. */
  lemma {:induction false} RemoveKeyKeepsOthers(ms: Members, k: string, other: string)
    requires other != k
    ensures Get(RemoveKey(ms, k), other) == Get(ms, other)
  {
    if ms != [] {
      RemoveKeyKeepsOthers(ms[1..], k, other);
    }
  }

  /** Every member whose key is `k` gets the value `v`, in place. */
  function Replace(ms: Members, k: string, v: JValue): (r: Members)
    ensures |r| == |ms|
    ensures forall i :: 0 <= i < |ms| ==>
      r[i] == if ms[i].0 == k then (k, v) else ms[i]
  {
    if ms == [] then []
    else [if ms[0].0 == k then (k, v) else ms[0]] + Replace(ms[1..], k, v)
  }

  /** `d[k] = v` on a copy: an existing key keeps its position and takes the
      new value; a new key goes last. */
  function SetKey(ms: Members, k: string, v: JValue): (r: Members)
    ensures HasKey(ms, k) ==> |r| == |ms| && forall i :: 0 <= i < |ms| ==>
      r[i].0 == ms[i].0 && r[i].1 == (if ms[i].0 == k then v else ms[i].1)
    ensures !HasKey(ms, k) ==> r == ms + [(k, v)]
    ensures DistinctKeys(ms) ==> DistinctKeys(r)
    ensures Get(r, k) == Some(v)
  {
    if HasKey(ms, k) then
      var r := Replace(ms, k, v);
      assert HasKey(r, k);
      assert forall i :: 0 <= i < |r| && r[i].0 == k ==> r[i].1 == v;
      GetAllEqual(r, k, v);
      r
    else
      var r := ms + [(k, v)];
      assert r[|ms|].0 == k;
      assert forall i :: 0 <= i < |ms| ==> r[i] == ms[i];
      GetAllEqual(r, k, v);
      r
  }

  lemma {:induction false} GetAllEqual(ms: Members, k: string, v: JValue)
    requires HasKey(ms, k)
    requires forall i :: 0 <= i < |ms| && ms[i].0 == k ==> ms[i].1 == v
    ensures Get(ms, k) == Some(v)
  {
    if ms[0].0 != k {
      assert forall i :: 0 <= i < |ms| - 1 ==> ms[1..][i] == ms[i + 1];
      assert HasKey(ms[1..], k) by {
        var i :| 0 <= i < |ms| && ms[i].0 == k;
        assert ms[1..][i - 1].0 == k;
      }
      GetAllEqual(ms[1..], k, v);
    }
  }

  /** `str(v)`, as an f-string renders `v`: a string is itself, anything
      else is its `repr`. */
  function Str(v: JValue): (r: string)
    ensures v.JString? ==> r == v.s
    ensures v.JInt? ==> r == Strings.IntToString(v.i)
    ensures v.JBool? ==> r == if v.b then "True" else "False"
    ensures v.JNull? ==> r == "None"
    ensures v.JArray? || v.JObject? ==> r == Repr(v)
  {
    if v.JString? then v.s else Repr(v)
  }

  /** `repr(v)`: `None`, `True`/`False`, decimal integers, single-quoted
      strings, and `[...]` / `{...}` with `, ` and `: ` separators. */
  function Repr(v: JValue): (r: string)
    ensures r != []
    ensures v.JString? ==> r == "'" + v.s + "'"
    ensures v.JArray? ==> r[0] == '[' && r[|r| - 1] == ']'
    ensures v.JObject? ==> r[0] == '{' && r[|r| - 1] == '}'
    ensures v.JInt? ==> r == Strings.IntToString(v.i)
    decreases v
  {
    match v
    case JNull => "None"
    case JBool(b) => if b then "True" else "False"
    case JInt(i) => Strings.IntToString(i)
    case JString(s) => "'" + s + "'"
    case JArray(items) =>
      "[" + Strings.Join(seq(|items|, i requires 0 <= i < |items| => Repr(items[i])), ", ") + "]"
    case JObject(ms) =>
      "{" + Strings.Join(seq(|ms|, i requires 0 <= i < |ms| => "'" + ms[i].0 + "': " + Repr(ms[i].1)), ", ") + "}"
  }
}
