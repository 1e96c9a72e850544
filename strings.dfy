/** The few Python `str` operations the core relies on. */
module Strings {

  /** `c.upper()` for an ASCII character; every other character is kept. */
  function UpperChar(c: char): char {
    if 'a' <= c <= 'z' then (c as int - 'a' as int + 'A' as int) as char else c
  }

  /** `s.upper()`, character by character over ASCII letters. */
  function Upper(s: string): (r: string)
    ensures |r| == |s|
    ensures forall i :: 0 <= i < |s| ==> !('a' <= r[i] <= 'z')
    ensures forall i :: 0 <= i < |s| && 'a' <= s[i] <= 'z' ==> r[i] as int == s[i] as int - 32
    ensures forall i :: 0 <= i < |s| && !('a' <= s[i] <= 'z') ==> r[i] == s[i]
  {
    seq(|s|, i requires 0 <= i < |s| => UpperChar(s[i]))
  }

  /** Upper-casing twice gives what upper-casing once gives, so a method
      upper-cased by the planner and again by the runner is unchanged. */
  lemma UpperIdempotent(s: string)
    ensures Upper(Upper(s)) == Upper(s)
  {
    var u := Upper(s);
    assert forall i :: 0 <= i < |u| ==> UpperChar(u[i]) == u[i];
  }

  /** `text.find(c)`: the first index of `c`, or -1 when `c` does not occur. */
  function Find(text: string, c: char): (r: int)
    ensures r == -1 <==> c !in text
    ensures r != -1 ==> 0 <= r < |text| && text[r] == c
    ensures r != -1 ==> forall k :: 0 <= k < r ==> text[k] != c
  {
    if text == [] then -1
    else if text[0] == c then 0
    else
      var j := Find(text[1..], c);
      assert forall k :: 1 <= k < |text| ==> text[k] == text[1..][k - 1];
      if j == -1 then -1 else j + 1
  }

  /** `text.rfind(c)`: the last index of `c`, or -1 when `c` does not occur. */
  function RFind(text: string, c: char): (r: int)
    ensures r == -1 <==> c !in text
    ensures r != -1 ==> 0 <= r < |text| && text[r] == c
    ensures r != -1 ==> forall k :: r < k < |text| ==> text[k] != c
  {
    if text == [] then -1
    else if text[|text| - 1] == c then |text| - 1
    else
      var front := text[..|text| - 1];
      assert text == front + [text[|text| - 1]];
      RFind(front, c)
  }

  function DigitChar(d: int): char
    requires 0 <= d < 10
  {
    "0123456789"[d]
  }

  /** `str(n)` for a Python integer: its decimal digits, with a leading `-`
      when negative. */
  function IntToString(n: int): (r: string)
    ensures r != []
    decreases if n < 0 then -n + 1 else n
  {
    if n < 0 then "-" + IntToString(-n)
    else if n < 10 then [DigitChar(n)]
    else IntToString(n / 10) + [DigitChar(n % 10)]
  }

  /** `sep.join(parts)`. */
  function Join(parts: seq<string>, sep: string): string {
    if parts == [] then ""
    else if |parts| == 1 then parts[0]
    else parts[0] + sep + Join(parts[1..], sep)
  }
}
