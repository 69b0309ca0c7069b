/** The JavaScript string operations the service relies on: `indexOf` of one
    character, `substring` with its argument clamping, `startsWith` and `includes`. */
module Strings {

  /** `s.indexOf(c)`: the first position of `c` in `s`, or -1 when it does not occur. */
  function IndexOf(s: string, c: char): (r: int)
    ensures -1 <= r < |s|
    ensures r == -1 <==> c !in s
    ensures 0 <= r ==> s[r] == c && c !in s[..r]
  {
    if |s| == 0 then -1
    else if s[0] == c then 0
    else
      var k := IndexOf(s[1..], c);
      if k == -1 then -1
      else
        assert s[..k + 1] == [s[0]] + s[1..][..k];
        k + 1
  }

  /** Clamps a `substring` argument into `[0, len]`, as JavaScript does. */
  function Clamp(i: int, len: nat): nat {
    if i < 0 then 0 else if i > len then len else i
  }

  /** `s.substring(start, end)`: both ends are clamped into the string and swapped
      when given in decreasing order. */
  function Substring(s: string, start: int, end: int): (r: string)
    ensures |r| <= |s|
  {
    var a := Clamp(start, |s|);
    var b := Clamp(end, |s|);
    if a <= b then s[a..b] else s[b..a]
  }

  /** `s.startsWith(prefix)`. */
  predicate StartsWith(s: string, prefix: string) {
    |prefix| <= |s| && s[..|prefix|] == prefix
  }

  /** `s.includes(t)`: `t` occurs somewhere in `s` as a contiguous substring. */
  predicate Includes(s: string, t: string)
    decreases |s|
  {
    StartsWith(s, t) || (|s| > 0 && Includes(s[1..], t))
  }

  /** `Includes` finds exactly the positions at which `t` occurs. */
  lemma {:induction false} IncludesAt(s: string, t: string)
    ensures Includes(s, t) <==> exists i :: 0 <= i <= |s| - |t| && StartsWith(s[i..], t)
    decreases |s|
  {
    if StartsWith(s, t) {
      assert s[0..] == s;
    } else if |s| == 0 {
    } else {
      IncludesAt(s[1..], t);
      if exists i :: 0 <= i <= |s| - |t| && StartsWith(s[i..], t) {
        var i :| 0 <= i <= |s| - |t| && StartsWith(s[i..], t);
        assert i != 0;
        assert s[1..][i - 1..] == s[i..];
      }
      if Includes(s[1..], t) {
        var i :| 0 <= i <= |s[1..]| - |t| && StartsWith(s[1..][i..], t);
        assert s[1..][i..] == s[i + 1..];
      }
    }
  }
}
