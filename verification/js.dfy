/**
 * The handful of JavaScript built-ins the application relies on, stated over
 * Dafny sequences. Each function follows the ECMAScript definition for the
 * argument ranges the application uses; strings are `seq<char>` and a
 * missing (null/undefined) string field is represented by "".
 */
module Js {

  /** `s.startsWith(p)` */
  predicate StartsWith(s: string, p: string) {
    |p| <= |s| && s[..|p|] == p
  }

  /** `s.includes(p)`: `p` occurs somewhere inside `s`. */
  predicate Includes(s: string, p: string) {
    exists i :: 0 <= i <= |s| && StartsWith(s[i..], p)
  }

  /** `a || b` on two strings: the empty string is falsy. */
  function OrElse(a: string, b: string): (r: string)
    ensures r == a || r == b
    ensures r == "" <==> a == "" && b == ""
  {
    if a != "" then a else b
  }

  /** `s.length`: JavaScript counts UTF-16 code units, so a character
      outside the Basic Multilingual Plane (above U+FFFF) counts as two. */
  function Utf16Length(s: string): (r: nat)
    ensures |s| <= r <= 2 * |s|
  {
    if |s| == 0 then 0
    else Utf16Length(s[..|s| - 1]) + (if s[|s| - 1] as int > 0xFFFF then 2 else 1)
  }

  /** A string is shorter than two code units exactly when it is empty or a
      single character of the Basic Multilingual Plane; one character
      above U+FFFF is already two units long. */
  lemma Utf16ShorterThanTwo(s: string)
    ensures Utf16Length(s) < 2 <==> |s| == 0 || (|s| == 1 && s[0] as int <= 0xFFFF)
  {
    if |s| == 1 {
      assert s[..0] == [];
    }
  }

  function Min(a: int, b: int): int {
    if a <= b then a else b
  }

  /** The index `Array.prototype.slice` derives from a start or end argument `k`
      on an array of length `n`: negative arguments count from the end, and the
      result is clamped to `[0, n]`. */
  function SliceIndex(n: nat, k: int): (r: nat)
    ensures r <= n
    ensures 0 <= k <= n ==> r == k
    ensures k > n ==> r == n
    ensures k < 0 ==> r == (if n + k < 0 then 0 else n + k)
  {
    if k < 0 then (if n + k < 0 then 0 else n + k)
    else if k > n then n
    else k
  }

  /** Where `slice(start, end)` stops on an array of length `n`: never
      before where it starts. */
  function SliceEnd(n: nat, start: int, end: int): (r: nat)
    ensures SliceIndex(n, start) <= r <= n
    ensures 0 <= start <= end ==> r == Min(end, n)
  {
    var a := SliceIndex(n, start);
    var b := SliceIndex(n, end);
    if a < b then b else a
  }

  /** `s.slice(start, end)` on an array. */
  function Slice<T>(s: seq<T>, start: int, end: int): (r: seq<T>)
    ensures |r| <= |s|
    ensures 0 <= start <= end ==> |r| <= end - start
    ensures r == s[SliceIndex(|s|, start)..SliceEnd(|s|, start, end)]
    ensures 0 <= start <= |s| && start <= end ==> r == s[start..Min(end, |s|)]
  {
    var a := SliceIndex(|s|, start);
    var b := SliceIndex(|s|, end);
    if a < b then s[a..b] else []
  }

  /** `s.substring(a, b)` for non-negative arguments: both are clamped to `|s|`
      and swapped when `a > b`. */
  function Substring(s: string, a: nat, b: nat): (r: string)
    ensures |r| <= |s|
    ensures a <= b <= |s| ==> r == s[a..b]
  {
    var x := if a <= |s| then a else |s|;
    var y := if b <= |s| then b else |s|;
    if x <= y then s[x..y] else s[y..x]
  }

  /** `c.repeat(k)` for a one-character string `c`. */
  function Repeat(c: char, k: nat): (r: string)
    ensures |r| == k
    ensures forall i :: 0 <= i < k ==> r[i] == c
  {
    seq(k, _ => c)
  }

  /** `s.padStart(n, c)` with a one-character pad string. */
  function PadStart(s: string, n: nat, c: char): (r: string)
    ensures |s| >= n ==> r == s
    ensures |s| < n ==> |r| == n
    ensures |r| >= |s| && r[|r| - |s|..] == s
    ensures |s| < n ==> r == Repeat(c, n - |s|) + s
  {
    if |s| >= n then s else Repeat(c, n - |s|) + s
  }

  /** `s.filter(keep)`: the elements `keep` accepts, in their original order. */
  function Filter<T(!new)>(s: seq<T>, keep: T -> bool): (r: seq<T>)
    ensures |r| <= |s|
    ensures forall i :: 0 <= i < |r| ==> keep(r[i])
  {
    if |s| == 0 then []
    else Filter(s[..|s| - 1], keep) + (if keep(s[|s| - 1]) then [s[|s| - 1]] else [])
  }

  /** An element is in the filtered sequence exactly when it is in the
      original one and is kept. */
  lemma {:induction false} FilterMembers<T(!new)>(s: seq<T>, keep: T -> bool, x: T)
    ensures x in Filter(s, keep) <==> x in s && keep(x)
  {
    if |s| > 0 {
      var s' := s[..|s| - 1];
      FilterMembers(s', keep, x);
      assert s == s' + [s[|s| - 1]];
    }
  }

  /** Filtering a longer prefix only appends: the filter of `s[..p]` is a
      prefix of the filter of `s`, and one more element adds itself exactly
      when it is kept. */
  lemma {:induction false} FilterPrefix<T(!new)>(s: seq<T>, keep: T -> bool, p: nat)
    requires p <= |s|
    ensures |Filter(s[..p], keep)| <= |Filter(s, keep)|
    ensures Filter(s[..p], keep) == Filter(s, keep)[..|Filter(s[..p], keep)|]
  {
    if p < |s| {
      var s' := s[..|s| - 1];
      assert s'[..p] == s[..p];
      FilterPrefix(s', keep, p);
      var k := |Filter(s[..p], keep)|;
      assert Filter(s, keep) == Filter(s', keep) + (if keep(s[|s| - 1]) then [s[|s| - 1]] else []);
      assert Filter(s, keep)[..k] == Filter(s', keep)[..k];
    } else {
      assert s[..p] == s;
    }
  }

  lemma FilterStep<T(!new)>(s: seq<T>, keep: T -> bool, p: nat)
    requires p < |s|
    ensures Filter(s[..p + 1], keep) == Filter(s[..p], keep) + (if keep(s[p]) then [s[p]] else [])
  {
    assert s[..p + 1][..p] == s[..p];
  }

  /** `xs.some(p)`: some element satisfies `p`, tried from the front. */
  predicate Any<T>(xs: seq<T>, p: T -> bool) {
    |xs| > 0 && (p(xs[0]) || Any(xs[1..], p))
  }

  /** `some` holds exactly when an element satisfies the test. */
  lemma {:induction false} AnyIff<T>(xs: seq<T>, p: T -> bool)
    ensures Any(xs, p) <==> exists i :: 0 <= i < |xs| && p(xs[i])
  {
    if |xs| > 0 {
      AnyIff(xs[1..], p);
      if !p(xs[0]) && exists i :: 0 <= i < |xs| && p(xs[i]) {
        var i :| 0 <= i < |xs| && p(xs[i]);
        assert xs[1..][i - 1] == xs[i];
      }
    }
  }
}
