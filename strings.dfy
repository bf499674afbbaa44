/**
 * String helpers with the meaning that Python's `str` methods give them:
 * `strip`/`lstrip`/`rstrip`, `lower` (ASCII letters only), `startswith`,
 * `join`, decimal rendering of integers and right-aligned padding.
 */
module Strings {

  /** The characters for which Python's `str.isspace()` holds; `strip()` with no argument removes these. */
  const WHITESPACE: set<char> := {
    '\t', '\n', '\U{000B}', '\U{000C}', '\r', '\U{001C}', '\U{001D}', '\U{001E}', '\U{001F}', ' ',
    '\U{0085}', '\U{00A0}', '\U{1680}', '\U{2000}', '\U{2001}', '\U{2002}', '\U{2003}', '\U{2004}',
    '\U{2005}', '\U{2006}', '\U{2007}', '\U{2008}', '\U{2009}', '\U{200A}', '\U{2028}', '\U{2029}',
    '\U{202F}', '\U{205F}', '\U{3000}'
  }

  predicate AllIn(s: string, cs: set<char>)
  {
    forall k :: 0 <= k < |s| ==> s[k] in cs
  }

  /** Neither end of `s` is a character of `cs` (vacuously true of ""). */
  predicate Trimmed(s: string, cs: set<char>)
  {
    s == [] || (s[0] !in cs && s[|s| - 1] !in cs)
  }

  /** `s.lstrip(cs)`: drops the longest prefix made only of characters of `cs`. */
  function TrimStart(s: string, cs: set<char>): (r: string)
    ensures |r| <= |s| && r == s[|s| - |r|..]
    ensures AllIn(s[..|s| - |r|], cs)
    ensures r != [] ==> r[0] !in cs
  {
    if s != [] && s[0] in cs then
      var r := TrimStart(s[1..], cs);
      assert s[..|s| - |r|] == [s[0]] + s[1..][..|s| - 1 - |r|];
      r
    else
      s
  }

  /** `s.rstrip(cs)`: drops the longest suffix made only of characters of `cs`. */
  function TrimEnd(s: string, cs: set<char>): (r: string)
    ensures |r| <= |s| && r == s[..|r|]
    ensures AllIn(s[|r|..], cs)
    ensures r != [] ==> r[|r| - 1] !in cs
  {
    if s != [] && s[|s| - 1] in cs then
      var r := TrimEnd(s[..|s| - 1], cs);
      assert s[|r|..] == s[..|s| - 1][|r|..] + [s[|s| - 1]];
      r
    else
      s
  }

  /** `s.strip(cs)`: drops both the longest prefix and the longest suffix made of characters of `cs`. */
  function Strip(s: string, cs: set<char>): (r: string)
    ensures |r| <= |s|
    ensures Trimmed(r, cs)
    ensures r == [] <==> AllIn(s, cs)
  {
    var t := TrimStart(s, cs);
    var r := TrimEnd(t, cs);
    StripFacts(s, cs, t, r);
    r
  }

  lemma StripFacts(s: string, cs: set<char>, t: string, r: string)
    requires t == TrimStart(s, cs) && r == TrimEnd(t, cs)
    ensures Trimmed(r, cs)
    ensures r == [] <==> AllIn(s, cs)
  {
    var n := |s| - |t|;
    assert t == s[n..];
    assert r == t[..|r|];
    if r == [] {
      assert t[|r|..] == t;
      assert AllIn(t, cs);
      assert AllIn(s[..n], cs);
      forall k | 0 <= k < |s| ensures s[k] in cs {
        if k < n {
          assert s[k] == s[..n][k];
        } else {
          assert s[k] == t[k - n];
        }
      }
    } else {
      assert r[0] == t[0] && t[0] == s[n];
    }
  }

  lemma {:induction false} TrimStartOf(x: string, m: string, cs: set<char>)
    requires AllIn(x, cs) && (m == [] || m[0] !in cs)
    ensures TrimStart(x + m, cs) == m
  {
    if x == [] {
      assert x + m == m;
    } else {
      assert (x + m)[1..] == x[1..] + m;
      TrimStartOf(x[1..], m, cs);
    }
  }

  lemma {:induction false} TrimEndOf(m: string, y: string, cs: set<char>)
    requires AllIn(y, cs) && (m == [] || m[|m| - 1] !in cs)
    ensures TrimEnd(m + y, cs) == m
  {
    if y == [] {
      assert m + y == m;
    } else {
      assert (m + y)[..|m + y| - 1] == m + y[..|y| - 1];
      TrimEndOf(m, y[..|y| - 1], cs);
    }
  }

  /** The characterisation of `strip`: framing a trimmed string with characters of `cs` and stripping gives it back. */
  lemma StripOf(x: string, m: string, y: string, cs: set<char>)
    requires AllIn(x, cs) && AllIn(y, cs) && Trimmed(m, cs)
    ensures Strip(x + m + y, cs) == m
  {
    if m == [] {
      assert AllIn(x + m + y, cs) by {
        forall k | 0 <= k < |x + m + y| ensures (x + m + y)[k] in cs {
          if k < |x| { assert (x + m + y)[k] == x[k]; } else { assert (x + m + y)[k] == y[k - |x|]; }
        }
      }
    } else {
      assert x + m + y == x + (m + y);
      TrimStartOf(x, m + y, cs);
      TrimEndOf(m, y, cs);
    }
  }

  /** A string that is already trimmed is its own strip. */
  lemma StripTrimmed(s: string, cs: set<char>)
    requires Trimmed(s, cs)
    ensures Strip(s, cs) == s
  {
    assert [] + s + [] == s;
    StripOf([], s, [], cs);
  }

  predicate StartsWith(s: string, prefix: string)
  {
    |prefix| <= |s| && s[..|prefix|] == prefix
  }

  /** `str.lower()` restricted to ASCII letters. */
  function LowerChar(c: char): char
  {
    if 'A' <= c <= 'Z' then (c as int + 32) as char else c
  }

  function Lower(s: string): (r: string)
    ensures |r| == |s| && forall k :: 0 <= k < |s| ==> r[k] == LowerChar(s[k])
  {
    seq(|s|, k requires 0 <= k < |s| => LowerChar(s[k]))
  }

  /** `lower()` leaves a string without capital letters as it is. */
  lemma LowerFixesNonUpper(s: string)
    requires forall k :: 0 <= k < |s| ==> !('A' <= s[k] <= 'Z')
    ensures Lower(s) == s
  {
    assert forall k :: 0 <= k < |s| ==> Lower(s)[k] == s[k];
  }

  /** `lower()` works character by character from the front. */
  lemma LowerCons(c: char, rest: string)
    ensures Lower([c] + rest) == [LowerChar(c)] + Lower(rest)
  {
    assert ([c] + rest)[1..] == rest;
  }

  /** `sep.join(parts)` */
  function Join(parts: seq<string>, sep: string): string
  {
    if |parts| == 0 then ""
    else if |parts| == 1 then parts[0]
    else Join(parts[..|parts| - 1], sep) + sep + parts[|parts| - 1]
  }

  function Repeat(c: char, n: nat): (r: string)
    ensures |r| == n && forall k :: 0 <= k < n ==> r[k] == c
  {
    if n == 0 then [] else Repeat(c, n - 1) + [c]
  }

  predicate IsDigit(c: char)
  {
    '0' <= c <= '9'
  }

  /** The number a string of decimal digits denotes. */
  function DecimalValue(s: string): nat
    requires forall k :: 0 <= k < |s| ==> IsDigit(s[k])
  {
    if s == [] then 0
    else
      assert IsDigit(s[|s| - 1]);
      DecimalValue(s[..|s| - 1]) * 10 + (s[|s| - 1] as int - '0' as int)
  }

  /** `str(n)` for a natural number: its shortest decimal rendering. */
  function NatToString(n: nat): (r: string)
    ensures r != [] && forall k :: 0 <= k < |r| ==> IsDigit(r[k])
    ensures DecimalValue(r) == n
    ensures r[0] == '0' ==> r == "0"
  {
    if n < 10 then
      [('0' as int + n) as char]
    else
      var high := NatToString(n / 10);
      var r := high + [('0' as int + n % 10) as char];
      assert r[..|r| - 1] == high;
      r
  }

  /** `str(i)` for any integer: a minus sign before the digits of a negative number. */
  function IntToString(i: int): (r: string)
    ensures r != [] && (r[0] == '-' <==> i < 0)
  {
    if i < 0 then "-" + NatToString(-i) else NatToString(i)
  }

  /** `f"{s:>width}"`: pads on the left with `c` up to `width` characters; a longer string is kept whole. */
  function PadLeft(s: string, width: nat, c: char): (r: string)
    ensures |r| == if |s| < width then width else |s|
    ensures r[|r| - |s|..] == s && AllIn(r[..|r| - |s|], {c})
  {
    if |s| < width then Repeat(c, width - |s|) + s else s
  }
}
