/**
  The part of JavaScript's String.prototype.trim that the task store relies on:
  `task.trim()` is falsy exactly when it is the empty string.
  Strings are sequences of Unicode code points, not UTF-16 code units; every
  code point trim() strips is a single code unit, so this does not change it.
 */
module JsString {

  /** A WhiteSpace or LineTerminator code point of ECMAScript: what trim() strips. */
  predicate IsTrimmable(c: char) {
    var n := c as int;
    n == 0x09 || n == 0x0A || n == 0x0B || n == 0x0C || n == 0x0D || n == 0x20
    || n == 0xA0 || n == 0x1680 || (0x2000 <= n <= 0x200A)
    || n == 0x2028 || n == 0x2029 || n == 0x202F || n == 0x205F
    || n == 0x3000 || n == 0xFEFF
  }

  /** Every character of `s` is whitespace (vacuously true of ""). */
  predicate IsBlank(s: string) {
    forall i :: 0 <= i < |s| ==> IsTrimmable(s[i])
  }

  /** How many whitespace characters `s` starts with. */
  function LeadingBlankCount(s: string): (n: nat)
    ensures n <= |s| && IsBlank(s[..n])
    ensures n == |s| || !IsTrimmable(s[n])
  {
    if s != [] && IsTrimmable(s[0]) then
      var n := 1 + LeadingBlankCount(s[1..]);
      BlankPrefixCons(s, n);
      n
    else 0
  }

  /** How many whitespace characters `s` ends with. */
  function TrailingBlankCount(s: string): (n: nat)
    ensures n <= |s| && IsBlank(s[|s| - n..])
    ensures n == |s| || !IsTrimmable(s[|s| - n - 1])
  {
    if s != [] && IsTrimmable(s[|s| - 1]) then
      var n := 1 + TrailingBlankCount(s[..|s| - 1]);
      BlankSuffixSnoc(s, n);
      n
    else 0
  }

  /** A whitespace character followed by a blank run is a blank run. */
  lemma BlankPrefixCons(s: string, n: nat)
    requires 1 <= n <= |s| && IsTrimmable(s[0]) && IsBlank(s[1..][..n - 1])
    ensures IsBlank(s[..n])
  {
    var run, rest := s[..n], s[1..][..n - 1];
    forall i | 0 <= i < |run| ensures IsTrimmable(run[i]) {
      if i > 0 {
        assert run[i] == rest[i - 1];
      }
    }
  }

  /** A blank run followed by a whitespace character is a blank run. */
  lemma BlankSuffixSnoc(s: string, n: nat)
    requires 1 <= n <= |s| && IsTrimmable(s[|s| - 1]) && IsBlank(s[..|s| - 1][|s| - n..])
    ensures IsBlank(s[|s| - n..])
  {
    var run, shorter := s[|s| - n..], s[..|s| - 1][|s| - n..];
    forall i | 0 <= i < |run| ensures IsTrimmable(run[i]) {
      if i < n - 1 {
        assert run[i] == shorter[i];
      }
    }
  }

  /** `s` without its leading whitespace. */
  function TrimStart(s: string): (r: string)
    ensures |r| <= |s| && r == s[|s| - |r|..]
    ensures IsBlank(s[..|s| - |r|])
    ensures r == [] || !IsTrimmable(r[0])
  {
    s[LeadingBlankCount(s)..]
  }

  /** `s` without its trailing whitespace. */
  function TrimEnd(s: string): (r: string)
    ensures |r| <= |s| && r == s[..|r|]
    ensures IsBlank(s[|r|..])
    ensures r == [] || !IsTrimmable(r[|r| - 1])
  {
    s[..|s| - TrailingBlankCount(s)]
  }

  /** String.prototype.trim: strips leading and trailing whitespace. */
  function Trim(s: string): (r: string)
    ensures |r| <= |s|
    ensures r == [] || (!IsTrimmable(r[0]) && !IsTrimmable(r[|r| - 1]))
  {
    TrimEnd(TrimStart(s))
  }

  /** trim() keeps one contiguous slice of `s`. */
  lemma TrimDecompose(s: string)
    ensures var k, r := LeadingBlankCount(s), Trim(s);
      && k + |r| <= |s|
      && s == s[..k] + r + s[k + |r|..]
  {
    var k := LeadingBlankCount(s);
    var u := s[k..];
    var r := u[..|u| - TrailingBlankCount(u)];
    assert Trim(s) == r;
    assert r == s[k..k + |r|];
    Split3(s, k, k + |r|);
  }

  /** What trim() drops before and after that slice is whitespace. */
  lemma TrimDropsOnlyBlanks(s: string)
    ensures var k, r := LeadingBlankCount(s), Trim(s);
      && k + |r| <= |s|
      && IsBlank(s[..k]) && IsBlank(s[k + |r|..])
  {
    var k := LeadingBlankCount(s);
    var u := s[k..];
    var m := |u| - TrailingBlankCount(u);
    assert Trim(s) == u[..m];
    assert s[k..][m..] == s[k + m..];
  }

  /** A string is its three consecutive slices. */
  lemma Split3(s: string, i: nat, j: nat)
    requires i <= j <= |s|
    ensures s == s[..i] + s[i..j] + s[j..]
  {
    assert s == s[..i] + s[i..];
    assert s[i..] == s[i..j] + s[j..];
  }

  /** trim() yields "" exactly for the blank strings. */
  lemma TrimEmptyIffBlank(s: string)
    ensures Trim(s) == [] <==> IsBlank(s)
  {
  }
}
