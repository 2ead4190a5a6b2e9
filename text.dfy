/**
 * The few pieces of JavaScript's string library that the modelled code relies on:
 * `String.prototype.trim`, `Array.prototype.join` over strings, `String.prototype.substring(0, n)`
 * and the decimal rendering of a non-negative integer inside a template literal.
 */
module Text {

  /** The characters `String.prototype.trim` removes: ECMAScript WhiteSpace (including every
      Unicode "Zs" space separator) and LineTerminator. */
  predicate IsSpace(c: char)
  {
    c == '\t' || c == '\n' || c == '\U{000B}' || c == '\U{000C}' || c == '\r' || c == ' ' ||
    c == '\U{00A0}' || c == '\U{1680}' || ('\U{2000}' <= c <= '\U{200A}') ||
    c == '\U{2028}' || c == '\U{2029}' || c == '\U{202F}' || c == '\U{205F}' ||
    c == '\U{3000}' || c == '\U{FEFF}'
  }

  /** Every character of s before position i is a space. */
  predicate SpacesBefore(s: string, i: nat)
    requires i <= |s|
  {
    forall k :: 0 <= k < i ==> IsSpace(s[k])
  }

  /** Every character of s from position j on is a space. */
  predicate SpacesFrom(s: string, j: nat)
    requires j <= |s|
  {
    forall k :: j <= k < |s| ==> IsSpace(s[k])
  }

  /** Neither the first nor the last character is a space (vacuous for ""). */
  predicate NoEdgeSpace(s: string)
  {
    s == [] || (!IsSpace(s[0]) && !IsSpace(s[|s| - 1]))
  }

  /** Position of the first non-space character, or |s| when there is none. */
  function LeadingSpaceEnd(s: string): (k: nat)
    ensures k <= |s|
    ensures SpacesBefore(s, k)
    ensures k < |s| ==> !IsSpace(s[k])
  {
    if |s| > 0 && IsSpace(s[0]) then 1 + LeadingSpaceEnd(s[1..]) else 0
  }

  /** Position just after the last non-space character, or 0 when there is none. */
  function TrailingSpaceStart(s: string): (j: nat)
    ensures j <= |s|
    ensures SpacesFrom(s, j)
    ensures j > 0 ==> !IsSpace(s[j - 1])
  {
    if |s| > 0 && IsSpace(s[|s| - 1]) then TrailingSpaceStart(s[..|s| - 1]) else |s|
  }

  /** `String.prototype.trim`: drop leading and trailing spaces. */
  function Trim(s: string): (r: string)
    ensures |r| <= |s|
    ensures NoEdgeSpace(r)
  {
    var i := LeadingSpaceEnd(s);
    var j := TrailingSpaceStart(s);
    if j <= i then "" else s[i..j]
  }

  /** r is s with a run of spaces removed from each end and no space left at either end. */
  ghost predicate IsTrimOf(r: string, s: string)
  {
    NoEdgeSpace(r) &&
    exists i, j :: 0 <= i <= j <= |s| && r == s[i..j] && SpacesBefore(s, i) && SpacesFrom(s, j)
  }

  /** Trim meets its description. */
  lemma TrimIsTrimOf(s: string)
    ensures IsTrimOf(Trim(s), s)
  {
    var i := LeadingSpaceEnd(s);
    var j := TrailingSpaceStart(s);
    if j <= i {
      assert SpacesBefore(s, |s|);
      assert Trim(s) == s[|s|..|s|];
    } else {
      assert Trim(s) == s[i..j];
    }
  }

  /** Trim is the only string that meets the description. */
  lemma TrimUnique(s: string, r: string, a: nat, b: nat)
    requires a <= b <= |s| && r == s[a..b] && SpacesBefore(s, a) && SpacesFrom(s, b)
    requires NoEdgeSpace(r)
    ensures r == Trim(s)
  {
    var i := LeadingSpaceEnd(s);
    var j := TrailingSpaceStart(s);
    if r == [] {
      assert SpacesBefore(s, |s|) by {
        forall k | 0 <= k < |s| ensures IsSpace(s[k]) {
          if k >= a { assert k >= b; }
        }
      }
      assert i == |s|;
    } else {
      assert !IsSpace(s[a]) && !IsSpace(s[b - 1]) by {
        assert r[0] == s[a] && r[|r| - 1] == s[b - 1];
      }
      assert i == a;
      assert j == b;
    }
  }

  /** Spaces around a string with no space at either end are exactly what Trim removes. */
  lemma TrimOfPadded(pre: string, core: string, post: string)
    requires forall k :: 0 <= k < |pre| ==> IsSpace(pre[k])
    requires forall k :: 0 <= k < |post| ==> IsSpace(post[k])
    requires NoEdgeSpace(core)
    ensures Trim(pre + core + post) == core
  {
    var s := pre + core + post;
    var i, j := |pre|, |pre| + |core|;
    assert s[i..j] == core;
    assert SpacesBefore(s, i) by {
      forall k | 0 <= k < i ensures IsSpace(s[k]) { assert s[k] == pre[k]; }
    }
    assert SpacesFrom(s, j) by {
      forall k | j <= k < |s| ensures IsSpace(s[k]) { assert s[k] == post[k - j]; }
    }
    TrimUnique(s, core, i, j);
  }

  /** `Array.prototype.join(sep)` on an array of strings. */
  function Join(sep: string, xs: seq<string>): string
  {
    if |xs| == 0 then "" else if |xs| == 1 then xs[0] else xs[0] + sep + Join(sep, xs[1..])
  }

  lemma JoinPair(sep: string, a: string, b: string)
    ensures Join(sep, [a, b]) == a + sep + b
  {
    assert [a, b][1..] == [b];
  }

  /** Joining agrees with the left-to-right accumulation `R := R + sep + next` of ECMA-262
      Array.prototype.join. */
  lemma {:induction false} JoinAppend(sep: string, xs: seq<string>, x: string)
    requires |xs| > 0
    ensures Join(sep, xs + [x]) == Join(sep, xs) + sep + x
  {
    if |xs| == 1 {
      assert xs + [x] == [xs[0], x];
    } else {
      assert (xs + [x])[1..] == xs[1..] + [x];
      JoinAppend(sep, xs[1..], x);
    }
  }

  /** Joining a concatenation is joining each part and putting one separator between them. */
  lemma {:induction false} JoinConcat(sep: string, xs: seq<string>, ys: seq<string>)
    requires |xs| > 0 && |ys| > 0
    ensures Join(sep, xs + ys) == Join(sep, xs) + sep + Join(sep, ys)
  {
    if |xs| == 1 {
      assert (xs + ys)[1..] == ys;
    } else {
      assert (xs + ys)[1..] == xs[1..] + ys;
      JoinConcat(sep, xs[1..], ys);
    }
  }

  /** part occurs in s. */
  ghost predicate Contains(s: string, part: string)
  {
    exists pre, post :: s == pre + part + post
  }

  /** Text around a string keeps every part of it. */
  lemma ContainsWithin(a: string, s: string, b: string, part: string)
    requires Contains(s, part)
    ensures Contains(a + s + b, part)
  {
    var pre, post :| s == pre + part + post;
    assert a + s + b == (a + pre) + part + (post + b);
  }

  /** Every element occurs in the joined text. */
  lemma {:induction false} JoinContains(sep: string, xs: seq<string>, k: nat)
    requires k < |xs|
    ensures Contains(Join(sep, xs), xs[k])
  {
    if |xs| == 1 {
      assert Join(sep, xs) == "" + xs[0] + "";
    } else if k == 0 {
      assert Join(sep, xs) == "" + xs[0] + (sep + Join(sep, xs[1..]));
    } else {
      JoinContains(sep, xs[1..], k - 1);
      var pre, post :| Join(sep, xs[1..]) == pre + xs[1..][k - 1] + post;
      assert Join(sep, xs) == (xs[0] + sep + pre) + xs[k] + post;
    }
  }

  /** `s.substring(0, n)` for non-negative n, counted in characters. */
  function Prefix(s: string, n: nat): (r: string)
    ensures |r| == if |s| < n then |s| else n
    ensures r <= s
  {
    if |s| <= n then s else s[..n]
  }

  predicate IsDigit(c: char)
  {
    '0' <= c <= '9'
  }

  predicate AllDigits(s: string)
  {
    forall k :: 0 <= k < |s| ==> IsDigit(s[k])
  }

  function DigitChar(d: nat): (c: char)
    requires d < 10
    ensures IsDigit(c)
  {
    (48 + d) as char
  }

  /** The decimal text of n, as a template literal `${n}` renders a non-negative integer. */
  function NatToString(n: nat): (s: string)
    ensures |s| > 0 && AllDigits(s)
    ensures (s[0] == '0') == (n == 0)
    ensures n == 0 ==> s == "0"
  {
    if n < 10 then [DigitChar(n)] else NatToString(n / 10) + [DigitChar(n % 10)]
  }

  /** The value of a string of decimal digits. */
  function ParseNat(s: string): nat
    requires AllDigits(s)
  {
    if |s| == 0 then 0 else 10 * ParseNat(s[..|s| - 1]) + (s[|s| - 1] as int - 48)
  }

  lemma {:induction false} ParseNatToString(n: nat)
    ensures ParseNat(NatToString(n)) == n
  {
    if n >= 10 {
      var s := NatToString(n);
      assert s[..|s| - 1] == NatToString(n / 10);
      ParseNatToString(n / 10);
    }
  }

  /** The longest prefix of s made of digits. */
  function LeadingDigits(s: string): (d: string)
    ensures d <= s && AllDigits(d)
    ensures |d| < |s| ==> !IsDigit(s[|d|])
  {
    if |s| > 0 && IsDigit(s[0]) then [s[0]] + LeadingDigits(s[1..]) else ""
  }

  lemma {:induction false} LeadingDigitsOfConcat(d: string, rest: string)
    requires AllDigits(d)
    requires |rest| > 0 && !IsDigit(rest[0])
    ensures LeadingDigits(d + rest) == d
  {
    if |d| > 0 {
      assert (d + rest)[1..] == d[1..] + rest;
      LeadingDigitsOfConcat(d[1..], rest);
    } else {
      assert d + rest == rest;
    }
  }
}
