/**
 * The string operations the scripts rely on. A `char` is a Unicode scalar
 * value, so a character outside the Basic Multilingual Plane is one `char`.
 */
module Strings {

  /** The characters that the regular-expression class `\s` and `String.prototype.trim` treat as white space. */
  predicate IsWhitespace(c: char)
  {
    c == ' ' || c == '\t' || c == '\n' || c == '\r' || c == '\U{B}' || c == '\U{C}'
    || c == '\U{A0}' || c == '\U{1680}' || ('\U{2000}' <= c <= '\U{200A}')
    || c == '\U{2028}' || c == '\U{2029}' || c == '\U{202F}' || c == '\U{205F}'
    || c == '\U{3000}' || c == '\U{FEFF}'
  }

  predicate AllWhitespace(s: string)
  {
    forall i :: 0 <= i < |s| ==> IsWhitespace(s[i])
  }

  /** `s` with its leading white space removed. */
  function TrimStart(s: string): (r: string)
    ensures |r| <= |s| && r == s[|s| - |r|..]
    ensures r == [] || !IsWhitespace(r[0])
    ensures AllWhitespace(s[..|s| - |r|])
  {
    if |s| > 0 && IsWhitespace(s[0]) then
      var r := TrimStart(s[1..]);
      assert s[..|s| - |r|] == [s[0]] + s[1..][..|s| - 1 - |r|];
      r
    else s
  }

  /** `s` with its trailing white space removed. */
  function TrimEnd(s: string): (r: string)
    ensures |r| <= |s| && r == s[..|r|]
    ensures r == [] || !IsWhitespace(r[|r| - 1])
    ensures AllWhitespace(s[|r|..])
  {
    if |s| > 0 && IsWhitespace(s[|s| - 1]) then
      var r := TrimEnd(s[..|s| - 1]);
      assert s[|r|..] == s[..|s| - 1][|r|..] + [s[|s| - 1]];
      r
    else s
  }

  /** `String.prototype.trim`. */
  function Trim(s: string): (r: string)
    ensures r == [] <==> AllWhitespace(s)
    ensures r == [] || (!IsWhitespace(r[0]) && !IsWhitespace(r[|r| - 1]))
    ensures |r| <= |s|
    ensures IsTrimmedSlice(s, r)
  {
    TrimEndOfTrimStart(s);
    TrimIsSlice(s);
    TrimEnd(TrimStart(s))
  }

  /** `r` is a slice of `s` with only white space before and after it. */
  predicate IsTrimmedSlice(s: string, r: string)
  {
    exists a, b :: 0 <= a <= b <= |s| && r == s[a..b] && AllWhitespace(s[..a]) && AllWhitespace(s[b..])
  }

  /** Trimming keeps a slice of `s` and drops only white space before and after it. */
  lemma TrimIsSlice(s: string)
    ensures IsTrimmedSlice(s, TrimEnd(TrimStart(s)))
  {
    var t := TrimStart(s);
    var r := TrimEnd(t);
    assert |t| <= |s| && t == s[|s| - |t|..] && AllWhitespace(s[..|s| - |t|]);
    assert |r| <= |t| && r == t[..|r|] && AllWhitespace(t[|r|..]);
    SliceBetweenWhitespace(s, t, r);
  }

  /** A prefix `r` of a suffix `t` of `s`, both cut off at white space, is a slice of `s` between white space. */
  lemma SliceBetweenWhitespace(s: string, t: string, r: string)
    requires |t| <= |s| && t == s[|s| - |t|..] && AllWhitespace(s[..|s| - |t|])
    requires |r| <= |t| && r == t[..|r|] && AllWhitespace(t[|r|..])
    ensures IsTrimmedSlice(s, r)
  {
    var a := |s| - |t|;
    var b := a + |r|;
    assert r == s[a..b] by {
      assert t[..|r|] == s[a..b];
    }
    assert s[b..] == t[|r|..];
    assert 0 <= a <= b <= |s| && r == s[a..b] && AllWhitespace(s[..a]) && AllWhitespace(s[b..]);
  }

  lemma TrimEndOfTrimStart(s: string)
    ensures TrimEnd(TrimStart(s)) == [] <==> AllWhitespace(s)
  {
    var t := TrimStart(s);
    if TrimEnd(t) == [] {
      TrimEndEmpty(t);
      TrimStartRest(s);
    } else if t != [] {
      assert s[|s| - |t|] == t[0];
    }
  }

  lemma TrimEndEmpty(t: string)
    requires TrimEnd(t) == []
    ensures AllWhitespace(t)
  {
    assert t[0..] == t;
  }

  /** TrimStart leaves either nothing or a non-white-space character first. */
  lemma TrimStartRest(s: string)
    requires AllWhitespace(TrimStart(s))
    ensures AllWhitespace(s)
  {
    var t := TrimStart(s);
    assert t == [];
    forall i | 0 <= i < |s|
      ensures IsWhitespace(s[i])
    {
      assert s[..|s|][i] == s[i];
    }
  }

  /** The ASCII lower-case letter for an ASCII upper-case one; any other character unchanged. */
  function LowerChar(c: char): char
  {
    if 'A' <= c <= 'Z' then (c as int + 32) as char else c
  }

  /** `String.prototype.toLowerCase`, restricted to the ASCII letters. */
  function ToLower(s: string): (r: string)
    ensures |r| == |s|
    ensures forall i :: 0 <= i < |s| ==> r[i] == LowerChar(s[i])
  {
    seq(|s|, i requires 0 <= i < |s| => LowerChar(s[i]))
  }

  /** A string without upper-case ASCII letters is its own lower-case form. */
  lemma ToLowerNoUpper(s: string)
    requires forall i :: 0 <= i < |s| ==> !('A' <= s[i] <= 'Z')
    ensures ToLower(s) == s
  {
  }

  lemma ToLowerIdempotent(s: string)
    ensures ToLower(ToLower(s)) == ToLower(s)
  {
    assert forall i :: 0 <= i < |s| ==> ToLower(ToLower(s))[i] == ToLower(s)[i];
  }

  /** `pat` occurs in `s` starting at position `i`. */
  predicate MatchesAt(s: string, pat: string, i: int)
  {
    0 <= i && i + |pat| <= |s| && s[i..i + |pat|] == pat
  }

  /** The first position at or after `from` where `pat` occurs in `s`, or -1 when there is none. */
  function IndexFrom(s: string, pat: string, from: nat): (r: int)
    requires from <= |s|
    ensures r == -1 || from <= r
    ensures r >= 0 ==> MatchesAt(s, pat, r) && forall j :: from <= j < r ==> !MatchesAt(s, pat, j)
    ensures r == -1 ==> forall j :: from <= j ==> !MatchesAt(s, pat, j)
    decreases |s| - from
  {
    if from + |pat| > |s| then -1
    else if s[from..from + |pat|] == pat then from
    else IndexFrom(s, pat, from + 1)
  }

  /** `String.prototype.indexOf`. */
  function IndexOf(s: string, pat: string): (r: int)
    ensures r == -1 || MatchesAt(s, pat, r)
    ensures r == -1 <==> forall j :: !MatchesAt(s, pat, j)
    ensures r >= 0 ==> forall j :: 0 <= j < r ==> !MatchesAt(s, pat, j)
  {
    var r := IndexFrom(s, pat, 0);
    assert forall j :: MatchesAt(s, pat, j) ==> 0 <= j;
    r
  }

  /** `String.prototype.includes`, and the attribute selector `[attr*="pat"]`. */
  predicate Contains(s: string, pat: string)
  {
    IndexOf(s, pat) >= 0
  }

  /** `String.prototype.startsWith`, and the attribute selector `[attr^="pat"]`. */
  predicate StartsWith(s: string, pat: string)
  {
    |pat| <= |s| && s[..|pat|] == pat
  }

  lemma StartsWithContains(s: string, pat: string)
    requires StartsWith(s, pat)
    ensures Contains(s, pat) && IndexOf(s, pat) == 0
  {
    assert MatchesAt(s, pat, 0);
  }

  /** A pattern holding a character outside the characters of `s` does not occur in `s`. */
  lemma AbsentCharNotContained(s: string, chars: set<char>, pat: string, j: nat)
    requires forall i :: 0 <= i < |s| ==> s[i] in chars
    requires j < |pat| && pat[j] !in chars
    ensures !Contains(s, pat)
  {
    assert pat[j] !in s;
  }

  /** Some keyword of `keywords` occurs in `s`. */
  predicate ContainsAny(s: string, keywords: seq<string>)
  {
    exists k | 0 <= k < |keywords| :: Contains(s, keywords[k])
  }

  /** `s.replace(pat, '')` with a string pattern: removes the first occurrence of `pat`, if any. */
  function RemoveFirst(s: string, pat: string): (r: string)
    ensures !Contains(s, pat) ==> r == s
    ensures Contains(s, pat) ==> |r| == |s| - |pat|
    ensures Contains(s, pat) ==>
      var i := IndexOf(s, pat); s == r[..i] + pat + r[i..]
  {
    var i := IndexOf(s, pat);
    if i < 0 then s
    else
      var r := s[..i] + s[i + |pat|..];
      assert r[..i] == s[..i] && r[i..] == s[i + |pat|..];
      assert s == s[..i] + s[i..i + |pat|] + s[i + |pat|..];
      r
  }

  /** Removing a prefix that a string starts with leaves the rest of it. */
  lemma RemoveFirstPrefix(pat: string, rest: string)
    ensures RemoveFirst(pat + rest, pat) == rest
  {
    var s := pat + rest;
    assert s[..|pat|] == pat;
    StartsWithContains(s, pat);
    assert s[|pat|..] == rest;
  }
}
