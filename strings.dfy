/** Python `str` operations the dashboard relies on, written out with their exact
    left-to-right semantics: `split`, `join`, `replace` (single pass, non-overlapping),
    `strip`, `startswith`, `in`, and ASCII `lower`/`upper`. */
module Strings {

  /** Python `str.isspace` for the characters it accepts. */
  predicate IsWhitespace(c: char) {
    c == ' ' || c == '\t' || c == '\n' || c == '\r' || c == '\U{000B}' || c == '\U{000C}'
    || ('\U{001C}' <= c <= '\U{001F}') || c == '\U{0085}' || c == '\U{00A0}' || c == '\U{1680}'
    || ('\U{2000}' <= c <= '\U{200A}') || c == '\U{2028}' || c == '\U{2029}' || c == '\U{202F}'
    || c == '\U{205F}' || c == '\U{3000}'
  }

  predicate IsDigit(c: char) { '0' <= c <= '9' }

  predicate IsAsciiLetter(c: char) { ('a' <= c <= 'z') || ('A' <= c <= 'Z') }

  predicate IsAlnum(c: char) { IsDigit(c) || IsAsciiLetter(c) }

  function LowerChar(c: char): char {
    if 'A' <= c <= 'Z' then (c as int + 32) as char else c
  }

  /** `lower` is fixed by what it does to each character. */
  lemma LowerPointwise(s: string, t: string)
    requires |s| == |t| && forall i :: 0 <= i < |s| ==> LowerChar(s[i]) == t[i]
    ensures Lower(s) == t
  {
  }

  function UpperChar(c: char): char {
    if 'a' <= c <= 'z' then (c as int - 32) as char else c
  }

  function Lower(s: string): (r: string)
    ensures |r| == |s| && forall i :: 0 <= i < |s| ==> r[i] == LowerChar(s[i])
  {
    if s == [] then [] else [LowerChar(s[0])] + Lower(s[1..])
  }

  /** `s.startswith(p)` */
  predicate StartsWith(s: string, p: string) {
    |p| <= |s| && s[..|p|] == p
  }

  /** `s.endswith(p)` */
  predicate EndsWith(s: string, p: string) {
    |p| <= |s| && s[|s| - |p|..] == p
  }

  /** `w in s` */
  predicate Contains(s: string, w: string)
    decreases |s|
  {
    StartsWith(s, w) || (s != [] && Contains(s[1..], w))
  }

  /** `w` occurs in `s` starting at index `i`. */
  predicate MatchAt(s: string, i: int, w: string) {
    0 <= i && i + |w| <= |s| && s[i..i + |w|] == w
  }

  /** True when every character of `s` is whitespace (also for the empty string). */
  predicate IsBlank(s: string) {
    forall i :: 0 <= i < |s| ==> IsWhitespace(s[i])
  }

  function TrimLeft(s: string): (r: string)
    ensures |r| <= |s| && r == s[|s| - |r|..]
    ensures r == [] || !IsWhitespace(r[0])
  {
    if s != [] && IsWhitespace(s[0]) then TrimLeft(s[1..]) else s
  }

  function TrimRight(s: string): (r: string)
    ensures |r| <= |s| && r == s[..|r|]
    ensures r == [] || !IsWhitespace(r[|r| - 1])
  {
    if s != [] && IsWhitespace(s[|s| - 1]) then TrimRight(s[..|s| - 1]) else s
  }

  /** `s.strip()` */
  function Trim(s: string): string {
    TrimRight(TrimLeft(s))
  }

  /** `s.split(sep)` for a non-empty separator: cut at every occurrence found by a
      left-to-right scan that resumes after each occurrence. */
  function Split(s: string, sep: string): (r: seq<string>)
    requires |sep| > 0
    ensures |r| >= 1
    decreases |s|
  {
    if |s| < |sep| then [s]
    else if s[..|sep|] == sep then [[]] + Split(s[|sep|..], sep)
    else
      var rest := Split(s[1..], sep);
      [[s[0]] + rest[0]] + rest[1..]
  }

  /** `sep.join(parts)` */
  function Join(parts: seq<string>, sep: string): string {
    if |parts| == 0 then []
    else if |parts| == 1 then parts[0]
    else parts[0] + sep + Join(parts[1..], sep)
  }

  /** `s.replace(pat, rep)`: one left-to-right pass, occurrences do not overlap and
      text produced by a replacement is never scanned again. */
  function ReplaceAll(s: string, pat: string, rep: string): string
    requires |pat| > 0
    decreases |s|
  {
    if |s| < |pat| then s
    else if s[..|pat|] == pat then rep + ReplaceAll(s[|pat|..], pat, rep)
    else [s[0]] + ReplaceAll(s[1..], pat, rep)
  }

  /** Decimal digits of a natural number, as `str(n)` writes them. */
  function NatToString(n: nat): (r: string)
    ensures |r| > 0 && forall i :: 0 <= i < |r| ==> IsDigit(r[i])
  {
    if n < 10 then [('0' as int + n) as char]
    else NatToString(n / 10) + [('0' as int + n % 10) as char]
  }

  /** The number a string of decimal digits denotes. */
  function DigitsValue(s: string): nat
    requires forall i :: 0 <= i < |s| ==> IsDigit(s[i])
  {
    if s == [] then 0
    else
      assert IsDigit(s[|s| - 1]);
      DigitsValue(s[..|s| - 1]) * 10 + (s[|s| - 1] as int - '0' as int)
  }

  /** Python's `str(n)` for any integer. */
  function IntToString(n: int): string {
    if n < 0 then "-" + NatToString(-n) else NatToString(n)
  }

  // ---------------------------------------------------------------------------
  // Lemmas
  // ---------------------------------------------------------------------------

  /** Reading the digits back gives the number: `int(str(n)) == n`. */
  lemma {:induction false} NatToStringRoundTrip(n: nat)
    ensures DigitsValue(NatToString(n)) == n
  {
    if n >= 10 {
      var s := NatToString(n);
      assert s[..|s| - 1] == NatToString(n / 10);
      NatToStringRoundTrip(n / 10);
    }
  }

  /** Distinct numbers print differently. */
  lemma NatToStringInjective(m: nat, n: nat)
    requires NatToString(m) == NatToString(n)
    ensures m == n
  {
    NatToStringRoundTrip(m);
    NatToStringRoundTrip(n);
  }

  lemma MatchShift(s: string, k: nat, i: nat, w: string)
    requires k <= |s|
    ensures MatchAt(s[k..], i, w) <==> MatchAt(s, i + k, w)
  {
    if i + k + |w| <= |s| {
      assert s[k..][i..i + |w|] == s[i + k..i + k + |w|];
    }
  }

  /** The recursive `in` agrees with "there is an index where `w` starts". */
  lemma {:induction false} ContainsIffMatch(s: string, w: string)
    ensures Contains(s, w) <==> exists i :: MatchAt(s, i, w)
    decreases |s|
  {
    if StartsWith(s, w) {
      assert MatchAt(s, 0, w);
    }
    forall i | MatchAt(s, i, w) && i == 0 ensures StartsWith(s, w) {
      assert s[..|w|] == s[0..|w|];
    }
    if s != [] {
      ContainsIffMatch(s[1..], w);
      if Contains(s[1..], w) {
        var i :| MatchAt(s[1..], i, w);
        MatchShift(s, 1, i, w);
      }
      forall i | MatchAt(s, i, w) && i > 0 ensures Contains(s[1..], w) {
        MatchShift(s, 1, i - 1, w);
      }
    }
  }

  lemma MatchImpliesContains(s: string, i: int, w: string)
    requires MatchAt(s, i, w)
    ensures Contains(s, w)
  {
    ContainsIffMatch(s, w);
  }

  /** A character of `w` that never appears in `s` keeps `w` out of `s`. */
  lemma NoCharNoContains(s: string, w: string, c: char)
    requires c !in s && c in w
    ensures !Contains(s, w)
  {
    ContainsIffMatch(s, w);
    var j :| 0 <= j < |w| && w[j] == c;
    forall i | 0 <= i && i + |w| <= |s| ensures !MatchAt(s, i, w) {
      assert s[i..i + |w|][j] == s[i + j] != c;
    }
  }

  /** No occurrence of `w` in `a + b` starts inside `a` and ends inside `b`. */
  predicate NoStraddle(a: string, b: string, w: string) {
    forall i :: |a| - |w| < i < |a| ==> !MatchAt(a + b, i, w)
  }

  /** A last character of `a` that `w` does not use rules out every straddle. */
  lemma NoStraddleLast(a: string, b: string, w: string)
    requires a != [] && a[|a| - 1] !in w
    ensures NoStraddle(a, b, w)
  {
    forall i | |a| - |w| < i < |a| ensures !MatchAt(a + b, i, w) {
      if 0 <= i && i + |w| <= |a + b| {
        assert (a + b)[i..i + |w|][|a| - 1 - i] == a[|a| - 1];
        assert a[|a| - 1] != w[|a| - 1 - i];
      }
    }
  }

  /** A first character of `b` that `w` does not use rules out every straddle. */
  lemma NoStraddleFirst(a: string, b: string, w: string)
    requires b != [] && b[0] !in w
    ensures NoStraddle(a, b, w)
  {
    forall i | |a| - |w| < i < |a| ensures !MatchAt(a + b, i, w) {
      if 0 <= i && i + |w| <= |a + b| {
        assert (a + b)[i..i + |w|][|a| - i] == b[0];
        assert b[0] != w[|a| - i];
      }
    }
  }

  lemma NoStraddleSuffix(a: string, b: string, w: string, k: nat)
    requires NoStraddle(a, b, w) && k <= |a|
    ensures NoStraddle(a[k..], b, w)
  {
    assert a[k..] + b == (a + b)[k..];
    forall i | |a[k..]| - |w| < i < |a[k..]| ensures !MatchAt(a[k..] + b, i, w) {
      if i >= 0 {
        MatchShift(a + b, k, i, w);
      }
    }
  }

  /** `w` is absent from a concatenation when it is absent from both halves and
      does not straddle the joint. */
  lemma ContainsConcat(a: string, b: string, w: string)
    requires !Contains(a, w) && !Contains(b, w) && NoStraddle(a, b, w)
    ensures !Contains(a + b, w)
  {
    ContainsIffMatch(a, w);
    ContainsIffMatch(b, w);
    ContainsIffMatch(a + b, w);
    forall i | 0 <= i && i + |w| <= |a + b| ensures !MatchAt(a + b, i, w) {
      if i + |w| <= |a| {
        assert (a + b)[i..i + |w|] == a[i..i + |w|];
        assert !MatchAt(a, i, w);
      } else if i >= |a| {
        assert (a + b)[i..i + |w|] == b[i - |a|..i - |a| + |w|];
        assert !MatchAt(b, i - |a|, w);
      }
    }
  }

  /** `replace` works piecewise across a joint no occurrence straddles. */
  lemma {:induction false} ReplaceAllConcat(a: string, b: string, pat: string, rep: string)
    requires |pat| > 0 && NoStraddle(a, b, pat)
    ensures ReplaceAll(a + b, pat, rep) == ReplaceAll(a, pat, rep) + ReplaceAll(b, pat, rep)
    decreases |a|
  {
    var s := a + b;
    if a == [] {
      assert s == b;
    } else if |a| < |pat| || a[..|pat|] != pat {
      assert |s| < |pat| || s[..|pat|] != pat by {
        if |a| < |pat| && |s| >= |pat| {
          assert !MatchAt(s, 0, pat);
        } else if |a| >= |pat| {
          assert s[..|pat|] == a[..|pat|];
        }
      }
      NoStraddleSuffix(a, b, pat, 1);
      ReplaceAllConcat(a[1..], b, pat, rep);
      assert s[1..] == a[1..] + b;
      ReplaceAllSkip(s, pat, rep);
      if |a| < |pat| {
        assert ReplaceAll(a, pat, rep) == a == [a[0]] + a[1..];
        assert ReplaceAll(a[1..], pat, rep) == a[1..];
      }
    } else {
      assert s[..|pat|] == pat;
      NoStraddleSuffix(a, b, pat, |pat|);
      ReplaceAllConcat(a[|pat|..], b, pat, rep);
      assert s[|pat|..] == a[|pat|..] + b;
    }
  }

  lemma ReplaceAllSkip(s: string, pat: string, rep: string)
    requires |pat| > 0 && s != [] && (|s| < |pat| || s[..|pat|] != pat)
    ensures ReplaceAll(s, pat, rep) == [s[0]] + ReplaceAll(s[1..], pat, rep)
  {
    if |s| < |pat| {
      assert s == [s[0]] + s[1..];
    }
  }

  /** Splitting and re-joining with the same separator gives back the input. */
  lemma {:induction false} JoinSplit(s: string, sep: string)
    requires |sep| > 0
    ensures Join(Split(s, sep), sep) == s
    decreases |s|
  {
    if |s| < |sep| {
    } else if s[..|sep|] == sep {
      JoinSplit(s[|sep|..], sep);
      JoinEmptyFirst(Split(s[|sep|..], sep), sep);
      assert s == s[..|sep|] + s[|sep|..];
    } else {
      JoinSplit(s[1..], sep);
      JoinPrefixFirst([s[0]], Split(s[1..], sep), sep);
      assert s == [s[0]] + s[1..];
    }
  }

  /** An empty first part leaves the separator at the front. */
  lemma JoinEmptyFirst(parts: seq<string>, sep: string)
    requires |parts| > 0
    ensures Join([[]] + parts, sep) == sep + Join(parts, sep)
  {
    assert ([[]] + parts)[1..] == parts;
  }

  /** No part of a split on a one-character separator holds that character. */
  lemma {:induction false} SplitPartsNoChar(s: string, c: char)
    ensures forall k :: 0 <= k < |Split(s, [c])| ==> c !in Split(s, [c])[k]
    decreases |s|
  {
    var sep := [c];
    if |s| >= 1 {
      SplitPartsNoChar(s[1..], c);
      if s[..1] != sep {
        var rest := Split(s[1..], sep);
        assert s[0] != c;
        assert Split(s, sep) == [[s[0]] + rest[0]] + rest[1..];
        forall k | 0 <= k < |Split(s, sep)| ensures c !in Split(s, sep)[k] {
          if k > 0 {
            assert Split(s, sep)[k] == rest[k];
          }
        }
      } else {
        assert s[|sep|..] == s[1..];
      }
    }
  }

  /** A string where the separator never occurs splits into itself alone. */
  lemma {:induction false} SplitWithoutSeparator(s: string, sep: string)
    requires |sep| > 0 && !Contains(s, sep)
    ensures Split(s, sep) == [s]
    decreases |s|
  {
    if |s| >= |sep| {
      assert !StartsWith(s, sep);
      SplitWithoutSeparator(s[1..], sep);
      assert [s[0]] + s[1..] == s;
    }
  }

  /** Splitting `a + sep + b` cuts at the joint when no occurrence straddles it. */
  lemma SplitAtSeparator(s: string, sep: string)
    requires |sep| > 0 && StartsWith(s, sep)
    ensures Split(s, sep) == [[]] + Split(s[|sep|..], sep)
  {
  }

  lemma SplitAtOther(s: string, sep: string)
    requires |sep| > 0 && s != [] && !StartsWith(s, sep)
    ensures Split(s, sep) == [[s[0]] + Split(s[1..], sep)[0]] + Split(s[1..], sep)[1..]
  {
    if |s| < |sep| {
      ShortNoContains(s[1..], sep);
      SplitWithoutSeparator(s[1..], sep);
      assert [s[0]] + s[1..] == s;
    }
  }

  lemma SplitAppendAtSeparator(a: string, b: string, sep: string)
    requires |sep| > 0 && StartsWith(a, sep)
    requires Split(a[|sep|..] + sep + b, sep) == Split(a[|sep|..], sep) + Split(b, sep)
    ensures Split(a + sep + b, sep) == Split(a, sep) + Split(b, sep)
  {
    var s := a + sep + b;
    assert s[..|sep|] == sep;
    assert s[|sep|..] == a[|sep|..] + sep + b;
    SplitAtSeparator(s, sep);
    SplitAtSeparator(a, sep);
  }

  lemma SplitAppendAtOther(a: string, b: string, sep: string)
    requires |sep| > 0 && a != [] && !StartsWith(a, sep) && !StartsWith(a + sep + b, sep)
    requires Split(a[1..] + sep + b, sep) == Split(a[1..], sep) + Split(b, sep)
    ensures Split(a + sep + b, sep) == Split(a, sep) + Split(b, sep)
  {
    var s := a + sep + b;
    assert s[1..] == a[1..] + sep + b;
    assert s[0] == a[0];
    SplitAtOther(s, sep);
    SplitAtOther(a, sep);
    ConsOntoFirst(a[0], Split(a[1..], sep), Split(b, sep));
  }

  /** Gluing a character onto the first part commutes with appending more parts. */
  lemma ConsOntoFirst(c: char, x: seq<string>, y: seq<string>)
    requires x != []
    ensures [[c] + (x + y)[0]] + (x + y)[1..] == ([[c] + x[0]] + x[1..]) + y
  {
    assert (x + y)[0] == x[0] && (x + y)[1..] == x[1..] + y;
  }


  lemma {:induction false} SplitAppend(a: string, b: string, sep: string)
    requires |sep| > 0 && NoStraddle(a, sep + b, sep)
    ensures Split(a + sep + b, sep) == Split(a, sep) + Split(b, sep)
    decreases |a|
  {
    if a == [] {
      var s := a + sep + b;
      assert s == sep + b;
      assert s[..|sep|] == sep && s[|sep|..] == b;
      SplitAtSeparator(s, sep);
    } else if StartsWith(a, sep) {
      NoStraddleSuffix(a, sep + b, sep, |sep|);
      SplitAppend(a[|sep|..], b, sep);
      SplitAppendAtSeparator(a, b, sep);
    } else {
      assert !StartsWith(a + sep + b, sep) by {
        var s := a + sep + b;
        assert s == a + (sep + b);
        if |a| >= |sep| {
          assert s[..|sep|] == a[..|sep|];
        } else {
          assert !MatchAt(a + (sep + b), 0, sep);
        }
      }
      NoStraddleSuffix(a, sep + b, sep, 1);
      SplitAppend(a[1..], b, sep);
      SplitAppendAtOther(a, b, sep);
    }
  }

  /** `a + b + c` starts with `a`, ends with `c` and holds `b` between them. */
  lemma ThreeParts(a: string, b: string, c: string)
    ensures StartsWith(a + b + c, a) && EndsWith(a + b + c, c)
    ensures |a + b + c| == |a| + |b| + |c|
    ensures (a + b + c)[|a|..|a| + |b|] == b
  {
    var r := a + b + c;
    assert r[..|a|] == a;
    assert r[|r| - |c|..] == c;
    assert r[|a|..|a| + |b|] == b;
  }

  lemma ConcatAssoc(a: string, b: string, c: string)
    ensures (a + b) + c == a + (b + c)
  {
  }

  /** A text that starts with `w`, or is empty, keeps that start when extended;
      a non-empty text followed by anything starting with `w` starts with `w`. */
  lemma PrefixOfConcat(a: string, b: string, w: string)
    requires a == [] || StartsWith(a, w)
    requires StartsWith(b, w)
    ensures StartsWith(a + b, w)
  {
    if a == [] {
      assert a + b == b;
    } else {
      assert (a + b)[..|w|] == a[..|w|];
    }
  }

  /** Two separator-free fields joined by the separator split back apart. */
  lemma SplitPair(d: string, u: string, sep: string)
    requires |sep| > 0 && d != [] && d[|d| - 1] !in sep && !Contains(d, sep) && !Contains(u, sep)
    ensures Contains(d + sep + u, sep) && Split(d + sep + u, sep) == [d, u]
  {
    NoStraddleLast(d, sep + u, sep);
    SplitAppend(d, u, sep);
    SplitWithoutSeparator(d, sep);
    SplitWithoutSeparator(u, sep);
    assert (d + sep + u)[|d|..|d| + |sep|] == sep;
    MatchImpliesContains(d + sep + u, |d|, sep);
  }

  /** A one-character separator can never straddle. */
  lemma NoStraddleSingle(a: string, b: string, c: char)
    ensures NoStraddle(a, b, [c])
  {
  }

  /** Every part of a join occurs in the joined string. */
  lemma {:induction false} ContainsPartOfJoin(parts: seq<string>, sep: string, k: nat, w: string)
    requires k < |parts|
    ensures Contains(parts[k], w) ==> Contains(Join(parts, sep), w)
    decreases |parts|
  {
    if |parts| > 1 && Contains(parts[k], w) {
      var j := Join(parts[1..], sep);
      assert Join(parts, sep) == parts[0] + (sep + j);
      ContainsIffMatch(Join(parts, sep), w);
      if k == 0 {
        ContainsIffMatch(parts[0], w);
        var i :| MatchAt(parts[0], i, w);
        assert (parts[0] + (sep + j))[i..i + |w|] == parts[0][i..i + |w|];
        assert MatchAt(Join(parts, sep), i, w);
      } else {
        assert parts[1..][k - 1] == parts[k];
        ContainsPartOfJoin(parts[1..], sep, k - 1, w);
        ContainsIffMatch(j, w);
        var i :| MatchAt(j, i, w);
        var off := |parts[0]| + |sep|;
        assert (parts[0] + sep + j)[off + i..off + i + |w|] == j[i..i + |w|];
        assert MatchAt(Join(parts, sep), off + i, w);
      }
    }
  }

  /** A word absent from a string is absent from each of its split parts. */
  lemma SplitPartsAvoid(s: string, sep: string, w: string)
    requires |sep| > 0 && !Contains(s, w)
    ensures forall k :: 0 <= k < |Split(s, sep)| ==> !Contains(Split(s, sep)[k], w)
  {
    JoinSplit(s, sep);
    forall k | 0 <= k < |Split(s, sep)|
      ensures !Contains(Split(s, sep)[k], w)
    {
      ContainsPartOfJoin(Split(s, sep), sep, k, w);
    }
  }

  /** `replace` is `split` followed by `join` with the replacement text. */
  lemma {:induction false} ReplaceAllIsJoinSplit(s: string, pat: string, rep: string)
    requires |pat| > 0
    ensures ReplaceAll(s, pat, rep) == Join(Split(s, pat), rep)
    decreases |s|
  {
    if |s| < |pat| {
    } else if s[..|pat|] == pat {
      ReplaceAllIsJoinSplit(s[|pat|..], pat, rep);
      var rest := Split(s[|pat|..], pat);
      assert Join([[]] + rest, rep) == [] + rep + Join(rest, rep);
    } else {
      ReplaceAllIsJoinSplit(s[1..], pat, rep);
      var rest := Split(s[1..], pat);
      var r := [[s[0]] + rest[0]] + rest[1..];
      if |rest| == 1 {
        assert Join(r, rep) == [s[0]] + rest[0];
      } else {
        assert r[1..] == rest[1..];
        assert Join(r, rep) == [s[0]] + rest[0] + rep + Join(rest[1..], rep);
      }
    }
  }

  /** Replacing a word that does not occur changes nothing. */
  lemma ReplaceAllAbsent(s: string, pat: string, rep: string)
    requires |pat| > 0 && !Contains(s, pat)
    ensures ReplaceAll(s, pat, rep) == s
  {
    ReplaceAllIsJoinSplit(s, pat, rep);
    SplitWithoutSeparator(s, pat);
  }

  /** Splitting a one-character join of parts free of that character gives the
      parts back. */
  lemma {:induction false} SplitJoinSingle(parts: seq<string>, c: char)
    requires |parts| >= 1 && forall k :: 0 <= k < |parts| ==> c !in parts[k]
    ensures Split(Join(parts, [c]), [c]) == parts
    decreases |parts|
  {
    NoCharNoContains(parts[0], [c], c);
    SplitWithoutSeparator(parts[0], [c]);
    if |parts| > 1 {
      var j := Join(parts[1..], [c]);
      NoStraddleSingle(parts[0], [c] + j, c);
      SplitAppend(parts[0], j, [c]);
      SplitJoinSingle(parts[1..], c);
    }
  }

  /** An occurrence survives appending text on the right. */
  lemma ContainsAppend(a: string, b: string, w: string)
    ensures Contains(a, w) ==> Contains(a + b, w)
  {
    ContainsIffMatch(a, w);
    if i :| MatchAt(a, i, w) {
      assert (a + b)[i..i + |w|] == a[i..i + |w|];
      MatchImpliesContains(a + b, i, w);
    }
  }

  /** An occurrence survives prepending text on the left. */
  lemma ContainsPrepend(a: string, b: string, w: string)
    ensures Contains(b, w) ==> Contains(a + b, w)
  {
    ContainsIffMatch(b, w);
    if i :| MatchAt(b, i, w) {
      assert (a + b)[|a| + i..|a| + i + |w|] == b[i..i + |w|];
      MatchImpliesContains(a + b, |a| + i, w);
    }
  }

  /** Wherever `u + v` occurs, `v` occurs too. */
  lemma ContainsSuffixOfWord(s: string, u: string, v: string)
    ensures Contains(s, u + v) ==> Contains(s, v)
  {
    ContainsIffMatch(s, u + v);
    if i :| MatchAt(s, i, u + v) {
      assert s[i + |u|..i + |u| + |v|] == (u + v)[|u|..];
      MatchImpliesContains(s, i + |u|, v);
    }
  }

  /** Wherever `w` occurs, every prefix of `w` occurs too. */
  lemma ContainsPrefixOfWord(s: string, w: string, v: string)
    requires v <= w
    ensures Contains(s, w) ==> Contains(s, v)
  {
    ContainsIffMatch(s, w);
    if i :| MatchAt(s, i, w) {
      assert s[i..i + |v|] == w[..|v|];
      MatchImpliesContains(s, i, v);
    }
  }

  lemma ShortNoContains(s: string, w: string)
    requires |s| < |w|
    ensures !Contains(s, w)
  {
    ContainsIffMatch(s, w);
  }

  lemma SameLengthNoContains(s: string, w: string)
    requires |s| == |w| && s != w
    ensures !Contains(s, w)
  {
    ContainsIffMatch(s, w);
    assert forall i :: MatchAt(s, i, w) ==> i == 0;
    assert s[0..|w|] == s;
  }

  lemma JoinHead(parts: seq<string>, sep: string)
    requires |parts| > 0 && parts[0] != []
    ensures Join(parts, sep) != [] && Join(parts, sep)[0] == parts[0][0]
  {
  }

  lemma {:induction false} JoinLast(parts: seq<string>, sep: string)
    requires |parts| > 0 && parts[|parts| - 1] != []
    ensures var j := Join(parts, sep); j != [] && j[|j| - 1] == parts[|parts| - 1][|parts[|parts| - 1]| - 1]
    decreases |parts|
  {
    if |parts| > 1 {
      JoinLast(parts[1..], sep);
      assert parts[1..][|parts| - 2] == parts[|parts| - 1];
    }
  }

  /** Prefixing the first part prefixes the joined text. */
  lemma JoinPrefixFirst(x: string, parts: seq<string>, sep: string)
    requires |parts| > 0
    ensures Join([x + parts[0]] + parts[1..], sep) == x + Join(parts, sep)
  {
    var q := [x + parts[0]] + parts[1..];
    assert q[1..] == parts[1..];
    if |parts| > 1 {
      assert x + parts[0] + sep + Join(parts[1..], sep) == x + (parts[0] + sep + Join(parts[1..], sep));
    }
  }

  /** Lines that are non-empty and newline-free, joined by newlines, never produce
      an empty line. */
  lemma {:induction false} JoinLinesNoBlank(parts: seq<string>)
    requires forall k :: 0 <= k < |parts| ==> parts[k] != [] && '\n' !in parts[k]
    ensures !Contains(Join(parts, "\n"), "\n\n")
    decreases |parts|
  {
    if |parts| == 0 {
      ShortNoContains([], "\n\n");
    } else if |parts| == 1 {
      NoCharNoContains(parts[0], "\n\n", '\n');
    } else {
      var p, j := parts[0], Join(parts[1..], "\n");
      JoinLinesNoBlank(parts[1..]);
      JoinHead(parts[1..], "\n");
      assert parts[1..][0] == parts[1];
      assert j[0] != '\n';
      NoCharNoContains(p, "\n\n", '\n');
      ShortNoContains("\n", "\n\n");
      NoStraddleFirst("\n", j, "\n\n");
      ContainsConcat("\n", j, "\n\n");
      NoStraddleLast(p, "\n" + j, "\n\n");
      ContainsConcat(p, "\n" + j, "\n\n");
      assert Join(parts, "\n") == p + ("\n" + j);
    }
  }

  /** The block separator `"\n\n---"` can never straddle a joint in front of itself. */
  lemma BlockSeparatorNoStraddle(a: string, b: string)
    ensures NoStraddle(a, "\n\n---" + b, "\n\n---")
  {
    var sep := "\n\n---";
    var s := a + (sep + b);
    forall i | |a| - |sep| < i < |a| ensures !MatchAt(s, i, sep) {
      if 0 <= i && i + |sep| <= |s| {
        var j := |a| - i;
        assert s[|a|] == '\n' && s[|a| + 1] == '\n';
        if j == 1 {
          assert s[i..i + |sep|][2] == s[|a| + 1];
        } else {
          assert s[i..i + |sep|][j] == s[|a|];
        }
      }
    }
  }

  lemma {:induction false} TrimLeftBlank(s: string)
    requires IsBlank(s)
    ensures TrimLeft(s) == []
    decreases |s|
  {
    if s != [] {
      assert IsBlank(s[1..]) by {
        forall i | 0 <= i < |s[1..]| ensures IsWhitespace(s[1..][i]) { assert s[1..][i] == s[i + 1]; }
      }
      TrimLeftBlank(s[1..]);
    }
  }

  lemma BlankTail(a: string)
    requires a != [] && IsWhitespace(a[0])
    ensures IsBlank(a) <==> IsBlank(a[1..])
  {
    if IsBlank(a[1..]) {
      forall i | 0 <= i < |a| ensures IsWhitespace(a[i]) {
        if i > 0 { assert a[i] == a[1..][i - 1]; }
      }
    }
  }

  /** Left-trimming a concatenation either eats the whole left part or stops in it. */
  lemma {:induction false} TrimLeftAppend(a: string, b: string)
    ensures TrimLeft(a + b) == if IsBlank(a) then TrimLeft(b) else TrimLeft(a) + b
    decreases |a|
  {
    if a == [] {
      assert a + b == b;
    } else if IsWhitespace(a[0]) {
      assert (a + b)[1..] == a[1..] + b;
      TrimLeftAppend(a[1..], b);
      BlankTail(a);
    } else {
      assert !IsWhitespace(a[0]);
    }
  }

  /** A trailing space never changes the result of `strip`. */
  lemma TrimAppendSpace(x: string)
    ensures Trim(x + " ") == Trim(x)
  {
    TrimLeftAppend(x, " ");
    if IsBlank(x) {
      TrimLeftBlank(x);
    } else {
      var l := TrimLeft(x);
      assert (l + " ")[..|l + " "| - 1] == l;
    }
  }

  /** `strip` leaves no whitespace at either end. */
  lemma TrimEnds(s: string)
    ensures Trim(s) == [] || (!IsWhitespace(Trim(s)[0]) && !IsWhitespace(Trim(s)[|Trim(s)| - 1]))
  {
    var l := TrimLeft(s);
    var r := TrimRight(l);
    if r != [] {
      assert r == l[..|r|];
      assert r[0] == l[0];
    }
  }

  /** `strip` only removes characters. */
  lemma TrimIsInfix(s: string)
    ensures forall c :: c in Trim(s) ==> c in s
  {
    var l := TrimLeft(s);
    var r := TrimRight(l);
    forall c | c in r ensures c in s {
      var i :| 0 <= i < |r| && r[i] == c;
      assert r[i] == l[i];
      assert l[i] == s[|s| - |l| + i];
    }
  }

  /** A string with no whitespace at its ends is its own `strip`, and so is it after
      one leading or one trailing space. */
  lemma TrimSpaceAround(y: string)
    requires y == [] || (!IsWhitespace(y[0]) && !IsWhitespace(y[|y| - 1]))
    ensures Trim(y) == y && Trim(" " + y) == y && Trim(y + " ") == y
  {
    assert (" " + y)[1..] == y;
    TrimAppendSpace(y);
  }

  /** One replacement step at the start of the string. */
  lemma ReplaceAllWhole(pat: string)
    requires |pat| > 0
    ensures ReplaceAll(pat, pat, []) == []
  {
    ReplaceAllLeading(pat, [], []);
    assert pat + [] == pat;
  }

  lemma ReplaceAllLeading(pat: string, t: string, rep: string)
    requires |pat| > 0
    ensures ReplaceAll(pat + t, pat, rep) == rep + ReplaceAll(t, pat, rep)
  {
    assert (pat + t)[..|pat|] == pat;
    assert (pat + t)[|pat|..] == t;
  }

  /** Replacing one character by another removes it and keeps the length. */
  lemma {:induction false} ReplaceCharGone(s: string, c: char, d: char)
    requires c != d
    ensures |ReplaceAll(s, [c], [d])| == |s|
    ensures forall i :: 0 <= i < |s| ==> ReplaceAll(s, [c], [d])[i] == (if s[i] == c then d else s[i])
    decreases |s|
  {
    if s != [] {
      ReplaceCharGone(s[1..], c, d);
      var rest := ReplaceAll(s[1..], [c], [d]);
      if s[..1] == [c] {
        assert ReplaceAll(s, [c], [d]) == [d] + rest;
      } else {
        assert ReplaceAll(s, [c], [d]) == [s[0]] + rest;
      }
    }
  }

  /** Python's `<=` on strings: lexicographic by code point. */
  predicate StrLe(a: string, b: string)
    decreases |a|
  {
    a == [] || (b != [] && (a[0] < b[0] || (a[0] == b[0] && StrLe(a[1..], b[1..]))))
  }

  lemma {:induction false} StrLeTotal(a: string, b: string)
    ensures StrLe(a, b) || StrLe(b, a)
    decreases |a|
  {
    if a != [] && b != [] && a[0] == b[0] {
      StrLeTotal(a[1..], b[1..]);
    }
  }

  lemma {:induction false} StrLeTransitive(a: string, b: string, c: string)
    requires StrLe(a, b) && StrLe(b, c)
    ensures StrLe(a, c)
    decreases |a|
  {
    if a != [] && a[0] == b[0] && b[0] == c[0] {
      StrLeTransitive(a[1..], b[1..], c[1..]);
    }
  }

  lemma {:induction false} StrLeAntisymmetric(a: string, b: string)
    requires StrLe(a, b) && StrLe(b, a)
    ensures a == b
    decreases |a|
  {
    if a != [] {
      StrLeAntisymmetric(a[1..], b[1..]);
      assert a == [a[0]] + a[1..] && b == [b[0]] + b[1..];
    }
  }
}
