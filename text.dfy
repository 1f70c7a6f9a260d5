/**
 * The handful of Python string operations the core relies on, written out:
 * `isspace`, `lower`, `in`, `startswith`, `replace`, `strip`, `split`,
 * `" ".join`, slicing, `str(int)` and `int(str)`.
 */
module Text {
  import opened Wrappers

  // ---------------------------------------------------------------- characters

  /** Python's `str.isspace` for a single character (the full Unicode list). */
  predicate IsSpace(c: char) {
    || c == ' ' || c == '\t' || c == '\n' || c == '\r'
    || c == '\U{000B}' || c == '\U{000C}'
    || ('\U{001C}' <= c <= '\U{001F}')
    || c == '\U{0085}' || c == '\U{00A0}' || c == '\U{1680}'
    || ('\U{2000}' <= c <= '\U{200A}')
    || c == '\U{2028}' || c == '\U{2029}' || c == '\U{202F}' || c == '\U{205F}' || c == '\U{3000}'
  }

  predicate IsDigit(c: char) { '0' <= c <= '9' }

  function DigitOf(c: char): nat
    requires IsDigit(c)
  {
    c as int - '0' as int
  }

  function DigitChar(d: nat): (c: char)
    requires d < 10
    ensures IsDigit(c) && DigitOf(c) == d
  {
    ('0' as int + d) as char
  }

  function LowerChar(c: char): char {
    if 'A' <= c <= 'Z' then (c as int + 32) as char else c
  }

  /** `s.lower()`, restricted to the ASCII letters. */
  function Lower(s: string): (r: string)
    ensures |r| == |s|
    ensures forall i :: 0 <= i < |s| ==> r[i] == LowerChar(s[i])
  {
    seq(|s|, i requires 0 <= i < |s| => LowerChar(s[i]))
  }

  // ------------------------------------------------------ containment, prefixes

  predicate OccursAt(pat: string, s: string, i: int) {
    0 <= i && i + |pat| <= |s| && s[i..i + |pat|] == pat
  }

  /** Python's `pat in s`. */
  predicate Contains(s: string, pat: string) {
    exists i :: 0 <= i <= |s| - |pat| && OccursAt(pat, s, i)
  }

  /** Python's `s.startswith(p)`. */
  predicate StartsWith(s: string, p: string) {
    |p| <= |s| && s[..|p|] == p
  }

  /** Two prefixes that differ in their first character cannot both start `s`. */
  lemma StartsWithClash(s: string, p: string, q: string)
    requires |p| > 0 && |q| > 0 && p[0] != q[0]
    ensures !(StartsWith(s, p) && StartsWith(s, q))
  {
  }

  /** A string containing `pat` contains it after anything is put around it. */
  lemma ContainsInContext(a: string, s: string, b: string, pat: string)
    requires Contains(s, pat)
    ensures Contains(a + s + b, pat)
  {
    var i :| 0 <= i <= |s| - |pat| && OccursAt(pat, s, i);
    assert (a + s + b)[|a| + i..|a| + i + |pat|] == s[i..i + |pat|];
    assert OccursAt(pat, a + s + b, |a| + i);
  }

  // ------------------------------------------------------------------- replace

  /** Python's `s.replace(pat, rep)`: every non-overlapping occurrence, left to right. */
  function ReplaceAll(s: string, pat: string, rep: string): string
    requires |pat| > 0
    decreases |s|
  {
    if |s| == 0 then []
    else if StartsWith(s, pat) then rep + ReplaceAll(s[|pat|..], pat, rep)
    else [s[0]] + ReplaceAll(s[1..], pat, rep)
  }

  /** A string that starts with the pattern starts with the replacement afterwards. */
  lemma ReplaceAllKeepsLeadingReplacement(s: string, pat: string, rep: string)
    requires |pat| > 0 && StartsWith(s, pat)
    ensures StartsWith(ReplaceAll(s, pat, rep), rep)
  {
    var r := ReplaceAll(s[|pat|..], pat, rep);
    assert ReplaceAll(s, pat, rep) == rep + r;
    assert (rep + r)[..|rep|] == rep;
  }

  /** Replacing a pattern that does not occur changes nothing. */
  lemma {:induction false} ReplaceAllAbsent(s: string, pat: string, rep: string)
    requires |pat| > 0 && !Contains(s, pat)
    ensures ReplaceAll(s, pat, rep) == s
    decreases |s|
  {
    if |s| > 0 {
      if StartsWith(s, pat) {
        assert OccursAt(pat, s, 0);
        assert false;
      }
      if Contains(s[1..], pat) {
        var i :| 0 <= i <= |s[1..]| - |pat| && OccursAt(pat, s[1..], i);
        assert s[1..][i..i + |pat|] == s[i + 1..i + 1 + |pat|];
        assert OccursAt(pat, s, i + 1);
        assert false;
      }
      ReplaceAllAbsent(s[1..], pat, rep);
      assert s == [s[0]] + s[1..];
    }
  }

  // --------------------------------------------------------------------- strip

  function StripLeft(s: string): (r: string)
    ensures |r| <= |s| && r == s[|s| - |r|..]
    ensures |r| > 0 ==> !IsSpace(r[0])
    ensures forall i :: 0 <= i < |s| - |r| ==> IsSpace(s[i])
    decreases |s|
  {
    if |s| > 0 && IsSpace(s[0]) then StripLeft(s[1..]) else s
  }

  function StripRight(s: string): (r: string)
    ensures |r| <= |s| && r == s[..|r|]
    ensures |r| > 0 ==> !IsSpace(r[|r| - 1])
    ensures forall i :: |r| <= i < |s| ==> IsSpace(s[i])
    decreases |s|
  {
    if |s| > 0 && IsSpace(s[|s| - 1]) then StripRight(s[..|s| - 1]) else s
  }

  /** Python's `s.strip()`. */
  function Strip(s: string): string {
    StripRight(StripLeft(s))
  }

  /**
   * What `strip` promises: the result has no whitespace at either end and is what
   * remains of the input after whitespace-only runs are cut from both ends.
   */
  lemma StripCharacterized(s: string)
    ensures var r := Strip(s);
      && (|r| > 0 ==> !IsSpace(r[0]) && !IsSpace(r[|r| - 1]))
      && exists a, b :: 0 <= a <= b <= |s| && r == s[a..b]
           && (forall i :: 0 <= i < a ==> IsSpace(s[i]))
           && (forall i :: b <= i < |s| ==> IsSpace(s[i]))
  {
    var l := StripLeft(s);
    var r := StripRight(l);
    var a := |s| - |l|;
    var b := a + |r|;
    assert r == s[a..b];
    if |r| > 0 {
      assert r[0] == l[0];
    }
  }

  /** A string with no whitespace at either end is left alone by `strip`. */
  lemma StripNoop(s: string)
    requires |s| > 0 ==> !IsSpace(s[0]) && !IsSpace(s[|s| - 1])
    ensures Strip(s) == s
  {
  }

  /** Python's `s.strip(c)` for a single character. */
  function StripChar(s: string, c: char): (r: string)
    ensures |r| <= |s|
    decreases |s|
  {
    if |s| > 0 && s[0] == c then StripChar(s[1..], c)
    else if |s| > 0 && s[|s| - 1] == c then StripChar(s[..|s| - 1], c)
    else s
  }

  // --------------------------------------------------------------------- split

  function LeadingSpaces(s: string): (n: nat)
    ensures n <= |s|
    ensures forall i :: 0 <= i < n ==> IsSpace(s[i])
    ensures n < |s| ==> !IsSpace(s[n])
    decreases |s|
  {
    if |s| > 0 && IsSpace(s[0]) then 1 + LeadingSpaces(s[1..]) else 0
  }

  function TokenLength(s: string): (n: nat)
    ensures n <= |s|
    ensures forall i :: 0 <= i < n ==> !IsSpace(s[i])
    ensures n < |s| ==> IsSpace(s[n])
    decreases |s|
  {
    if |s| > 0 && !IsSpace(s[0]) then 1 + TokenLength(s[1..]) else 0
  }

  predicate IsToken(t: string) {
    |t| > 0 && forall i :: 0 <= i < |t| ==> !IsSpace(t[i])
  }

  /** Python's `s.split()`: the maximal runs of non-whitespace characters. */
  function SplitWhitespace(s: string): (r: seq<string>)
    ensures forall k :: 0 <= k < |r| ==> IsToken(r[k])
    decreases |s|
  {
    var t := s[LeadingSpaces(s)..];
    if |t| == 0 then []
    else
      var k := TokenLength(t);
      [t[..k]] + SplitWhitespace(t[k..])
  }

  /** Python's `" ".join(args)`. */
  function JoinSpace(args: seq<string>): string {
    if |args| == 0 then ""
    else if |args| == 1 then args[0]
    else args[0] + " " + JoinSpace(args[1..])
  }

  lemma SplitAfterLeadingSpace(s: string)
    ensures SplitWhitespace(" " + s) == SplitWhitespace(s)
  {
    assert (" " + s)[1..] == s;
    assert LeadingSpaces(" " + s) == 1 + LeadingSpaces(s);
    assert (" " + s)[LeadingSpaces(" " + s)..] == s[LeadingSpaces(s)..];
  }

  lemma SplitLeadingToken(t: string, rest: string)
    requires IsToken(t)
    requires |rest| == 0 || IsSpace(rest[0])
    ensures SplitWhitespace(t + rest) == [t] + SplitWhitespace(rest)
  {
    var s := t + rest;
    assert LeadingSpaces(s) == 0;
    assert s[0..] == s;
    TokenLengthOfToken(t, rest);
    assert s[..|t|] == t;
    assert s[|t|..] == rest;
  }

  lemma {:induction false} TokenLengthOfToken(t: string, rest: string)
    requires IsToken(t)
    requires |rest| == 0 || IsSpace(rest[0])
    ensures TokenLength(t + rest) == |t|
  {
    var s := t + rest;
    forall i | 0 <= i < |t| ensures !IsSpace(s[i]) {
      assert s[i] == t[i];
    }
    assert |t| < |s| ==> s[|t|] == rest[0];
  }

  /**
   * Joining whitespace-free, non-empty words with single spaces and splitting the
   * result on whitespace gives the words back.
   */
  lemma {:induction false} SplitJoinRoundTrip(args: seq<string>)
    requires forall k :: 0 <= k < |args| ==> IsToken(args[k])
    ensures SplitWhitespace(JoinSpace(args)) == args
  {
    if |args| == 0 {
    } else if |args| == 1 {
      SplitLeadingToken(args[0], "");
      assert args[0] + "" == args[0];
      assert SplitWhitespace("") == [];
    } else {
      SplitJoinStep(args);
      SplitJoinRoundTrip(args[1..]);
      assert args == [args[0]] + args[1..];
    }
  }

  /** Splitting a join of two or more words peels off the first word. */
  lemma SplitJoinStep(args: seq<string>)
    requires |args| >= 2 && IsToken(args[0])
    ensures SplitWhitespace(JoinSpace(args)) == [args[0]] + SplitWhitespace(JoinSpace(args[1..]))
  {
    var rest := JoinSpace(args[1..]);
    assert JoinSpace(args) == args[0] + (" " + rest);
    SplitLeadingToken(args[0], " " + rest);
    SplitAfterLeadingSpace(rest);
  }

  /** Python's `s.split(c)` for a single character: every separator counts. */
  function SplitOn(s: string, c: char): (r: seq<string>)
    ensures |r| > 0
    decreases |s|
  {
    if |s| == 0 then [""]
    else
      var tail := SplitOn(s[1..], c);
      if s[0] == c then [""] + tail
      else [[s[0]] + tail[0]] + tail[1..]
  }

  /** No part of a split holds the separator. */
  lemma {:induction false} SplitOnPartsFree(s: string, c: char)
    ensures forall k :: 0 <= k < |SplitOn(s, c)| ==> c !in SplitOn(s, c)[k]
    decreases |s|
  {
    if |s| > 0 {
      SplitOnPartsFree(s[1..], c);
      var tail := SplitOn(s[1..], c);
      if s[0] != c {
        assert c !in [s[0]] + tail[0];
      }
    }
  }

  /** A string without the separator splits into itself alone. */
  lemma {:induction false} SplitOnAbsent(s: string, c: char)
    requires c !in s
    ensures SplitOn(s, c) == [s]
    decreases |s|
  {
    if |s| > 0 {
      SplitOnAbsent(s[1..], c);
      assert [s[0]] + s[1..] == s;
    }
  }

  /** Splitting at a separator splits the two sides independently. */
  lemma {:induction false} SplitOnAppend(a: string, c: char, b: string)
    ensures SplitOn(a + [c] + b, c) == SplitOn(a, c) + SplitOn(b, c)
    decreases |a|
  {
    if |a| == 0 {
      assert a + [c] + b == [c] + b;
      SplitOnCons(c, b, c);
    } else {
      SplitOnAppend(a[1..], c, b);
      SplitOnAppendStep(a, c, b);
    }
  }

  /** The step of `SplitOnAppend`: from the split after the first character to the whole. */
  lemma SplitOnAppendStep(a: string, c: char, b: string)
    requires |a| > 0
    requires SplitOn(a[1..] + [c] + b, c) == SplitOn(a[1..], c) + SplitOn(b, c)
    ensures SplitOn(a + [c] + b, c) == SplitOn(a, c) + SplitOn(b, c)
  {
    var s := a + [c] + b;
    assert s[0] == a[0];
    assert s[1..] == a[1..] + [c] + b;
    ConsJoin(a[0], c, SplitOn(a[1..], c), SplitOn(b, c));
  }

  /** Prepending one character to the split of `x + y` distributes over the two parts. */
  lemma ConsJoin(h: char, c: char, x: seq<string>, y: seq<string>)
    requires |x| > 0
    ensures (if h == c then [""] + (x + y) else [[h] + (x + y)[0]] + (x + y)[1..])
         == (if h == c then [""] + x else [[h] + x[0]] + x[1..]) + y
  {
    if h != c {
      assert (x + y)[1..] == x[1..] + y;
    }
  }

  /** One unfolding of `SplitOn` at a first character `h`. */
  lemma SplitOnCons(h: char, t: string, c: char)
    ensures var tail := SplitOn(t, c);
      SplitOn([h] + t, c) == if h == c then [""] + tail else [[h] + tail[0]] + tail[1..]
  {
    assert ([h] + t)[1..] == t;
  }

  // ------------------------------------------------------------------- slicing

  /** Python's `s[:n]`, including a negative `n` (which counts from the end). */
  function SliceTo<T>(s: seq<T>, n: int): (r: seq<T>)
    ensures |r| <= |s|
    ensures n >= 0 ==> |r| == if n < |s| then n else |s|
    ensures r == s[..|r|]
  {
    if n >= 0 then (if n < |s| then s[..n] else s)
    else if |s| + n > 0 then s[..|s| + n]
    else []
  }

  // ------------------------------------------------------------ int <-> string

  /** Python's `str(n)` for a natural number. */
  function NatToString(n: nat): (r: string)
    ensures |r| > 0
    ensures forall i :: 0 <= i < |r| ==> IsDigit(r[i])
  {
    if n < 10 then [DigitChar(n)] else NatToString(n / 10) + [DigitChar(n % 10)]
  }

  /** Python's `str(i)`. */
  function IntToString(i: int): (r: string)
    ensures |r| > 0
  {
    if i < 0 then "-" + NatToString(-i) else NatToString(i)
  }

  /** The value of a run of digits, with underscores between them skipped. */
  function DigitsValue(d: string): nat
    requires forall i :: 0 <= i < |d| ==> IsDigit(d[i]) || d[i] == '_'
  {
    if |d| == 0 then 0
    else if d[|d| - 1] == '_' then DigitsValue(d[..|d| - 1])
    else 10 * DigitsValue(d[..|d| - 1]) + DigitOf(d[|d| - 1])
  }

  /** What `int()` accepts after an optional sign: digits, single underscores between them. */
  predicate IsDigitText(d: string) {
    && |d| > 0 && IsDigit(d[0]) && IsDigit(d[|d| - 1])
    && (forall i :: 0 <= i < |d| ==> IsDigit(d[i]) || d[i] == '_')
    && (forall i :: 0 <= i < |d| - 1 ==> d[i] == '_' ==> d[i + 1] != '_')
  }

  /** Python's `int(s)` in base 10 (ASCII digits): `None` where Python raises ValueError. */
  function ParseInt(s: string): Option<int> {
    var t := Strip(s);
    if |t| > 0 && (t[0] == '-' || t[0] == '+') then
      var d := t[1..];
      var v: int := if IsDigitText(d) then DigitsValue(d) else 0;
      if IsDigitText(d) then Some(if t[0] == '-' then -v else v) else None
    else if IsDigitText(t) then Some(DigitsValue(t))
    else None
  }

  lemma {:induction false} DigitsValueOfNat(n: nat)
    ensures DigitsValue(NatToString(n)) == n
  {
    var s := NatToString(n);
    if n >= 10 {
      DigitsValueOfNat(n / 10);
      assert s[..|s| - 1] == NatToString(n / 10);
    }
  }

  lemma DigitIsNotSpace(c: char)
    requires IsDigit(c)
    ensures !IsSpace(c)
  {
  }

  lemma NatToStringIsDigitText(n: nat)
    ensures IsDigitText(NatToString(n))
  {
  }

  lemma ParseIntOfDigitText(d: string)
    requires IsDigitText(d)
    ensures ParseInt(d) == Some(DigitsValue(d))
  {
    DigitIsNotSpace(d[0]);
    DigitIsNotSpace(d[|d| - 1]);
    StripNoop(d);
    assert Strip(d) == d;
  }

  lemma ParseIntOfNegative(d: string)
    requires IsDigitText(d)
    ensures ParseInt("-" + d) == Some(0 - DigitsValue(d) as int)
  {
    var s := "-" + d;
    DigitIsNotSpace(d[|d| - 1]);
    assert s[|s| - 1] == d[|d| - 1];
    StripNoop(s);
    assert Strip(s) == s;
    assert s[1..] == d;
  }

  /** Like `int()`, underscores between digits are accepted and skipped: "1_000" reads as 1000. */
  lemma UnderscoreDigits()
    ensures ParseInt("1_000") == Some(1000)
  {
    UnderscoreText();
    UnderscoreValue();
    ParseIntOfDigitText("1_000");
  }

  lemma UnderscoreText()
    ensures IsDigitText("1_000")
  {
  }

  lemma UnderscoreValue()
    ensures DigitsValue("1_000") == 1000
  {
    var d := "1_000";
    assert d[..4] == "1_00" && d[..4][..3] == "1_0" && d[..4][..3][..2] == "1_";
    assert DigitsValue("1_") == 1 by { assert "1_"[..1] == "1"; }
  }

  /** `int(str(i)) == i`: reading back a printed integer gives the integer. */
  lemma ParseIntRoundTrip(i: int)
    ensures ParseInt(IntToString(i)) == Some(i)
  {
    var n: nat := if i < 0 then -i else i;
    DigitsValueOfNat(n);
    NatToStringIsDigitText(n);
    if i < 0 {
      ParseIntOfNegative(NatToString(n));
    } else {
      ParseIntOfDigitText(NatToString(n));
    }
  }

  /** Distinct integers print differently. */
  lemma IntToStringInjective(i: int, j: int)
    requires IntToString(i) == IntToString(j)
    ensures i == j
  {
    ParseIntRoundTrip(i);
    ParseIntRoundTrip(j);
  }

  lemma NatToStringInjective(i: nat, j: nat)
    requires NatToString(i) == NatToString(j)
    ensures i == j
  {
    assert IntToString(i) == NatToString(i);
    assert IntToString(j) == NatToString(j);
    IntToStringInjective(i, j);
  }
}
