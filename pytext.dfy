/**
 * The Python built-ins on strings and integers that bach.py leans on:
 * substring tests, str.replace, str.isalpha, str(int), int(str) and list.index.
 */
module PyText {
  import opened Results

  /** `pat in s`: some slice of `s` equals `pat` (the empty pattern is in every string). */
  predicate Contains(s: string, pat: string)
    decreases |s|
  {
    |pat| <= |s| && (s[..|pat|] == pat || Contains(s[1..], pat))
  }

  /**
   * `s.replace(pat, rep)` for a non-empty pattern: occurrences are found from
   * the left and replaced without overlapping.
   */
  function Replace(s: string, pat: string, rep: string): (r: string)
    requires |pat| > 0
    ensures !Contains(s, pat) ==> r == s
    ensures |pat| == |rep| ==> |r| == |s|
    decreases |s|
  {
    if |s| < |pat| then s
    else if s[..|pat|] == pat then rep + Replace(s[|pat|..], pat, rep)
    else [s[0]] + Replace(s[1..], pat, rep)
  }

  /** Unfolds a two-character substring test over a string built by prepending one character. */
  lemma ContainsCons(c: char, t: string, x: string)
    requires |x| == 2
    ensures Contains([c] + t, x) <==> (|t| >= 1 && c == x[0] && t[0] == x[1]) || Contains(t, x)
  {
    var s := [c] + t;
    assert s[1..] == t;
    if |t| >= 1 {
      assert s[..2] == [c, t[0]];
    }
  }

  /** A two-character pattern is in `s` exactly when two adjacent characters of `s` spell it. */
  lemma {:induction false} ContainsPair(s: string, x: string)
    requires |x| == 2
    ensures Contains(s, x) <==> exists i :: 0 <= i < |s| - 1 && s[i] == x[0] && s[i + 1] == x[1]
    decreases |s|
  {
    if |s| >= 1 {
      assert s == [s[0]] + s[1..];
      ContainsCons(s[0], s[1..], x);
      ContainsPair(s[1..], x);
      if exists i :: 0 <= i < |s| - 1 && s[i] == x[0] && s[i + 1] == x[1] {
        var i :| 0 <= i < |s| - 1 && s[i] == x[0] && s[i + 1] == x[1];
        if i > 0 {
          assert s[1..][i - 1] == x[0] && s[1..][i] == x[1];
        }
      }
      if Contains(s[1..], x) {
        var i :| 0 <= i < |s[1..]| - 1 && s[1..][i] == x[0] && s[1..][i + 1] == x[1];
        assert s[i + 1] == x[0] && s[i + 2] == x[1];
      }
    }
  }

  /** The first character of a replacement result is the original first character or the replacement's. */
  lemma ReplaceHead(t: string, p: string, q: string)
    requires |p| == 2 && |q| == 2 && |t| >= 1
    ensures |Replace(t, p, q)| >= 1
    ensures Replace(t, p, q)[0] == t[0] || Replace(t, p, q)[0] == q[0]
  {
  }

  /**
   * Replacing one two-character pattern by another creates no new occurrence of a
   * two-character string `x` that cannot straddle the replacement, and removes every
   * occurrence of the pattern itself.
   */
  lemma {:induction false} ReplaceKeepsOut(s: string, p: string, q: string, x: string)
    requires |p| == 2 && |q| == 2 && |x| == 2
    requires x != q && x[1] != q[0] && x[0] != q[1]
    ensures Contains(Replace(s, p, q), x) ==> Contains(s, x) && x != p
    decreases |s|
  {
    var r := Replace(s, p, q);
    if |s| < 2 {
      assert r == s;
    } else if s[..2] == p {
      var rest := Replace(s[2..], p, q);
      assert r == [q[0]] + ([q[1]] + rest);
      ContainsCons(q[0], [q[1]] + rest, x);
      ContainsCons(q[1], rest, x);
      ReplaceKeepsOut(s[2..], p, q, x);
      if Contains(r, x) {
        assert Contains(rest, x);
        assert s == [s[0]] + ([s[1]] + s[2..]);
        assert s[1..] == [s[1]] + s[2..];
        ContainsCons(s[1], s[2..], x);
        ContainsCons(s[0], s[1..], x);
      }
    } else {
      var rest := Replace(s[1..], p, q);
      assert r == [s[0]] + rest;
      ContainsCons(s[0], rest, x);
      ReplaceKeepsOut(s[1..], p, q, x);
      ReplaceHead(s[1..], p, q);
      assert s == [s[0]] + s[1..];
      ContainsCons(s[0], s[1..], x);
      if Contains(r, x) && !Contains(rest, x) {
        assert s[..2] == x;
      }
    }
  }

  /** A pattern whose first character never occurs in `s` is not in `s`. */
  lemma {:induction false} HeadAbsent(s: string, p: string)
    requires |p| > 0 && forall i :: 0 <= i < |s| ==> s[i] != p[0]
    ensures !Contains(s, p)
    decreases |s|
  {
    if |s| >= |p| {
      assert s[..|p|][0] == s[0];
      HeadAbsent(s[1..], p);
    }
  }

  /** `c.isalpha()`, restricted to the ASCII letters. */
  predicate IsAsciiLetter(c: char) {
    ('A' <= c <= 'Z') || ('a' <= c <= 'z')
  }

  /** An ASCII decimal digit (int() also reads other Unicode decimal digits, which are not modelled). */
  predicate IsDigit(c: char) {
    '0' <= c <= '9'
  }

  /** The ASCII whitespace: space, tab, line feed, vertical tab, form feed, carriage return (int() also strips Unicode spaces, which are not modelled). */
  predicate IsSpace(c: char) {
    c == ' ' || ('\t' <= c <= '\r')
  }

  function DigitChar(d: nat): (c: char)
    requires d < 10
    ensures IsDigit(c)
  {
    ('0' as int + d) as char
  }

  function DigitValue(c: char): (d: nat)
    ensures d < 10
  {
    if IsDigit(c) then c as int - '0' as int else 0
  }

  /** Decimal digits of a natural number, without leading zeros. */
  function NatToString(n: nat): (s: string)
    ensures |s| >= 1 && forall i :: 0 <= i < |s| ==> IsDigit(s[i])
    decreases n
  {
    if n < 10 then [DigitChar(n)] else NatToString(n / 10) + [DigitChar(n % 10)]
  }

  /** `str(i)` for an int. */
  function IntToString(i: int): (s: string)
    ensures |s| >= 1 && IsDigit(s[|s| - 1])
    ensures forall j :: 0 <= j < |s| ==> IsDigit(s[j]) || s[j] == '-'
  {
    if i < 0 then "-" + NatToString(-i) else NatToString(i)
  }

  /** A run of digits that int() accepts: digits, with single underscores between digits. */
  predicate DigitRun(s: string) {
    && |s| >= 1 && IsDigit(s[0]) && IsDigit(s[|s| - 1])
    && (forall i :: 0 <= i < |s| ==> IsDigit(s[i]) || s[i] == '_')
    && (forall i :: 0 <= i < |s| - 1 ==> !(s[i] == '_' && s[i + 1] == '_'))
  }

  /** The value of a digit run, underscores skipped. */
  function DigitsValue(s: string): nat
    decreases |s|
  {
    if |s| == 0 then 0
    else if s[|s| - 1] == '_' then DigitsValue(s[..|s| - 1])
    else DigitsValue(s[..|s| - 1]) * 10 + DigitValue(s[|s| - 1])
  }

  function StripLeft(s: string): (r: string)
    ensures |r| == 0 || !IsSpace(r[0])
    decreases |s|
  {
    if |s| > 0 && IsSpace(s[0]) then StripLeft(s[1..]) else s
  }

  function StripRight(s: string): (r: string)
    ensures |r| <= |s| && r == s[..|r|]
    ensures |r| == 0 || !IsSpace(r[|r| - 1])
    decreases |s|
  {
    if |s| > 0 && IsSpace(s[|s| - 1]) then StripRight(s[..|s| - 1]) else s
  }

  /**
   * `int(s)` on a string: surrounding whitespace, an optional sign, then a digit run.
   * None stands for the ValueError int() raises.
   */
  function ParseInt(s: string): Option<int> {
    var t := StripRight(StripLeft(s));
    if |t| > 0 && (t[0] == '+' || t[0] == '-') then
      if DigitRun(t[1..]) then
        assert IsDigit(t[1..][0]);
        var v: int := DigitsValue(t[1..]);
        Some(if t[0] == '-' then -v else v)
      else None
    else if DigitRun(t) then
      assert IsDigit(t[0]);
      Some(DigitsValue(t))
    else None
  }

  /** The digits of `n` read back as `n`. */
  lemma {:induction false} NatDigitsRoundTrip(n: nat)
    ensures DigitRun(NatToString(n)) && DigitsValue(NatToString(n)) == n
    decreases n
  {
    var s := NatToString(n);
    if n < 10 {
      assert DigitsValue(s[..0]) == 0;
    } else {
      NatDigitsRoundTrip(n / 10);
      assert s[..|s| - 1] == NatToString(n / 10);
    }
  }

  /** A string with no whitespace at either end is left alone by the stripping. */
  lemma StripUnspaced(s: string)
    requires |s| >= 1 && !IsSpace(s[0]) && !IsSpace(s[|s| - 1])
    ensures StripRight(StripLeft(s)) == s
  {
  }

  /** A '-' followed by a digit run reads as the run's value negated. */
  lemma ParseNegative(t: string)
    requires DigitRun(t)
    ensures ParseInt("-" + t) == Some(-(DigitsValue(t) as int))
  {
    var s := "-" + t;
    StripUnspaced(s);
    assert s[1..] == t;
  }

  /** An unsigned digit run with nothing to strip reads as its value. */
  lemma ParseUnsigned(s: string)
    requires DigitRun(s) && StripRight(StripLeft(s)) == s
    ensures ParseInt(s) == Some(DigitsValue(s))
  {
  }

  /** `int(str(i)) == i` for every int. */
  lemma IntStringRoundTrip(i: int)
    ensures ParseInt(IntToString(i)) == Some(i)
  {
    if i < 0 {
      NegativeRoundTrip(i);
    } else {
      NatDigitsRoundTrip(i);
      StripUnspaced(NatToString(i));
      ParseUnsigned(NatToString(i));
    }
  }

  lemma NegativeRoundTrip(i: int)
    requires i < 0
    ensures ParseInt(IntToString(i)) == Some(i)
  {
    var t := NatToString(-i);
    assert IntToString(i) == "-" + t;
    NatDigitsRoundTrip(-i);
    ParseNegative(t);
  }

  /** `items.index(x)`: the first position holding `x`; None stands for the ValueError. */
  function IndexOf(items: seq<string>, x: string): (r: Option<nat>)
    ensures r.Some? ==> r.value < |items| && items[r.value] == x && forall j :: 0 <= j < r.value ==> items[j] != x
    ensures r.None? ==> x !in items
  {
    if |items| == 0 then None
    else if items[0] == x then Some(0)
    else match IndexOf(items[1..], x)
      case None => None
      case Some(j) => Some(j + 1)
  }
}
