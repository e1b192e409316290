/**
 * The pieces of java.lang.String, Integer, Long and Boolean that the
 * conversion pipeline relies on, for a separator that is one literal
 * character: String.split with limit -1 and with the default limit,
 * String.trim, Integer.toString, Integer.parseInt / Long.parseLong and
 * Boolean.parseBoolean.
 */
module JavaStrings {
  import opened Wrappers

  // ---------------------------------------------------------------------
  // String.split(d, -1) and String.split(d)
  // ---------------------------------------------------------------------

  /** `s.split(d, -1)`: every piece between occurrences of `d`, trailing empty pieces included. */
  function SplitAll(s: string, d: char): (r: seq<string>)
    ensures |r| >= 1
    ensures forall k :: 0 <= k < |r| ==> d !in r[k]
    decreases |s|
  {
    if s == [] then [""]
    else
      var rest := SplitAll(s[1..], d);
      if s[0] == d then [""] + rest else [[s[0]] + rest[0]] + rest[1..]
  }

  /** The pieces glued back together with `d` between consecutive pieces. */
  function Join(pieces: seq<string>, d: char): string
    decreases |pieces|
  {
    if pieces == [] then ""
    else if |pieces| == 1 then pieces[0]
    else pieces[0] + [d] + Join(pieces[1..], d)
  }

  /** Removes the empty strings at the end, as the default limit of split does. */
  function DropTrailingEmpty(pieces: seq<string>): (r: seq<string>)
    ensures r <= pieces
    ensures forall k :: |r| <= k < |pieces| ==> pieces[k] == ""
    ensures r == [] || r[|r| - 1] != ""
    decreases |pieces|
  {
    if pieces != [] && pieces[|pieces| - 1] == "" then DropTrailingEmpty(pieces[..|pieces| - 1])
    else pieces
  }

  /**
   * `s.split(d)`: when `d` does not occur the result is `[s]` (so "" splits
   * into one empty piece); otherwise the limit -1 pieces without the empty
   * ones at the end.
   */
  function Split(s: string, d: char): (r: seq<string>)
    ensures r <= SplitAll(s, d)
    ensures d in s ==> forall k :: |r| <= k < |SplitAll(s, d)| ==> SplitAll(s, d)[k] == ""
    ensures d in s ==> r == [] || r[|r| - 1] != ""
    ensures d !in s ==> r == [s]
  {
    if d !in s then SplitAllWithoutDelimiter(s, d); [s]
    else DropTrailingEmpty(SplitAll(s, d))
  }

  /** Splitting text without the delimiter gives the text itself. */
  lemma {:induction false} SplitAllWithoutDelimiter(p: string, d: char)
    requires d !in p
    ensures SplitAll(p, d) == [p]
  {
    if p != [] {
      assert d !in p[1..];
      SplitAllWithoutDelimiter(p[1..], d);
      assert [p[0]] + p[1..] == p;
    }
  }

  /** A piece free of the delimiter, then the delimiter: the piece comes out first. */
  lemma {:induction false} SplitAllAfterPiece(p: string, d: char, t: string)
    requires d !in p
    ensures SplitAll(p + [d] + t, d) == [p] + SplitAll(t, d)
    decreases |p|
  {
    if p == [] {
      assert p + [d] + t == [d] + t;
      assert ([d] + t)[1..] == t;
    } else {
      assert (p + [d] + t)[1..] == p[1..] + [d] + t;
      SplitAllAfterPiece(p[1..], d, t);
      assert [p[0]] + p[1..] == p;
    }
  }

  /** Round trip: joining the limit -1 pieces with the delimiter gives back the text. */
  lemma {:induction false} JoinSplitAll(s: string, d: char)
    ensures Join(SplitAll(s, d), d) == s
    decreases |s|
  {
    if s != [] {
      var rest := SplitAll(s[1..], d);
      JoinSplitAll(s[1..], d);
      if s[0] == d {
        assert Join([""] + rest, d) == "" + [d] + Join(rest, d);
      } else if |rest| == 1 {
        assert Join(rest, d) == rest[0];
      } else {
        var r := [[s[0]] + rest[0]] + rest[1..];
        assert r[1..] == rest[1..];
        assert Join(rest, d) == rest[0] + [d] + Join(rest[1..], d);
        assert Join(r, d) == [s[0]] + rest[0] + [d] + Join(rest[1..], d);
      }
    }
  }

  /** Round trip the other way: pieces free of the delimiter are recovered by split(d, -1). */
  lemma {:induction false} SplitAllJoin(pieces: seq<string>, d: char)
    requires |pieces| >= 1
    requires forall k :: 0 <= k < |pieces| ==> d !in pieces[k]
    ensures SplitAll(Join(pieces, d), d) == pieces
    decreases |pieces|
  {
    if |pieces| == 1 {
      SplitAllWithoutDelimiter(pieces[0], d);
    } else {
      SplitAllJoin(pieces[1..], d);
      SplitAllAfterPiece(pieces[0], d, Join(pieces[1..], d));
      assert [pieces[0]] + pieces[1..] == pieces;
    }
  }

  /** The last limit -1 piece is empty exactly when the text is empty or ends with the delimiter. */
  lemma {:induction false} LastPieceEmpty(s: string, d: char)
    ensures var r := SplitAll(s, d); r[|r| - 1] == "" <==> (s == [] || s[|s| - 1] == d)
    decreases |s|
  {
    if s != [] {
      var rest := SplitAll(s[1..], d);
      LastPieceEmpty(s[1..], d);
      if s[0] != d && |rest| == 1 {
        JoinSplitAll(s[1..], d);
        assert Join(rest, d) == rest[0];
        assert s[1..] != [] ==> s[|s| - 1] == s[1..][|s[1..]| - 1] && s[|s| - 1] in s[1..];
      } else if s[0] != d {
        assert s[1..] != [];
      }
    }
  }

  /**
   * The two forms of split disagree in length exactly when the delimiter
   * occurs and the text ends with it (the dropped trailing pieces).
   */
  lemma SplitShorterIffTrailingDelimiter(s: string, d: char)
    ensures |Split(s, d)| <= |SplitAll(s, d)|
    ensures |Split(s, d)| < |SplitAll(s, d)| <==> (d in s && s[|s| - 1] == d)
  {
    var all := SplitAll(s, d);
    var r := Split(s, d);
    LastPieceEmpty(s, d);
    if d in s {
      if |r| == |all| {
        assert r == all;
      } else {
        assert all[|all| - 1] == "";
      }
    }
  }

  // ---------------------------------------------------------------------
  // String.trim
  // ---------------------------------------------------------------------

  /** How many characters at or below U+0020 open `s`. */
  function LeadingBlanks(s: string): (n: nat)
    ensures n <= |s|
    ensures forall k :: 0 <= k < n ==> s[k] <= ' '
    ensures n < |s| ==> s[n] > ' '
    decreases |s|
  {
    if s != [] && s[0] <= ' ' then 1 + LeadingBlanks(s[1..]) else 0
  }

  /** Where `s.trim()` ends: just after the last character above U+0020, or 0 when there is none. */
  function TrimmedEnd(s: string): (e: nat)
    ensures e <= |s|
    ensures forall k :: e <= k < |s| ==> s[k] <= ' '
    ensures e > 0 ==> s[e - 1] > ' '
    decreases |s|
  {
    if s == [] || s[|s| - 1] > ' ' then |s| else TrimmedEnd(s[..|s| - 1])
  }

  /** `s.trim()`: `s` without the characters at or below U+0020 at either end. */
  function Trim(s: string): string
  {
    if TrimmedEnd(s) <= LeadingBlanks(s) then "" else s[LeadingBlanks(s)..TrimmedEnd(s)]
  }

  /** `s` has a space with a character above U+0020 somewhere before it and another somewhere after. */
  predicate HasInnerSpace(s: string)
  {
    exists j :: 0 <= j < |s| && s[j] == ' ' && HasNonBlankBefore(s, j) && HasNonBlankAfter(s, j)
  }

  predicate HasNonBlankBefore(s: string, j: int)
  {
    exists i :: 0 <= i < j && i < |s| && s[i] > ' '
  }

  predicate HasNonBlankAfter(s: string, j: int)
  {
    exists k :: 0 <= j < k < |s| && s[k] > ' '
  }

  /** The trimmed text holds a space exactly when the untrimmed text has a space between non-blanks. */
  lemma TrimmedHasSpace(s: string)
    ensures ' ' in Trim(s) <==> HasInnerSpace(s)
  {
    if ' ' in Trim(s) {
      TrimmedSpaceIsInner(s);
    }
    if HasInnerSpace(s) {
      InnerSpaceSurvivesTrim(s);
    }
  }

  lemma TrimmedSpaceIsInner(s: string)
    requires ' ' in Trim(s)
    ensures HasInnerSpace(s)
  {
    var a, e := LeadingBlanks(s), TrimmedEnd(s);
    var t := Trim(s);
    assert a < e && t == s[a..e];
    var j :| 0 <= j < |t| && t[j] == ' ';
    assert s[a + j] == ' ';
    assert HasNonBlankBefore(s, a + j) by {
      assert s[a] > ' ';
    }
    assert HasNonBlankAfter(s, a + j) by {
      assert s[e - 1] > ' ';
    }
  }

  lemma InnerSpaceSurvivesTrim(s: string)
    requires HasInnerSpace(s)
    ensures ' ' in Trim(s)
  {
    var j :| 0 <= j < |s| && s[j] == ' ' && HasNonBlankBefore(s, j) && HasNonBlankAfter(s, j);
    var i :| 0 <= i < j && i < |s| && s[i] > ' ';
    var k :| j < k < |s| && s[k] > ' ';
    NonBlankKept(s, i);
    NonBlankKept(s, k);
    SpaceKept(s, j);
  }

  /** A space inside the trimmed range is a character of the trimmed text. */
  lemma SpaceKept(s: string, j: nat)
    requires LeadingBlanks(s) <= j < TrimmedEnd(s) && s[j] == ' '
    ensures ' ' in Trim(s)
  {
    InSlice(s, LeadingBlanks(s), TrimmedEnd(s), j);
  }

  lemma InSlice(s: string, a: nat, e: nat, j: nat)
    requires a <= j < e <= |s|
    ensures s[j] in s[a..e]
  {
    assert s[a..e][j - a] == s[j];
  }

  /** A character above U+0020 lies inside the trimmed range. */
  lemma NonBlankKept(s: string, i: nat)
    requires i < |s| && s[i] > ' '
    ensures LeadingBlanks(s) <= i < TrimmedEnd(s)
  {
  }

  // ---------------------------------------------------------------------
  // Integer.toString and decimal digits
  // ---------------------------------------------------------------------

  predicate IsDigit(c: char) { '0' <= c <= '9' }

  predicate AllDigits(s: string) { forall k :: 0 <= k < |s| ==> IsDigit(s[k]) }

  function DigitChar(n: nat): (c: char)
    requires n < 10
    ensures IsDigit(c) && c as int - '0' as int == n
  {
    ('0' as int + n) as char
  }

  /** Integer.toString for a value that is not negative: decimal digits, no leading zero. */
  function NatToDecimal(n: nat): (r: string)
    ensures |r| >= 1 && AllDigits(r)
    ensures r[0] == '0' ==> n == 0 && r == "0"
    decreases n
  {
    if n < 10 then [DigitChar(n)] else NatToDecimal(n / 10) + [DigitChar(n % 10)]
  }

  /** Integer.toString / Long.toString: a minus sign before the digits of a negative value. */
  function IntToDecimal(n: int): string
  {
    if n < 0 then "-" + NatToDecimal(-n) else NatToDecimal(n)
  }

  /** The value a string of decimal digits denotes. */
  function DigitsValue(s: string): nat
    requires AllDigits(s)
    decreases |s|
  {
    if s == [] then 0 else 10 * DigitsValue(s[..|s| - 1]) + (s[|s| - 1] as int - '0' as int)
  }

  /** Round trip: the digits Integer.toString writes denote the value written. */
  lemma {:induction false} NatToDecimalValue(n: nat)
    ensures DigitsValue(NatToDecimal(n)) == n
    decreases n
  {
    if n >= 10 {
      NatToDecimalValue(n / 10);
      var r := NatToDecimal(n);
      assert r[..|r| - 1] == NatToDecimal(n / 10);
    }
  }

  /** Integer.toString never writes the same text for two different values. */
  lemma NatToDecimalInjective(m: nat, n: nat)
    requires NatToDecimal(m) == NatToDecimal(n)
    ensures m == n
  {
    NatToDecimalValue(m);
    NatToDecimalValue(n);
  }

  // ---------------------------------------------------------------------
  // Integer.parseInt, Long.parseLong, Boolean.parseBoolean
  // ---------------------------------------------------------------------

  const INT32_MIN: int := -0x8000_0000
  const INT32_MAX: int := 0x7fff_ffff
  const INT64_MIN: int := -0x8000_0000_0000_0000
  const INT64_MAX: int := 0x7fff_ffff_ffff_ffff

  /**
   * Base-10 parse of Integer.parseInt (min and max of int) and Long.parseLong
   * (min and max of long): an optional '-' or '+', then at least one digit;
   * None stands for NumberFormatException (malformed text or a value out of
   * range).
   */
  function ParseDecimal(s: string, min: int, max: int): (r: Option<int>)
    ensures r.Some? ==> min <= r.value <= max
    ensures r.Some? ==> s != [] && (s[0] == '-' || s[0] == '+' || IsDigit(s[0]))
    ensures r.Some? ==> forall k :: 1 <= k < |s| ==> IsDigit(s[k])
    ensures r.Some? ==> var digits := if s[0] == '-' || s[0] == '+' then s[1..] else s;
      AllDigits(digits) && r.value == if s[0] == '-' then 0 - DigitsValue(digits) else DigitsValue(digits)
  {
    if s == [] then None
    else
      var signed := s[0] == '-' || s[0] == '+';
      var digits := if signed then s[1..] else s;
      if digits == [] || !AllDigits(digits) then None
      else
        var v: int := if s[0] == '-' then 0 - DigitsValue(digits) else DigitsValue(digits);
        if min <= v <= max then Some(v) else None
  }

  /** Integer.parseInt(s). */
  function ParseInt(s: string): Option<int> { ParseDecimal(s, INT32_MIN, INT32_MAX) }

  /** Long.parseLong(s). */
  function ParseLong(s: string): Option<int> { ParseDecimal(s, INT64_MIN, INT64_MAX) }

  /**
   * Parsing the text Integer.toString writes for `n` gives back `n` exactly
   * when `n` lies in the range, and fails otherwise.
   */
  lemma ParseDecimalOfToString(n: int, min: int, max: int)
    ensures ParseDecimal(IntToDecimal(n), min, max) == if min <= n <= max then Some(n) else None
  {
    if n < 0 {
      ParseOfNegative(-n, min, max);
    } else {
      ParseOfNonNegative(n, min, max);
    }
  }

  lemma ParseOfNonNegative(n: nat, min: int, max: int)
    ensures ParseDecimal(NatToDecimal(n), min, max) == if min <= n <= max then Some(n) else None
  {
    var d := NatToDecimal(n);
    NatToDecimalValue(n);
    ParseSignedDigits("", d, min, max);
    assert "" + d == d;
  }

  lemma ParseOfNegative(n: nat, min: int, max: int)
    ensures var v: int := 0 - n; ParseDecimal("-" + NatToDecimal(n), min, max) == if min <= v <= max then Some(v) else None
  {
    NatToDecimalValue(n);
    ParseSignedDigits("-", NatToDecimal(n), min, max);
  }

  /**
   * Every text made of an optional '-' or '+' and at least one digit is
   * accepted exactly when its value lies in the range, and then parses to
   * that value (leading zeros and "-0" included).
   */
  lemma ParseSignedDigits(sign: string, d: string, min: int, max: int)
    requires sign == "" || sign == "-" || sign == "+"
    requires d != [] && AllDigits(d)
    ensures var v: int := if sign == "-" then 0 - DigitsValue(d) else DigitsValue(d);
      ParseDecimal(sign + d, min, max) == if min <= v <= max then Some(v) else None
  {
    if sign == "" {
      assert sign + d == d;
      assert IsDigit(d[0]);
    } else {
      assert (sign + d)[1..] == d;
    }
  }

  /** An explicit '+', leading zeros and "-0" are accepted; a bare sign and the empty text are not. */
  lemma ParseIntExamples()
    ensures ParseInt("+7") == Some(7) && ParseInt("007") == Some(7) && ParseInt("-0") == Some(0)
    ensures ParseInt("+") == None && ParseInt("-") == None && ParseInt("") == None
  {
    assert DigitsValue("7") == 7;
    assert DigitsValue("0") == 0;
    assert "007"[..2] == "00" && "00"[..1] == "0";
    assert DigitsValue("007") == 7;
    ParseSignedDigits("+", "7", INT32_MIN, INT32_MAX);
    ParseSignedDigits("", "007", INT32_MIN, INT32_MAX);
    ParseSignedDigits("-", "0", INT32_MIN, INT32_MAX);
  }

  /** ASCII lower-casing, which is all equalsIgnoreCase needs against "true". */
  function LowerAscii(c: char): char
  {
    if 'A' <= c <= 'Z' then (c as int + 32) as char else c
  }

  /** Boolean.parseBoolean(s): "true".equalsIgnoreCase(s); any other text is false. */
  function ParseBoolean(s: string): bool
  {
    |s| == 4 && LowerAscii(s[0]) == 't' && LowerAscii(s[1]) == 'r'
      && LowerAscii(s[2]) == 'u' && LowerAscii(s[3]) == 'e'
  }

  /** Only the sixteen spellings of "true" in either case parse to true. */
  lemma ParseBooleanTrue(s: string)
    ensures ParseBoolean(s) <==> |s| == 4 && s[0] in "tT" && s[1] in "rR" && s[2] in "uU" && s[3] in "eE"
  {
  }
}
