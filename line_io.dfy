/**
 * Line-oriented text: what BufferedReader.readLine (and the line iterator
 * built on it) returns for a text, and what writing each line followed by
 * the platform line separator produces.
 */
module LineIO {
  import opened Wrappers

  predicate IsLineBreak(c: char) { c == '\n' || c == '\r' }

  predicate NoLineBreak(s: string) { forall k :: 0 <= k < |s| ==> !IsLineBreak(s[k]) }

  /** The values the line.separator property takes: "\n", "\r\n" or "\r". */
  predicate IsLineSeparator(ls: string) { ls == "\n" || ls == "\r\n" || ls == "\r" }

  /** Length of the first line of `t`: everything before the first '\n' or '\r'. */
  function LineLength(t: string): (k: nat)
    ensures k <= |t|
    ensures NoLineBreak(t[..k])
    ensures k < |t| ==> IsLineBreak(t[k])
    decreases |t|
  {
    if t == [] || IsLineBreak(t[0]) then 0
    else
      var k := 1 + LineLength(t[1..]);
      assert t[..k] == [t[0]] + t[1..][..k - 1];
      k
  }

  /** The successive results of readLine until it returns null: "\r\n" ends a line as one terminator. */
  function ReadLines(t: string): (lines: seq<string>)
    ensures forall i :: 0 <= i < |lines| ==> NoLineBreak(lines[i])
    ensures lines == [] <==> t == []
    decreases |t|
  {
    if t == [] then []
    else
      var k := LineLength(t);
      var next := if k == |t| then k
                  else if t[k] == '\r' && k + 1 < |t| && t[k + 1] == '\n' then k + 2
                  else k + 1;
      [t[..k]] + ReadLines(t[next..])
  }

  /** Files.readFirstLine: the first line, or None (null) for an empty text. */
  function ReadFirstLine(t: string): (r: Option<string>)
    ensures r.None? <==> t == []
    ensures r.Some? ==> NoLineBreak(r.value) && r.value <= t
  {
    if t == [] then None else Some(ReadLines(t)[0])
  }

  /** The text of a file written as `line + ls` for each line in turn. */
  function Terminated(lines: seq<string>, ls: string): string
    decreases |lines|
  {
    if lines == [] then "" else lines[0] + ls + Terminated(lines[1..], ls)
  }

  /** Writing two runs of lines one after the other writes their texts one after the other. */
  lemma {:induction false} TerminatedAppend(a: seq<string>, b: seq<string>, ls: string)
    ensures Terminated(a + b, ls) == Terminated(a, ls) + Terminated(b, ls)
    decreases |a|
  {
    if a == [] {
      assert a + b == b;
    } else {
      assert (a + b)[1..] == a[1..] + b;
      TerminatedAppend(a[1..], b, ls);
    }
  }

  /** The first line of `l + ls + rest` is `l`. */
  lemma LineLengthOfTerminated(l: string, ls: string, rest: string)
    requires NoLineBreak(l) && IsLineSeparator(ls)
    ensures LineLength(l + ls + rest) == |l|
  {
    var t := l + ls + rest;
    assert t[|l|] == ls[0];
    assert forall k :: 0 <= k < |l| ==> t[k] == l[k];
  }

  /** A line written with a separator is read back first, and reading goes on right after the separator. */
  lemma ReadLinesStep(l: string, ls: string, rest: string)
    requires NoLineBreak(l) && IsLineSeparator(ls)
    requires ls == "\r" && rest != [] ==> rest[0] != '\n'
    ensures ReadLines(l + ls + rest) == [l] + ReadLines(rest)
  {
    var t := l + ls + rest;
    LineLengthOfTerminated(l, ls, rest);
    assert t[..|l|] == l;
    assert t[|l| + |ls|..] == rest;
    if ls == "\r\n" {
      assert t[|l|] == '\r' && t[|l| + 1] == '\n';
    } else if ls == "\r" {
      assert t[|l|] == '\r';
      assert |l| + 1 < |t| ==> t[|l| + 1] == rest[0];
    } else {
      assert t[|l|] == '\n';
    }
    assert ReadLines(t) == [t[..|l|]] + ReadLines(t[|l| + |ls|..]);
  }

  /** A text written line by line never opens with the '\n' a lone '\r' would swallow. */
  lemma TerminatedHead(lines: seq<string>, ls: string)
    requires lines != [] && NoLineBreak(lines[0]) && IsLineSeparator(ls)
    ensures Terminated(lines, ls) != []
    ensures ls != "\n" ==> Terminated(lines, ls)[0] != '\n'
  {
    var t := Terminated(lines, ls);
    assert t == lines[0] + ls + Terminated(lines[1..], ls);
    if lines[0] != [] {
      assert t[0] == lines[0][0];
    } else {
      assert t[0] == ls[0];
    }
  }

  /**
   * Round trip: reading back a text written line by line with a line
   * separator gives exactly the lines written, when no line holds a line break.
   */
  lemma {:induction false} ReadTerminated(lines: seq<string>, ls: string)
    requires IsLineSeparator(ls)
    requires forall i :: 0 <= i < |lines| ==> NoLineBreak(lines[i])
    ensures ReadLines(Terminated(lines, ls)) == lines
    decreases |lines|
  {
    if lines != [] {
      var rest := Terminated(lines[1..], ls);
      if lines[1..] != [] {
        TerminatedHead(lines[1..], ls);
      }
      ReadLinesStep(lines[0], ls, rest);
      ReadTerminated(lines[1..], ls);
      assert [lines[0]] + lines[1..] == lines;
    }
  }
}
