/**
 * ParquetConverter's filter step: every line of the input for which the
 * configured pattern finds a match is written to the new CSV file,
 * followed by the platform line separator. The pattern's `find` is a
 * parameter; the header line is filtered like any other line.
 */
module RowFilter {
  import opened LineIO

  /** The lines for which `find` holds, in their original order. */
  function Filtered(lines: seq<string>, find: string -> bool): (r: seq<string>)
    ensures |r| <= |lines|
    ensures forall l :: l in r <==> l in lines && find(l)
    decreases |lines|
  {
    if lines == [] then []
    else (if find(lines[0]) then [lines[0]] else []) + Filtered(lines[1..], find)
  }

  /** Filtering two runs of lines one after the other filters each run. */
  lemma {:induction false} FilteredAppend(a: seq<string>, b: seq<string>, find: string -> bool)
    ensures Filtered(a + b, find) == Filtered(a, find) + Filtered(b, find)
    decreases |a|
  {
    if a == [] {
      assert a + b == b;
    } else {
      assert (a + b)[1..] == a[1..] + b;
      FilteredAppend(a[1..], b, find);
    }
  }

  /** A pattern that matches every line keeps the lines exactly as they are. */
  lemma {:induction false} FilterAll(lines: seq<string>, find: string -> bool)
    requires forall i :: 0 <= i < |lines| ==> find(lines[i])
    ensures Filtered(lines, find) == lines
    decreases |lines|
  {
    if lines != [] {
      FilterAll(lines[1..], find);
      assert [lines[0]] + lines[1..] == lines;
    }
  }

  /** A pattern that matches no line leaves nothing. */
  lemma {:induction false} FilterNone(lines: seq<string>, find: string -> bool)
    requires forall i :: 0 <= i < |lines| ==> !find(lines[i])
    ensures Filtered(lines, find) == []
    decreases |lines|
  {
    if lines != [] {
      FilterNone(lines[1..], find);
    }
  }

  /** Filtering the filtered lines again changes nothing. */
  lemma FilterIdempotent(lines: seq<string>, find: string -> bool)
    ensures Filtered(Filtered(lines, find), find) == Filtered(lines, find)
  {
    var r := Filtered(lines, find);
    assert forall i :: 0 <= i < |r| ==> r[i] in r;
    FilterAll(r, find);
  }

  /**
   * The loop of filterToNewCsvFile over the lines of the input: the text
   * handed to the writer, `line + ls` for each matching line in turn.
   */
  method WriteMatchingLines(lines: seq<string>, find: string -> bool, ls: string) returns (written: string)
    ensures written == Terminated(Filtered(lines, find), ls)
  {
    written := "";
    var i := 0;
    while i < |lines|
      invariant 0 <= i <= |lines|
      invariant written == Terminated(Filtered(lines[..i], find), ls)
    {
      var line := lines[i];
      ghost var before := Filtered(lines[..i], find);
      assert lines[..i + 1] == lines[..i] + [line];
      FilteredAppend(lines[..i], [line], find);
      if find(line) {
        assert Filtered([line], find) == [line];
        TerminatedAppend(before, [line], ls);
        assert Terminated([line], ls) == line + ls;
        written := written + (line + ls);
      } else {
        assert Filtered([line], find) == [];
        assert before + [] == before;
      }
      i := i + 1;
    }
    assert lines[..i] == lines;
  }

  /**
   * Reading the new file back line by line gives exactly the matching lines
   * of the input, in order: so it has as many lines as the input has
   * matching lines.
   */
  lemma FilteredFileReadsBack(text: string, find: string -> bool, ls: string)
    requires IsLineSeparator(ls)
    ensures ReadLines(Terminated(Filtered(ReadLines(text), find), ls)) == Filtered(ReadLines(text), find)
  {
    var r := Filtered(ReadLines(text), find);
    assert forall i :: 0 <= i < |r| ==> r[i] in r;
    ReadTerminated(r, ls);
  }
}
