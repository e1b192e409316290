/**
 * FileManagementService's string logic: removeFileExtension, a regular
 * expression replacement written out character by character, and the
 * guard of newFile against archive entries that resolve outside the
 * destination directory.
 */
module FileNames {
  import opened Wrappers

  /** The characters java.util.regex's '.' does not match (no DOTALL, no UNIX_LINES). */
  predicate IsRegexLineTerminator(c: char)
  {
    c == '\n' || c == '\r' || c == '\U{0085}' || c == '\U{2028}' || c == '\U{2029}'
  }

  predicate NoRegexLineTerminator(s: string)
  {
    forall k :: 0 <= k < |s| ==> !IsRegexLineTerminator(s[k])
  }

  /** No '.' anywhere except possibly as the very first character. */
  predicate NoDotAfterStart(s: string)
  {
    forall k :: 1 <= k < |s| ==> s[k] != '.'
  }

  /**
   * `replaceAll("(?<!^)[.].*", "")` on what is left of the name: `atStart`
   * holds only at index 0, where the look-behind `(?<!^)` forbids a match;
   * `skipping` holds inside a match, whose `.*` runs up to (not over) the
   * next line terminator, after which the search for the next match resumes.
   */
  function CutAtDots(s: string, atStart: bool, skipping: bool): (r: string)
    ensures |r| <= |s|
    ensures forall k :: (if atStart then 1 else 0) <= k < |r| ==> r[k] != '.'
    ensures atStart && !skipping && s != [] ==> r != [] && r[0] == s[0]
    decreases |s|
  {
    if s == [] then []
    else if skipping && !IsRegexLineTerminator(s[0]) then CutAtDots(s[1..], false, true)
    else if !skipping && s[0] == '.' && !atStart then CutAtDots(s[1..], false, true)
    else [s[0]] + CutAtDots(s[1..], false, false)
  }

  /** Index of the last '.', or -1 when there is none. */
  function LastDot(s: string): (k: int)
    ensures -1 <= k < |s|
    ensures k >= 0 ==> s[k] == '.'
    ensures forall j :: k < j < |s| ==> s[j] != '.'
    decreases |s|
  {
    if s == [] then -1
    else if s[|s| - 1] == '.' then |s| - 1
    else LastDot(s[..|s| - 1])
  }

  /**
   * `replaceAll("(?<!^)[.][^.]*$", "")`: the only place the pattern can
   * match is the last '.', and only when that '.' is not the first character;
   * the match then runs to the end of the name.
   */
  function CutLastDot(s: string): (r: string)
    ensures r <= s
    ensures |r| < |s| ==> 1 <= |r| && s[|r|] == '.' && forall j :: |r| < j < |s| ==> s[j] != '.'
    ensures |r| == |s| ==> NoDotAfterStart(s)
  {
    var k := LastDot(s);
    if k >= 1 then s[..k] else s
  }

  /**
   * removeFileExtension(filename, removeAllExtensions): None stands for null.
   * A null or empty name comes back as it is; otherwise everything from the
   * first '.' (all extensions) or from the last '.' (last extension) is cut,
   * never a '.' at index 0.
   */
  function RemoveFileExtension(filename: Option<string>, removeAllExtensions: bool): (r: Option<string>)
    ensures r.None? <==> filename.None?
    ensures r.Some? ==> |r.value| <= |filename.value|
    ensures r.Some? && filename.value != [] ==> r.value != [] && r.value[0] == filename.value[0]
    ensures r.Some? && removeAllExtensions ==> NoDotAfterStart(r.value)
  {
    if filename.None? || filename.value == [] then filename
    else if removeAllExtensions then Some(CutAtDots(filename.value, true, false))
    else Some(CutLastDot(filename.value))
  }

  /** A null or empty name is returned unchanged, in both modes. */
  lemma NullOrEmptyUnchanged(removeAllExtensions: bool)
    ensures RemoveFileExtension(None, removeAllExtensions) == None
    ensures RemoveFileExtension(Some(""), removeAllExtensions) == Some("")
  {
  }

  /**
   * On a name without line terminators, removing all extensions keeps
   * exactly the part before the first '.' at an index of at least 1 (the
   * result is a prefix that stops at such a '.', or the whole name).
   */
  lemma {:induction false} CutAtDotsIsPrefix(s: string, atStart: bool)
    requires NoRegexLineTerminator(s)
    ensures CutAtDots(s, atStart, true) == []
    ensures var r := CutAtDots(s, atStart, false);
      r <= s && (|r| < |s| ==> s[|r|] == '.' && (atStart ==> |r| >= 1))
    decreases |s|
  {
    if s != [] {
      CutAtDotsIsPrefix(s[1..], false);
      var r := CutAtDots(s, atStart, false);
      if !(s[0] == '.' && !atStart) {
        assert r == [s[0]] + CutAtDots(s[1..], false, false);
      }
    }
  }

  /** Removing all extensions from a name with no '.' past index 0 changes nothing. */
  lemma {:induction false} CutAtDotsUnchanged(s: string, atStart: bool)
    requires forall k :: (if atStart then 1 else 0) <= k < |s| ==> s[k] != '.'
    ensures CutAtDots(s, atStart, false) == s
    decreases |s|
  {
    if s != [] {
      CutAtDotsUnchanged(s[1..], false);
      assert [s[0]] + s[1..] == s;
    }
  }

  /** Removing all extensions is idempotent (with or without line terminators in the name). */
  lemma RemoveAllIdempotent(filename: Option<string>)
    ensures RemoveFileExtension(RemoveFileExtension(filename, true), true) == RemoveFileExtension(filename, true)
  {
    var once := RemoveFileExtension(filename, true);
    if once.Some? && once.value != [] {
      CutAtDotsUnchanged(once.value, true);
    }
  }

  /** On a name without line terminators, both modes return a prefix of the name. */
  lemma RemoveFileExtensionIsPrefix(name: string, removeAllExtensions: bool)
    requires NoRegexLineTerminator(name)
    ensures RemoveFileExtension(Some(name), removeAllExtensions).value <= name
  {
    if name != [] && removeAllExtensions {
      CutAtDotsIsPrefix(name, true);
    }
  }

  /**
   * On a name without line terminators, removing all extensions cuts no
   * later than removing the last one: the first result is a prefix of the second.
   */
  lemma RemoveAllCutsNoLaterThanRemoveLast(name: string)
    requires NoRegexLineTerminator(name)
    ensures RemoveFileExtension(Some(name), true).value <= RemoveFileExtension(Some(name), false).value
  {
    if name != [] {
      CutAtDotsIsPrefix(name, true);
    }
  }

  /** A name whose only '.' leads it (".bashrc") is unchanged in both modes. */
  lemma LeadingDotNeverRemoved(name: string, removeAllExtensions: bool)
    requires name != [] && name[0] == '.' && NoDotAfterStart(name)
    ensures RemoveFileExtension(Some(name), removeAllExtensions) == Some(name)
  {
    CutAtDotsUnchanged(name, true);
  }

  /** A name made of a stem with no '.', a '.', and anything without line terminators loses everything after the stem. */
  lemma {:induction false} CutAtDotsBeforeExtension(stem: string, ext: string, atStart: bool)
    requires stem != [] || !atStart
    requires forall k :: 0 <= k < |stem| ==> stem[k] != '.' && !IsRegexLineTerminator(stem[k])
    requires NoRegexLineTerminator(ext)
    ensures CutAtDots(stem + "." + ext, atStart, false) == stem
    decreases |stem|
  {
    var s := stem + "." + ext;
    if stem == [] {
      assert s[1..] == ext;
      CutAtDotsIsPrefix(ext, false);
    } else {
      assert s[1..] == stem[1..] + "." + ext;
      CutAtDotsBeforeExtension(stem[1..], ext, false);
      assert [stem[0]] + stem[1..] == stem;
    }
  }

  /** "data.tar.gz" loses both extensions when all are removed. */
  lemma RemoveAllExample()
    ensures RemoveFileExtension(Some("data.tar.gz"), true) == Some("data")
  {
    assert "data.tar.gz" == "data" + "." + "tar.gz";
    CutAtDotsBeforeExtension("data", "tar.gz", true);
  }

  /** "data.tar.gz" loses only ".gz" when the last extension is removed. */
  lemma RemoveLastExample()
    ensures RemoveFileExtension(Some("data.tar.gz"), false) == Some("data.tar")
  {
    var s := "data.tar.gz";
    var r := CutLastDot(s);
    assert s[4] == '.' && s[8] == '.' && s[9] != '.' && s[10] != '.';
    assert |r| == 8;
    assert s[..8] == "data.tar";
  }

  // ---------------------------------------------------------------------
  // newFile
  // ---------------------------------------------------------------------

  /** `new File(parent, child)`, before any resolution. */
  datatype FileRef = FileRef(parent: string, child: string)

  /**
   * newFile(destinationDir, zipEntry): the canonical paths of the
   * directory and of the entry's destination are given (getCanonicalPath is
   * platform code); the entry is accepted only when its canonical path
   * starts with the directory's canonical path followed by the separator,
   * and is otherwise refused with an IOException naming the entry.
   */
  function NewFile(destinationDir: string, entryName: string,
                   canonicalDir: string, canonicalFile: string, separator: char): (r: Result<FileRef, string>)
    ensures r.Ok? ==> r.value == FileRef(destinationDir, entryName)
    ensures r.Ok? ==> |canonicalFile| > |canonicalDir|
                      && canonicalFile[..|canonicalDir|] == canonicalDir
                      && canonicalFile[|canonicalDir|] == separator
    ensures r.Err? ==> r.error == "Entry is outside of the target dir: " + entryName
  {
    if canonicalDir + [separator] <= canonicalFile then Ok(FileRef(destinationDir, entryName))
    else Err("Entry is outside of the target dir: " + entryName)
  }

  /** Every path below the directory is accepted. */
  lemma NewFileAcceptsInside(destinationDir: string, entryName: string,
                             canonicalDir: string, rest: string, separator: char)
    ensures NewFile(destinationDir, entryName, canonicalDir, canonicalDir + [separator] + rest, separator).Ok?
  {
    assert canonicalDir + [separator] <= canonicalDir + [separator] + rest;
  }

  /**
   * The directory itself and every sibling whose path merely extends the
   * directory's name ("/out" against "/output/x") are refused.
   */
  lemma NewFileRejectsSiblings(destinationDir: string, entryName: string,
                               canonicalDir: string, suffix: string, separator: char)
    requires suffix == [] || suffix[0] != separator
    ensures NewFile(destinationDir, entryName, canonicalDir, canonicalDir + suffix, separator).Err?
  {
    if suffix != [] {
      assert (canonicalDir + suffix)[|canonicalDir|] == suffix[0];
    }
  }
}
