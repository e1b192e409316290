/**
 * ParquetConverter: the per-file job. From the input path it derives the
 * schema, filtered-copy and output paths, then writes the schema file,
 * writes the filtered copy, and converts the copy to Parquet, one record per
 * line, stopping at the first exception. The file system is a map from
 * paths to text plus a map from paths to Parquet files; a Parquet file is
 * the log of record-consumer calls it received and whether it was closed.
 */
module Converter {
  import opened Wrappers
  import opened JavaStrings
  import opened LineIO
  import opened FileNames
  import opened SchemaInference
  import opened RowFilter
  import opened WriteSupport

  /** The application's resource-bundle values the job reads. */
  datatype Resources = Resources(
    separator: char,           // csv.separator, a single literal character
    schema: SchemaResources,
    tempFolder: string,        // output.folder.temp
    outputFolder: string,      // output.folder
    schemaExtension: string,   // file.extension.schema
    parquetExtension: string)  // file.extension.parquet

  /**
   * What the platform and the libraries decide: the line.separator
   * property, the compiled pattern's find, NumberUtils.isParsable, the
   * write support's platform, and MessageTypeParser.parseMessageType
   * (None for a text it rejects).
   */
  datatype Environment = Environment(
    lineSeparator: string,
    find: string -> bool,
    isParsable: string -> bool,
    platform: Platform,
    parseSchema: string -> Option<seq<ColumnDescriptor>>)

  /** The platform's line separator is one of the usual three, and parsed schemas have named columns. */
  ghost predicate ValidEnvironment(env: Environment)
  {
    IsLineSeparator(env.lineSeparator)
    && forall text :: env.parseSchema(text).Some? ==> WellFormed(env.parseSchema(text).value)
  }

  /** The exceptions the job ends with. */
  datatype Failure =
    | FileNotFound(path: string)              // opening a file that does not exist
    | NullPointer                             // dereferencing null: the first line of an empty file, or a missing latch
    | SchemaParseError(text: string)          // parseMessageType rejected the schema text
    | EncodingFailure(error: EncodingError)   // CsvWriteSupport.write threw

  /** A Parquet file: the calls its writer's record consumer received, and whether the writer was closed. */
  datatype ParquetFile = ParquetFile(events: seq<Event>, closed: bool)

  /** The contents of the file system. */
  datatype State = State(files: map<string, string>, parquet: map<string, ParquetFile>)

  // ---------------------------------------------------------------------
  // Paths
  // ---------------------------------------------------------------------

  /** File.getName: what follows the last '/'. */
  function BaseName(path: string): (name: string)
    ensures |name| <= |path| && name == path[|path| - |name|..]
    ensures '/' !in name
    ensures |name| < |path| ==> path[|path| - |name| - 1] == '/'
    decreases |path|
  {
    if path == [] || path[|path| - 1] == '/' then []
    else BaseName(path[..|path| - 1]) + [path[|path| - 1]]
  }

  /** The input's name with every extension removed. */
  function Stem(path: string): string
  {
    RemoveFileExtension(Some(BaseName(path)), true).value
  }

  /** Where the filtered copy goes: the temporary folder, under the input's full name. */
  function FilteredCsvPath(res: Resources, path: string): string
  {
    res.tempFolder + "/" + BaseName(path)
  }

  /** Where the schema goes: the temporary folder, under the stem with the schema extension. */
  function SchemaPath(res: Resources, path: string): string
  {
    res.tempFolder + "/" + Stem(path) + res.schemaExtension
  }

  /** Where the Parquet file goes: the output folder, under the stem with the parquet extension. */
  function OutputPath(res: Resources, path: string): string
  {
    res.outputFolder + "/" + Stem(path) + res.parquetExtension
  }

  // ---------------------------------------------------------------------
  // The steps, as functions of the file system
  // ---------------------------------------------------------------------

  /** A step's new file system and its exception, if any. */
  datatype StepResult = StepResult(state: State, failure: Option<Failure>)

  /** createSchemaFile(schemaPath): reads the first line of the input and writes the inferred schema. */
  function SchemaStep(st: State, filePath: string, schemaPath: string, res: Resources, env: Environment): StepResult
  {
    if filePath !in st.files then StepResult(st, Some(FileNotFound(filePath)))
    else match ReadFirstLine(st.files[filePath])
      case None => StepResult(st, Some(NullPointer))
      case Some(firstLine) =>
        var text := SchemaText(res.schema, InferSchema(firstLine, res.separator, env.isParsable));
        StepResult(State(st.files[schemaPath := text], st.parquet), None)
  }

  /**
   * The text the filter step reads. The writer for the new file empties it
   * before the first line is read, so when the new file is the input itself
   * nothing is left to read.
   */
  function FilterInput(st: State, filePath: string, newPath: string): string
    requires filePath in st.files
  {
    if newPath == filePath then "" else st.files[filePath]
  }

  /** filterToNewCsvFile(newPath): writes the matching lines of what it reads, each followed by the line separator. */
  function FilterStep(st: State, filePath: string, newPath: string, env: Environment): StepResult
  {
    if filePath !in st.files then StepResult(st, Some(FileNotFound(filePath)))
    else
      var text := Terminated(Filtered(ReadLines(FilterInput(st, filePath, newPath)), env.find), env.lineSeparator);
      StepResult(State(st.files[newPath := text], st.parquet), None)
  }

  /**
   * The calls a Parquet writer's consumer receives for the lines of a CSV
   * file: each line is split (trailing empty fields dropped) into one
   * record, and the first exception ends the run.
   */
  function FileTrace(columns: seq<ColumnDescriptor>, lines: seq<string>, separator: char, platform: Platform): Trace
    requires WellFormed(columns)
    decreases |lines|
  {
    if lines == [] then Trace([], None)
    else
      var before := FileTrace(columns, lines[..|lines| - 1], separator, platform);
      if before.error.Some? then before
      else
        var last := RecordTrace(columns, Split(lines[|lines| - 1], separator), platform);
        Trace(before.events + last.events, last.error)
  }

  /** readFile(path): the lines of the file, each followed by the line separator. */
  function ReadFile(text: string, ls: string): string
  {
    Terminated(ReadLines(text), ls)
  }

  /**
   * convertCsvToParquet(schemaPath, csvPath, outputPath): reads and parses
   * the schema, creates the output (an empty, open Parquet file), then
   * opens the CSV file and writes its records; the output is closed only
   * when every record was written.
   */
  function ConvertStep(st: State, schemaPath: string, csvPath: string, outputPath: string, res: Resources, env: Environment): StepResult
    requires ValidEnvironment(env)
  {
    if schemaPath !in st.files then StepResult(st, Some(FileNotFound(schemaPath)))
    else
      var rawSchema := ReadFile(st.files[schemaPath], env.lineSeparator);
      match env.parseSchema(rawSchema)
      case None => StepResult(st, Some(SchemaParseError(rawSchema)))
      case Some(columns) => OutputStep(st, columns, csvPath, outputPath, res.separator, env.platform)
  }

  /**
   * The second half of convertCsvToParquet, once the schema is parsed:
   * the output is created, then the CSV file is opened and its records written.
   */
  function OutputStep(st: State, columns: seq<ColumnDescriptor>, csvPath: string, outputPath: string,
                      separator: char, platform: Platform): StepResult
    requires WellFormed(columns)
  {
    if csvPath !in st.files then
      StepResult(State(st.files, st.parquet[outputPath := ParquetFile([], false)]), Some(FileNotFound(csvPath)))
    else
      var t := FileTrace(columns, ReadLines(st.files[csvPath]), separator, platform);
      StepResult(State(st.files, st.parquet[outputPath := ParquetFile(t.events, t.error.None?)]),
                 if t.error.None? then None else Some(EncodingFailure(t.error.value)))
  }

  /** call(): the three steps in order, stopping at the first exception, then the latch. */
  function CallSteps(st: State, filePath: string, res: Resources, env: Environment, hasLatch: bool): (State, Result<string, Failure>)
    requires ValidEnvironment(env)
  {
    var schemaPath := SchemaPath(res, filePath);
    var newCsvPath := FilteredCsvPath(res, filePath);
    var outputPath := OutputPath(res, filePath);
    var s1 := SchemaStep(st, filePath, schemaPath, res, env);
    if s1.failure.Some? then (s1.state, Err(s1.failure.value))
    else
      var s2 := FilterStep(s1.state, filePath, newCsvPath, env);
      if s2.failure.Some? then (s2.state, Err(s2.failure.value))
      else
        var s3 := ConvertStep(s2.state, schemaPath, newCsvPath, outputPath, res, env);
        if s3.failure.Some? then (s3.state, Err(s3.failure.value))
        else if !hasLatch then (s3.state, Err(NullPointer))
        else (s3.state, Ok(outputPath))
  }

  // ---------------------------------------------------------------------
  // The objects
  // ---------------------------------------------------------------------

  class FileSystem {
    var files: map<string, string>
    var parquet: map<string, ParquetFile>

    constructor(files: map<string, string>)
      ensures this.files == files && parquet == map[]
    {
      this.files := files;
      parquet := map[];
    }

    function Contents(): State
      reads this
    {
      State(files, parquet)
    }
  }

  class CountDownLatch {
    var count: nat

    constructor(count: nat)
      ensures this.count == count
    {
      this.count := count;
    }

    /** countDown: one less, never below zero. */
    method CountDown()
      modifies this
      ensures count == if old(count) > 0 then old(count) - 1 else 0
    {
      if count > 0 {
        count := count - 1;
      }
    }
  }

  class ParquetConverter {
    const filePath: string
    const latch: CountDownLatch?
    const res: Resources
    const env: Environment
    const fs: FileSystem

    /** Both Java constructors: the one without a latch leaves it null. */
    constructor(filePath: string, latch: CountDownLatch?, res: Resources, env: Environment, fs: FileSystem)
      ensures this.filePath == filePath && this.latch == latch && this.res == res && this.env == env && this.fs == fs
    {
      this.filePath := filePath;
      this.latch := latch;
      this.res := res;
      this.env := env;
      this.fs := fs;
    }

    /** createSchemaFile(newFilePath). */
    method CreateSchemaFile(newFilePath: string) returns (failure: Option<Failure>)
      modifies fs
      ensures StepResult(fs.Contents(), failure) == SchemaStep(old(fs.Contents()), filePath, newFilePath, res, env)
    {
      if filePath !in fs.files {
        return Some(FileNotFound(filePath));
      }
      var firstLine := ReadFirstLine(fs.files[filePath]);
      if firstLine.None? {
        return Some(NullPointer);
      }
      var text := SchemaFileText(res.schema, firstLine.value, res.separator, env.isParsable);
      fs.files := fs.files[newFilePath := text];
      return None;
    }

    /** filterToNewCsvFile(newFilePath). */
    method FilterToNewCsvFile(newFilePath: string) returns (failure: Option<Failure>)
      modifies fs
      ensures StepResult(fs.Contents(), failure) == FilterStep(old(fs.Contents()), filePath, newFilePath, env)
    {
      if filePath !in fs.files {
        return Some(FileNotFound(filePath));
      }
      // the PrintWriter creates (or empties) the new file before the iterator reads a line
      fs.files := fs.files[newFilePath := ""];
      var lines := ReadLines(fs.files[filePath]);
      var written := WriteMatchingLines(lines, env.find, env.lineSeparator);
      Overwrite(old(fs.files), newFilePath, "", written);
      fs.files := fs.files[newFilePath := written];
      return None;
    }

    /** convertCsvToParquet(schemaPath, csvFile, outputParquetFile, false). */
    method ConvertCsvToParquet(schemaPath: string, csvPath: string, outputPath: string) returns (failure: Option<Failure>)
      requires ValidEnvironment(env)
      modifies fs
      ensures StepResult(fs.Contents(), failure) == ConvertStep(old(fs.Contents()), schemaPath, csvPath, outputPath, res, env)
    {
      if schemaPath !in fs.files {
        return Some(FileNotFound(schemaPath));
      }
      var rawSchema := ReadFile(fs.files[schemaPath], env.lineSeparator);
      var parsed := env.parseSchema(rawSchema);
      if parsed.None? {
        return Some(SchemaParseError(rawSchema));
      }
      var columns := parsed.value;
      assert WellFormed(columns);
      failure := WriteOutput(columns, csvPath, outputPath);
    }

    /** The output half of convertCsvToParquet: create the Parquet file, then write the CSV file's records into it. */
    method WriteOutput(columns: seq<ColumnDescriptor>, csvPath: string, outputPath: string) returns (failure: Option<Failure>)
      requires WellFormed(columns)
      modifies fs
      ensures StepResult(fs.Contents(), failure) == OutputStep(old(fs.Contents()), columns, csvPath, outputPath, res.separator, env.platform)
    {
      var consumer := new RecordConsumer();
      var support := new CsvWriteSupport(columns, env.platform);
      support.PrepareForWrite(consumer);
      fs.parquet := fs.parquet[outputPath := ParquetFile([], false)];
      if csvPath !in fs.files {
        return Some(FileNotFound(csvPath));
      }
      var lines := ReadLines(fs.files[csvPath]);
      var error := WriteRecords(support, lines);
      ghost var t := FileTrace(columns, lines, res.separator, env.platform);
      assert consumer.events == t.events;
      Overwrite(old(fs.parquet), outputPath, ParquetFile([], false), ParquetFile(t.events, t.error.None?));
      fs.parquet := fs.parquet[outputPath := ParquetFile(consumer.events, error.None?)];
      if error.Some? {
        return Some(EncodingFailure(error.value));
      }
      return None;
    }

    /**
     * The loop of convertCsvToParquet: each line, split on the separator,
     * goes to the writer as one record, until a record throws.
     */
    method WriteRecords(support: CsvWriteSupport, lines: seq<string>) returns (error: Option<EncodingError>)
      requires support.recordConsumer != null && WellFormed(support.messageType)
      modifies support.recordConsumer
      ensures support.recordConsumer.events
              == old(support.recordConsumer.events) + FileTrace(support.messageType, lines, res.separator, support.platform).events
      ensures error == FileTrace(support.messageType, lines, res.separator, support.platform).error
    {
      var consumer := support.recordConsumer;
      var columns := support.messageType;
      ghost var log := consumer.events;
      var i := 0;
      while i < |lines|
        invariant 0 <= i <= |lines|
        invariant consumer.events == log + FileTrace(columns, lines[..i], res.separator, support.platform).events
        invariant FileTrace(columns, lines[..i], res.separator, support.platform).error.None?
      {
        ghost var before := FileTrace(columns, lines[..i], res.separator, support.platform).events;
        FileTraceExtend(columns, lines, res.separator, support.platform, i);
        var record := Split(lines[i], res.separator);
        error := support.Write(record);
        LogAppend(log, before, RecordTrace(columns, record, support.platform).events);
        if error.Some? {
          FileTraceStops(columns, lines, res.separator, support.platform, i + 1);
          return;
        }
        i := i + 1;
      }
      assert lines[..i] == lines;
      error := None;
    }

    /** call(): the three steps, then countDown; the output path on success. */
    method Call() returns (r: Result<string, Failure>)
      requires ValidEnvironment(env)
      modifies fs, latch
      ensures (fs.Contents(), r) == CallSteps(old(fs.Contents()), filePath, res, env, latch != null)
      ensures latch != null ==> latch.count == if r.Ok? && old(latch.count) > 0 then old(latch.count) - 1 else old(latch.count)
    {
      var schemaFilePath := SchemaPath(res, filePath);
      var newCsvFilePath := FilteredCsvPath(res, filePath);
      var outputParquetFilePath := OutputPath(res, filePath);
      CallStepsInOrder(fs.Contents(), filePath, res, env, latch != null);
      var failure := CreateSchemaFile(schemaFilePath);
      if failure.Some? {
        return Err(failure.value);
      }
      failure := FilterToNewCsvFile(newCsvFilePath);
      if failure.Some? {
        return Err(failure.value);
      }
      failure := ConvertCsvToParquet(schemaFilePath, newCsvFilePath, outputParquetFilePath);
      if failure.Some? {
        return Err(failure.value);
      }
      if latch == null {
        return Err(NullPointer);
      }
      latch.CountDown();
      return Ok(outputParquetFilePath);
    }
  }

  // ---------------------------------------------------------------------
  // Properties of the conversion
  // ---------------------------------------------------------------------

  /** While no record has failed, one more line appends that line's record to the trace. */
  lemma FileTraceExtend(columns: seq<ColumnDescriptor>, lines: seq<string>, separator: char, platform: Platform, i: nat)
    requires WellFormed(columns) && i < |lines|
    requires FileTrace(columns, lines[..i], separator, platform).error.None?
    ensures var last := RecordTrace(columns, Split(lines[i], separator), platform);
      FileTrace(columns, lines[..i + 1], separator, platform)
      == Trace(FileTrace(columns, lines[..i], separator, platform).events + last.events, last.error)
  {
    assert lines[..i + 1][..i] == lines[..i];
  }

  /** Once a record has failed, one more line adds nothing. */
  lemma FileTraceFailedStep(columns: seq<ColumnDescriptor>, lines: seq<string>, separator: char, platform: Platform, i: nat)
    requires WellFormed(columns) && i < |lines|
    requires FileTrace(columns, lines[..i], separator, platform).error.Some?
    ensures FileTrace(columns, lines[..i + 1], separator, platform) == FileTrace(columns, lines[..i], separator, platform)
  {
    assert lines[..i + 1][..i] == lines[..i];
  }

  /** Once a record has failed, later lines add nothing: the trace of a longer file is that of its prefix. */
  lemma {:induction false} FileTraceStops(columns: seq<ColumnDescriptor>, lines: seq<string>, separator: char, platform: Platform, n: nat)
    requires WellFormed(columns) && n <= |lines|
    requires FileTrace(columns, lines[..n], separator, platform).error.Some?
    ensures FileTrace(columns, lines, separator, platform) == FileTrace(columns, lines[..n], separator, platform)
    decreases |lines| - n
  {
    if n < |lines| {
      FileTraceFailedStep(columns, lines, separator, platform, n);
      FileTraceStops(columns, lines, separator, platform, n + 1);
    } else {
      assert lines[..n] == lines;
    }
  }

  /** How many records `events` starts. */
  function CountStarts(events: seq<Event>): (n: nat)
    ensures n <= |events|
    decreases |events|
  {
    if events == [] then 0
    else CountStarts(events[..|events| - 1]) + (if events[|events| - 1] == StartMessage then 1 else 0)
  }

  lemma {:induction false} CountStartsAppend(a: seq<Event>, b: seq<Event>)
    ensures CountStarts(a + b) == CountStarts(a) + CountStarts(b)
    decreases |b|
  {
    if b != [] {
      assert (a + b)[..|a + b| - 1] == a + b[..|b| - 1];
      CountStartsAppend(a, b[..|b| - 1]);
    } else {
      assert a + b == a;
    }
  }

  /** A record starts exactly one message. */
  lemma RecordStartsOneMessage(columns: seq<ColumnDescriptor>, record: seq<string>, platform: Platform)
    requires WellFormed(columns)
    ensures CountStarts(RecordTrace(columns, record, platform).events) == 1
  {
    var fields := FieldsTrace(columns, record, platform, 0);
    FieldEventsWellPlaced(columns, record, platform, 0);
    NoStarts(fields.events);
    CountStartsAppend([StartMessage], fields.events);
    if fields.error.None? {
      CountStartsAppend([StartMessage] + fields.events, [EndMessage]);
    }
  }

  lemma {:induction false} NoStarts(events: seq<Event>)
    requires NoMessageEvents(events)
    ensures CountStarts(events) == 0
    decreases |events|
  {
    if events != [] {
      NoStarts(events[..|events| - 1]);
    }
  }

  /**
   * A conversion that completes writes exactly one message per line of the
   * CSV file, and a failed one at most one per line up to the failing one.
   */
  lemma {:induction false} OneMessagePerLine(columns: seq<ColumnDescriptor>, lines: seq<string>, separator: char, platform: Platform)
    requires WellFormed(columns)
    ensures FileTrace(columns, lines, separator, platform).error.None? ==>
              CountStarts(FileTrace(columns, lines, separator, platform).events) == |lines|
    ensures CountStarts(FileTrace(columns, lines, separator, platform).events) <= |lines|
    decreases |lines|
  {
    if lines != [] {
      var init := lines[..|lines| - 1];
      OneMessagePerLine(columns, init, separator, platform);
      var before := FileTrace(columns, init, separator, platform);
      if before.error.None? {
        var last := RecordTrace(columns, Split(lines[|lines| - 1], separator), platform);
        RecordStartsOneMessage(columns, Split(lines[|lines| - 1], separator), platform);
        CountStartsAppend(before.events, last.events);
      }
    }
  }

  /**
   * A line whose limit -1 split has as many pieces as the schema has
   * columns, but which ends with the separator, loses its trailing empty
   * field in the default split and so fails with an exception.
   */
  lemma TrailingSeparatorFails(columns: seq<ColumnDescriptor>, line: string, separator: char, platform: Platform)
    requires WellFormed(columns)
    requires |SplitAll(line, separator)| == |columns|
    requires line != [] && line[|line| - 1] == separator
    ensures RecordTrace(columns, Split(line, separator), platform).error.Some?
  {
    assert separator in line;
    SplitShorterIffTrailingDelimiter(line, separator);
    ShortRecordFails(columns, Split(line, separator), platform);
  }

  /**
   * Two inputs share an output file, and a schema file, exactly when their
   * names agree up to the first '.' after the first character.
   */
  lemma OutputPathsCollide(res: Resources, p1: string, p2: string)
    ensures OutputPath(res, p1) == OutputPath(res, p2) <==> Stem(p1) == Stem(p2)
    ensures SchemaPath(res, p1) == SchemaPath(res, p2) <==> Stem(p1) == Stem(p2)
  {
    var a := res.outputFolder + "/";
    if OutputPath(res, p1) == OutputPath(res, p2) {
      var o1 := OutputPath(res, p1);
      var o2 := OutputPath(res, p2);
      assert |Stem(p1)| == |Stem(p2)|;
      assert Stem(p1) == o1[|a|..|a| + |Stem(p1)|];
      assert Stem(p2) == o2[|a|..|a| + |Stem(p2)|];
    }
    var b := res.tempFolder + "/";
    if SchemaPath(res, p1) == SchemaPath(res, p2) {
      var o1 := SchemaPath(res, p1);
      var o2 := SchemaPath(res, p2);
      assert |Stem(p1)| == |Stem(p2)|;
      assert Stem(p1) == o1[|b|..|b| + |Stem(p1)|];
      assert Stem(p2) == o2[|b|..|b| + |Stem(p2)|];
    }
  }

  /** The name of a path is what follows its last '/'. */
  lemma {:induction false} BaseNameOfChild(dir: string, name: string)
    requires '/' !in name
    ensures BaseName(dir + "/" + name) == name
    decreases |name|
  {
    if name == [] {
      assert (dir + "/" + name)[|dir + "/" + name| - 1] == '/';
    } else {
      var p := dir + "/" + name;
      assert p[..|p| - 1] == dir + "/" + name[..|name| - 1];
      BaseNameOfChild(dir, name[..|name| - 1]);
      assert name[..|name| - 1] + [name[|name| - 1]] == name;
    }
  }

  /** The stem of dir/stem.ext is stem, for a stem with no '.' and names without line terminators. */
  lemma StemOfName(dir: string, stem: string, ext: string)
    requires stem != [] && '/' !in stem && '/' !in ext
    requires forall k :: 0 <= k < |stem| ==> stem[k] != '.' && !IsRegexLineTerminator(stem[k])
    requires NoRegexLineTerminator(ext)
    ensures Stem(dir + "/" + (stem + "." + ext)) == stem
  {
    BaseNameOfChild(dir, stem + "." + ext);
    CutAtDotsBeforeExtension(stem, ext, true);
  }

  /**
   * Inputs that differ only in their extensions ("in/a.csv", "in/a.txt")
   * are converted into the same Parquet file, while their filtered copies
   * stay apart.
   */
  lemma ExtensionsCollide(res: Resources, dir: string, stem: string, ext1: string, ext2: string)
    requires stem != [] && '/' !in stem && '/' !in ext1 && '/' !in ext2
    requires forall k :: 0 <= k < |stem| ==> stem[k] != '.' && !IsRegexLineTerminator(stem[k])
    requires NoRegexLineTerminator(ext1) && NoRegexLineTerminator(ext2) && ext1 != ext2
    ensures OutputPath(res, dir + "/" + (stem + "." + ext1)) == OutputPath(res, dir + "/" + (stem + "." + ext2))
    ensures SchemaPath(res, dir + "/" + (stem + "." + ext1)) == SchemaPath(res, dir + "/" + (stem + "." + ext2))
    ensures FilteredCsvPath(res, dir + "/" + (stem + "." + ext1)) != FilteredCsvPath(res, dir + "/" + (stem + "." + ext2))
  {
    StemOfName(dir, stem, ext1);
    StemOfName(dir, stem, ext2);
    BaseNameOfChild(dir, stem + "." + ext1);
    BaseNameOfChild(dir, stem + "." + ext2);
    AppendInjective(stem + ".", ext1, ext2);
    AppendInjective(res.tempFolder + "/", stem + "." + ext1, stem + "." + ext2);
  }

  lemma AppendInjective(p: string, a: string, b: string)
    ensures p + a == p + b ==> a == b
  {
    if p + a == p + b {
      assert a == (p + a)[|p|..];
      assert b == (p + b)[|p|..];
    }
  }

  /**
   * When the input's name is its stem followed by the schema extension,
   * the filtered copy is written over the schema file.
   */
  lemma FilteredCopyOverwritesSchema(res: Resources, path: string)
    requires BaseName(path) == Stem(path) + res.schemaExtension
    ensures FilteredCsvPath(res, path) == SchemaPath(res, path)
  {
  }

  /**
   * An input that already lies in the temporary folder is its own filtered
   * copy: the filter step empties it before reading it.
   */
  lemma InputInTempFolderIsItsCopy(st: State, res: Resources, name: string, env: Environment)
    requires '/' !in name
    requires res.tempFolder + "/" + name in st.files
    ensures FilteredCsvPath(res, res.tempFolder + "/" + name) == res.tempFolder + "/" + name
    ensures var p := res.tempFolder + "/" + name;
      FilterStep(st, p, FilteredCsvPath(res, p), env).state.files[p] == ""
  {
    BaseNameOfChild(res.tempFolder, name);
  }

  // ---------------------------------------------------------------------
  // Properties of call()
  // ---------------------------------------------------------------------

  /** A missing input fails the first step and leaves the file system as it was. */
  lemma MissingInputWritesNothing(st: State, filePath: string, res: Resources, env: Environment, hasLatch: bool)
    requires ValidEnvironment(env) && filePath !in st.files
    ensures CallSteps(st, filePath, res, env, hasLatch) == (st, Err(FileNotFound(filePath)))
  {
  }

  /** An empty input has no first line: the schema step fails and nothing is written. */
  lemma EmptyInputWritesNothing(st: State, filePath: string, res: Resources, env: Environment, hasLatch: bool)
    requires ValidEnvironment(env) && filePath in st.files && st.files[filePath] == ""
    ensures CallSteps(st, filePath, res, env, hasLatch) == (st, Err(NullPointer))
  {
  }

  /** call() returns, when it returns normally, the output path; it fails without a latch. */
  lemma CallReturnsOutputPath(st: State, filePath: string, res: Resources, env: Environment, hasLatch: bool)
    requires ValidEnvironment(env)
    ensures CallSteps(st, filePath, res, env, hasLatch).1.Ok? ==>
              hasLatch && CallSteps(st, filePath, res, env, hasLatch).1.value == OutputPath(res, filePath)
  {
    var s1 := SchemaStep(st, filePath, SchemaPath(res, filePath), res, env);
    if s1.failure.None? {
      var s2 := FilterStep(s1.state, filePath, FilteredCsvPath(res, filePath), env);
      if s2.failure.None? {
        var s3 := ConvertStep(s2.state, SchemaPath(res, filePath), FilteredCsvPath(res, filePath), OutputPath(res, filePath), res, env);
        assert CallSteps(st, filePath, res, env, hasLatch).1
          == if s3.failure.Some? then Err(s3.failure.value) else if !hasLatch then Err(NullPointer) else Ok(OutputPath(res, filePath));
      }
    }
  }

  /** Writing a file twice leaves only the second content. */
  lemma Overwrite<V>(m: map<string, V>, path: string, first: V, second: V)
    ensures m[path := first][path := second] == m[path := second]
  {
  }

  /** call() stops at the first step that throws, and otherwise counts down the latch, if there is one. */
  lemma CallStepsInOrder(st: State, filePath: string, res: Resources, env: Environment, hasLatch: bool)
    requires ValidEnvironment(env)
    ensures var s1 := SchemaStep(st, filePath, SchemaPath(res, filePath), res, env);
      var s2 := FilterStep(s1.state, filePath, FilteredCsvPath(res, filePath), env);
      var s3 := ConvertStep(s2.state, SchemaPath(res, filePath), FilteredCsvPath(res, filePath), OutputPath(res, filePath), res, env);
      CallSteps(st, filePath, res, env, hasLatch)
      == if s1.failure.Some? then (s1.state, Err(s1.failure.value))
         else if s2.failure.Some? then (s2.state, Err(s2.failure.value))
         else if s3.failure.Some? then (s3.state, Err(s3.failure.value))
         else if !hasLatch then (s3.state, Err(NullPointer))
         else (s3.state, Ok(OutputPath(res, filePath)))
  {
  }

  /** A schema step without an exception has read a first line and written the schema built from it. */
  lemma SchemaStepWrites(st: State, filePath: string, schemaPath: string, res: Resources, env: Environment)
    requires SchemaStep(st, filePath, schemaPath, res, env).failure.None?
    ensures filePath in st.files && ReadFirstLine(st.files[filePath]).Some?
    ensures SchemaStep(st, filePath, schemaPath, res, env).state
            == State(st.files[schemaPath := SchemaText(res.schema, InferSchema(ReadFirstLine(st.files[filePath]).value, res.separator, env.isParsable))], st.parquet)
  {
  }

  /**
   * A filter step without an exception has written the matching lines of the
   * input, or nothing at all when it wrote over the input itself.
   */
  lemma FilterStepWrites(st: State, filePath: string, newPath: string, env: Environment)
    requires FilterStep(st, filePath, newPath, env).failure.None?
    ensures filePath in st.files
    ensures newPath != filePath ==>
              FilterStep(st, filePath, newPath, env).state
              == State(st.files[newPath := Terminated(Filtered(ReadLines(st.files[filePath]), env.find), env.lineSeparator)], st.parquet)
    ensures newPath == filePath ==> FilterStep(st, filePath, newPath, env).state == State(st.files[newPath := ""], st.parquet)
  {
  }

  /** The conversion step writes no text file, whatever its outcome. */
  lemma ConvertStepKeepsFiles(st: State, schemaPath: string, csvPath: string, outputPath: string, res: Resources, env: Environment)
    requires ValidEnvironment(env)
    ensures ConvertStep(st, schemaPath, csvPath, outputPath, res, env).state.files == st.files
  {
  }

  /**
   * A conversion step without an exception has parsed the schema and read
   * the CSV file, and leaves a closed Parquet file holding the whole trace
   * of the file's lines.
   */
  lemma ConvertStepWrites(st: State, schemaPath: string, csvPath: string, outputPath: string, res: Resources, env: Environment)
    requires ValidEnvironment(env)
    requires ConvertStep(st, schemaPath, csvPath, outputPath, res, env).failure.None?
    ensures schemaPath in st.files && csvPath in st.files
    ensures env.parseSchema(ReadFile(st.files[schemaPath], env.lineSeparator)).Some?
    ensures var columns := env.parseSchema(ReadFile(st.files[schemaPath], env.lineSeparator)).value;
      var t := FileTrace(columns, ReadLines(st.files[csvPath]), res.separator, env.platform);
      t.error.None?
      && ConvertStep(st, schemaPath, csvPath, outputPath, res, env).state.parquet
         == st.parquet[outputPath := ParquetFile(t.events, true)]
  {
  }

  /** A call that returns normally ran all three steps without an exception. */
  lemma CallStepsAllSucceed(st: State, filePath: string, res: Resources, env: Environment, hasLatch: bool)
    requires ValidEnvironment(env)
    requires CallSteps(st, filePath, res, env, hasLatch).1.Ok?
    ensures var s1 := SchemaStep(st, filePath, SchemaPath(res, filePath), res, env);
      var s2 := FilterStep(s1.state, filePath, FilteredCsvPath(res, filePath), env);
      var s3 := ConvertStep(s2.state, SchemaPath(res, filePath), FilteredCsvPath(res, filePath), OutputPath(res, filePath), res, env);
      s1.failure.None? && s2.failure.None? && s3.failure.None? && CallSteps(st, filePath, res, env, hasLatch).0 == s3.state
  {
    var s1 := SchemaStep(st, filePath, SchemaPath(res, filePath), res, env);
    assert s1.failure.None?;
    var s2 := FilterStep(s1.state, filePath, FilteredCsvPath(res, filePath), env);
    assert s2.failure.None?;
  }

  /** After a successful call the text files are those the schema and filter steps left. */
  lemma CallFiles(st: State, filePath: string, res: Resources, env: Environment)
    requires ValidEnvironment(env)
    requires CallSteps(st, filePath, res, env, true).1.Ok?
    ensures SchemaStep(st, filePath, SchemaPath(res, filePath), res, env).failure.None?
    ensures CallSteps(st, filePath, res, env, true).0.files
            == FilterStep(SchemaStep(st, filePath, SchemaPath(res, filePath), res, env).state,
                          filePath, FilteredCsvPath(res, filePath), env).state.files
  {
    var s1 := SchemaStep(st, filePath, SchemaPath(res, filePath), res, env);
    var s2 := FilterStep(s1.state, filePath, FilteredCsvPath(res, filePath), env);
    CallStepsAllSucceed(st, filePath, res, env, true);
    ConvertStepKeepsFiles(s2.state, SchemaPath(res, filePath), FilteredCsvPath(res, filePath), OutputPath(res, filePath), res, env);
  }

  /** After the schema step, the filter step reads the input as it was before the call. */
  lemma FilteredCopyOfInput(st: State, filePath: string, schemaPath: string, newCsvPath: string, res: Resources, env: Environment)
    requires SchemaStep(st, filePath, schemaPath, res, env).failure.None?
    requires schemaPath != filePath
    ensures filePath in st.files
    ensures FilterStep(SchemaStep(st, filePath, schemaPath, res, env).state, filePath, newCsvPath, env).state.files[newCsvPath]
            == Terminated(Filtered(ReadLines(FilterInput(st, filePath, newCsvPath)), env.find), env.lineSeparator)
  {
    var s1 := SchemaStep(st, filePath, schemaPath, res, env);
    SchemaStepWrites(st, filePath, schemaPath, res, env);
    SameFilteredText(FilterInput(s1.state, filePath, newCsvPath), FilterInput(st, filePath, newCsvPath), env);
  }

  lemma SameFilteredText(a: string, b: string, env: Environment)
    requires a == b
    ensures Terminated(Filtered(ReadLines(a), env.find), env.lineSeparator)
         == Terminated(Filtered(ReadLines(b), env.find), env.lineSeparator)
  {
  }

  /** The filter step leaves the schema file alone unless it writes over it. */
  lemma SchemaOfInput(st: State, filePath: string, schemaPath: string, newCsvPath: string, res: Resources, env: Environment)
    requires SchemaStep(st, filePath, schemaPath, res, env).failure.None?
    requires schemaPath != newCsvPath
    ensures filePath in st.files && ReadFirstLine(st.files[filePath]).Some?
    ensures FilterStep(SchemaStep(st, filePath, schemaPath, res, env).state, filePath, newCsvPath, env).state.files[schemaPath]
            == SchemaText(res.schema, InferSchema(ReadFirstLine(st.files[filePath]).value, res.separator, env.isParsable))
  {
    var s1 := SchemaStep(st, filePath, schemaPath, res, env);
    SchemaStepWrites(st, filePath, schemaPath, res, env);
    FilterStepWrites(s1.state, filePath, newCsvPath, env);
  }

  /**
   * A successful call leaves the filtered copy, the matching lines of the
   * input each followed by the line separator, in the temporary folder; an
   * input that already lies there is emptied instead.
   */
  lemma CallLeavesFilteredCopy(st: State, filePath: string, res: Resources, env: Environment)
    requires ValidEnvironment(env)
    requires CallSteps(st, filePath, res, env, true).1.Ok?
    requires SchemaPath(res, filePath) != filePath
    ensures filePath in st.files
    ensures FilteredCsvPath(res, filePath) in CallSteps(st, filePath, res, env, true).0.files
    ensures CallSteps(st, filePath, res, env, true).0.files[FilteredCsvPath(res, filePath)]
            == if FilteredCsvPath(res, filePath) == filePath then ""
               else Terminated(Filtered(ReadLines(st.files[filePath]), env.find), env.lineSeparator)
  {
    CallFiles(st, filePath, res, env);
    FilteredCopyOfInput(st, filePath, SchemaPath(res, filePath), FilteredCsvPath(res, filePath), res, env);
  }

  /**
   * A successful call leaves a closed Parquet file at the output path
   * holding exactly one message per matching line of the input, and none
   * when the input lies in the temporary folder and was emptied.
   */
  lemma CallWritesOneMessagePerMatchingLine(st: State, filePath: string, res: Resources, env: Environment)
    requires ValidEnvironment(env)
    requires CallSteps(st, filePath, res, env, true).1.Ok?
    requires SchemaPath(res, filePath) != filePath
    ensures filePath in st.files
    ensures OutputPath(res, filePath) in CallSteps(st, filePath, res, env, true).0.parquet
    ensures CallSteps(st, filePath, res, env, true).0.parquet[OutputPath(res, filePath)].closed
    ensures CountStarts(CallSteps(st, filePath, res, env, true).0.parquet[OutputPath(res, filePath)].events)
            == if FilteredCsvPath(res, filePath) == filePath then 0 else |Filtered(ReadLines(st.files[filePath]), env.find)|
  {
    var schemaPath := SchemaPath(res, filePath);
    var newCsvPath := FilteredCsvPath(res, filePath);
    var outputPath := OutputPath(res, filePath);
    CallStepsAllSucceed(st, filePath, res, env, true);
    FilteredCopyOfInput(st, filePath, schemaPath, newCsvPath, res, env);
    var s1 := SchemaStep(st, filePath, schemaPath, res, env);
    var s2 := FilterStep(s1.state, filePath, newCsvPath, env);
    ConvertStepWrites(s2.state, schemaPath, newCsvPath, outputPath, res, env);
    var matching := Filtered(ReadLines(FilterInput(st, filePath, newCsvPath)), env.find);
    FilteredFileReadsBack(FilterInput(st, filePath, newCsvPath), env.find, env.lineSeparator);
    assert ReadLines(s2.state.files[newCsvPath]) == matching;
    var columns := env.parseSchema(ReadFile(s2.state.files[schemaPath], env.lineSeparator)).value;
    OneMessagePerLine(columns, matching, res.separator, env.platform);
  }

  /**
   * After a successful call the schema file holds the schema inferred from
   * the input's first line, unless the filtered copy was written over it.
   */
  lemma CallLeavesSchema(st: State, filePath: string, res: Resources, env: Environment)
    requires ValidEnvironment(env)
    requires CallSteps(st, filePath, res, env, true).1.Ok?
    requires SchemaPath(res, filePath) != FilteredCsvPath(res, filePath)
    ensures filePath in st.files && st.files[filePath] != ""
    ensures SchemaPath(res, filePath) in CallSteps(st, filePath, res, env, true).0.files
    ensures CallSteps(st, filePath, res, env, true).0.files[SchemaPath(res, filePath)]
            == SchemaText(res.schema, InferSchema(ReadFirstLine(st.files[filePath]).value, res.separator, env.isParsable))
  {
    CallFiles(st, filePath, res, env);
    SchemaOfInput(st, filePath, SchemaPath(res, filePath), FilteredCsvPath(res, filePath), res, env);
  }
}
