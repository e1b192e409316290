# CsvToParquet conversion core in Dafny

This project models the per-file conversion job of the CsvToParquet service.
The job is the `ParquetConverter` callable. It works on one downloaded CSV
file and takes four steps:

1. It derives three paths from the input's name: the filtered copy, the schema
   file and the Parquet output. The schema and output names are the input's
   name with every extension removed (`FileManagementService.removeFileExtension`).
2. `createSchemaFile` reads the first line. If any of its fields looks like
   data, it writes a positional default schema (`createDefaultHeader`).
   Otherwise it writes a schema named after the header fields (`convertHeader`).
3. `filterToNewCsvFile` copies every line for which the configured pattern
   finds a match.
4. `convertCsvToParquet` parses the schema text and feeds each line of the copy
   to `CsvWriteSupport.write`, split on the separator. It stops at the first
   exception.

The guard that `FileManagementService.newFile` applies to archive entries is
modelled as well.

Modules, one per concern:

- `JavaStrings`: the `java.lang` behaviour the job relies on. This covers
  `String.split` with limit -1 and with the default limit, `String.trim`,
  `Integer.toString`, `Integer.parseInt` / `Long.parseLong` and
  `Boolean.parseBoolean`.
- `LineIO`: the lines `BufferedReader.readLine` returns, and the text that
  writing `line + ls` line by line produces.
- `FileNames`: `removeFileExtension` in both modes, and `newFile`.
- `SchemaInference`: the header/data decision, plus `createDefaultHeader` and
  `convertHeader` as loops proved against a rendering function.
- `RowFilter`: the filter loop.
- `WriteSupport`: `CsvWriteSupport` as a class whose record consumer is the log
  of the calls it receives.
- `Converter`:
  - the file system, as a map of texts and a map of Parquet files;
  - each step, as a function of the file system;
  - the `ParquetConverter` class, whose methods are proved to match those
    functions;
  - the properties of a whole `call()`.

## Model

| member | source | states |
|---|---|---|
| JavaStrings.SplitAll | src/main/java/org/example/s3ToParquetFilter/service/impl/ParquetConverter.java:180 | split with limit -1 yields at least one piece, and no piece holds the separator |
| JavaStrings.JoinSplitAll | src/main/java/org/example/s3ToParquetFilter/service/impl/ParquetConverter.java:180 | joining the limit -1 pieces with the separator gives back the header text |
| JavaStrings.SplitAllJoin | src/main/java/org/example/s3ToParquetFilter/service/impl/ParquetConverter.java:180 | separator-free pieces joined with the separator are split back into exactly those pieces |
| JavaStrings.LastPieceEmpty | src/main/java/org/example/s3ToParquetFilter/service/impl/ParquetConverter.java:180 | the last limit -1 piece is empty iff the text is empty or ends with the separator |
| JavaStrings.DropTrailingEmpty | src/main/java/org/example/s3ToParquetFilter/service/impl/ParquetConverter.java:121 | the result is a prefix of the pieces, only empty pieces were removed, and it does not end with an empty piece |
| JavaStrings.Split | src/main/java/org/example/s3ToParquetFilter/service/impl/ParquetConverter.java:121 | default-limit split: `[s]` when the separator is absent, otherwise the limit -1 pieces minus the trailing empty ones |
| JavaStrings.SplitShorterIffTrailingDelimiter | src/main/java/org/example/s3ToParquetFilter/service/impl/ParquetConverter.java:208 | the default split is never longer than the limit -1 split, and is shorter iff the separator occurs and the text ends with it |
| JavaStrings.LeadingBlanks | src/main/java/org/example/s3ToParquetFilter/service/impl/ParquetConverter.java:123 | trim's start: every character before it is at most U+0020 and the character at it is above U+0020 |
| JavaStrings.TrimmedEnd | src/main/java/org/example/s3ToParquetFilter/service/impl/ParquetConverter.java:123 | trim's end: every character from it on is at most U+0020 and the one before it is above U+0020 |
| JavaStrings.TrimmedHasSpace | src/main/java/org/example/s3ToParquetFilter/service/impl/ParquetConverter.java:123 | `col.trim().contains(" ")` holds iff the field has a space with a non-blank character somewhere before it and another somewhere after it |
| JavaStrings.NatToDecimal | src/main/java/org/example/s3ToParquetFilter/service/impl/ParquetConverter.java:161 | the decimal text of a position is non-empty and all digits, with no leading zero |
| JavaStrings.NatToDecimalValue | src/main/java/org/example/s3ToParquetFilter/service/impl/ParquetConverter.java:161 | the decimal digits denote the number written |
| JavaStrings.NatToDecimalInjective | src/main/java/org/example/s3ToParquetFilter/service/impl/ParquetConverter.java:161 | different positions get different decimal texts |
| JavaStrings.ParseDecimal | src/main/java/org/example/s3ToParquetFilter/service/impl/CsvWriteSupport.java:52-57 | an accepted text is an optional sign followed by digits; its value is the digits' value, negated after '-', and lies in the int / long range |
| JavaStrings.ParseSignedDigits | src/main/java/org/example/s3ToParquetFilter/service/impl/CsvWriteSupport.java:52-57 | conversely, every optional sign followed by at least one digit is accepted exactly when its value is in range, and parses to that value |
| JavaStrings.ParseIntExamples | src/main/java/org/example/s3ToParquetFilter/service/impl/CsvWriteSupport.java:53 | "+7" and "007" parse to 7 and "-0" to 0; "+", "-" and "" are refused |
| JavaStrings.ParseDecimalOfToString | src/main/java/org/example/s3ToParquetFilter/service/impl/CsvWriteSupport.java:52-57 | parsing the decimal text of n gives n iff n is in range, and fails otherwise (negative numbers included) |
| JavaStrings.ParseBooleanTrue | src/main/java/org/example/s3ToParquetFilter/service/impl/CsvWriteSupport.java:43-45 | parseBoolean is true exactly for the spellings of "true" in any letter case |
| LineIO.LineLength | src/main/java/org/example/s3ToParquetFilter/service/impl/ParquetConverter.java:207 | a line ends at the first '\n' or '\r' and holds neither |
| LineIO.ReadLines | src/main/java/org/example/s3ToParquetFilter/service/impl/ParquetConverter.java:204-209 | readLine never returns a line break inside a line, and returns nothing exactly for empty text |
| LineIO.ReadFirstLine | src/main/java/org/example/s3ToParquetFilter/service/impl/ParquetConverter.java:119 | the first line is null exactly for an empty file; otherwise it is a break-free prefix of the text |
| LineIO.TerminatedAppend | src/main/java/org/example/s3ToParquetFilter/service/impl/ParquetConverter.java:100-105 | writing two runs of lines one after the other writes their texts one after the other |
| LineIO.ReadTerminated | src/main/java/org/example/s3ToParquetFilter/service/impl/ParquetConverter.java:99-105 | round trip: break-free lines written with a standard line separator are read back exactly |
| FileNames.RemoveFileExtension | src/main/java/org/example/s3ToParquetFilter/service/FileManagementService.java:170-177 | null stays null; the result is never longer than the name; the first character is kept; with all extensions removed, no '.' is left past index 0 |
| FileNames.CutAtDots | src/main/java/org/example/s3ToParquetFilter/service/FileManagementService.java:175-176 | the `(?<!^)[.].*` replacement never lengthens, leaves no '.' past the start, and keeps the first character |
| FileNames.CutLastDot | src/main/java/org/example/s3ToParquetFilter/service/FileManagementService.java:175-176 | the `(?<!^)[.][^.]*$` replacement is a prefix; when it cuts, it cuts at the last '.', which is not at index 0; when it does not cut, no '.' follows index 0 |
| FileNames.NullOrEmptyUnchanged | src/main/java/org/example/s3ToParquetFilter/service/FileManagementService.java:171-173 | null and "" come back unchanged in both modes |
| FileNames.CutAtDotsIsPrefix | src/main/java/org/example/s3ToParquetFilter/service/FileManagementService.java:175-176 | without line terminators, removing all extensions keeps a prefix that stops at a '.' past index 0, or the whole name |
| FileNames.CutAtDotsUnchanged | src/main/java/org/example/s3ToParquetFilter/service/FileManagementService.java:175-176 | a name with no '.' past index 0 is unchanged |
| FileNames.RemoveAllIdempotent | src/main/java/org/example/s3ToParquetFilter/service/FileManagementService.java:170-177 | removing all extensions twice is removing them once, for every name |
| FileNames.RemoveFileExtensionIsPrefix | src/main/java/org/example/s3ToParquetFilter/service/FileManagementService.java:170-177 | without line terminators, both modes return a prefix of the name |
| FileNames.RemoveAllCutsNoLaterThanRemoveLast | src/main/java/org/example/s3ToParquetFilter/service/FileManagementService.java:170-177 | without line terminators, the all-extensions result is a prefix of the last-extension result |
| FileNames.LeadingDotNeverRemoved | src/main/java/org/example/s3ToParquetFilter/service/FileManagementService.java:175 | a hidden name like ".bashrc" is unchanged in both modes |
| FileNames.CutAtDotsBeforeExtension | src/main/java/org/example/s3ToParquetFilter/service/FileManagementService.java:175-176 | for a dot-free stem, `stem.ext` loses everything from the first '.' |
| FileNames.RemoveAllExample | src/main/java/org/example/s3ToParquetFilter/service/FileManagementService.java:170-177 | "data.tar.gz" becomes "data" when all extensions are removed |
| FileNames.RemoveLastExample | src/main/java/org/example/s3ToParquetFilter/service/FileManagementService.java:170-177 | "data.tar.gz" becomes "data.tar" when only the last extension is removed |
| FileNames.NewFile | src/main/java/org/example/s3ToParquetFilter/service/FileManagementService.java:152-162 | an accepted entry's canonical path is the directory's canonical path, then the separator, then more; a refused entry gets the message naming it |
| FileNames.NewFileAcceptsInside | src/main/java/org/example/s3ToParquetFilter/service/FileManagementService.java:157 | every path below the destination directory is accepted |
| FileNames.NewFileRejectsSiblings | src/main/java/org/example/s3ToParquetFilter/service/FileManagementService.java:157-159 | the directory itself, and siblings that only extend its name ("/out" vs "/output/x"), are refused |
| SchemaInference.DefaultNames | src/main/java/org/example/s3ToParquetFilter/service/impl/ParquetConverter.java:159-163 | the default names are "1" .. "n", in order |
| SchemaInference.ScanFirstLine | src/main/java/org/example/s3ToParquetFilter/service/impl/ParquetConverter.java:121-127 | needsDefaultSchema holds iff some field is parsable or has a space after trimming; the loop breaks at the first such field, and no earlier field is one |
| SchemaInference.CreateDefaultHeader | src/main/java/org/example/s3ToParquetFilter/service/impl/ParquetConverter.java:153-167 | the builder's text is the message with positional fields 1..size, the i-th at position i |
| SchemaInference.ConvertHeader | src/main/java/org/example/s3ToParquetFilter/service/impl/ParquetConverter.java:175-190 | the builder's text is the message with one field per limit -1 piece of the header, in order, named by the untrimmed piece |
| SchemaInference.SchemaFileText | src/main/java/org/example/s3ToParquetFilter/service/impl/ParquetConverter.java:118-144 | the text written is the rendering of the schema the first line selects |
| SchemaInference.FieldsTextPrefix | src/main/java/org/example/s3ToParquetFilter/service/impl/ParquetConverter.java:182-186 | the entries of the first k names open the entries of all names |
| SchemaInference.FieldAt | src/main/java/org/example/s3ToParquetFilter/service/impl/ParquetConverter.java:182-186 | field j carries names[j] verbatim and position j + 1, right after the earlier fields |
| SchemaInference.HeaderFieldAt | src/main/java/org/example/s3ToParquetFilter/service/impl/ParquetConverter.java:180-186 | inside the whole message, field j of the header schema is the j-th untrimmed piece of the header at position j + 1 |
| SchemaInference.DefaultSchemaNamesFields | src/main/java/org/example/s3ToParquetFilter/service/impl/ParquetConverter.java:153-167 | when the default opening is the field opening plus " field_", the default schema of n fields equals the header schema of "field_1".."field_n" |
| SchemaInference.PlainNameIsColumnName | src/main/java/org/example/s3ToParquetFilter/service/impl/ParquetConverter.java:123 | a lower-case name that isParsable rejects does not look like data and does not contain the separator |
| SchemaInference.HeaderOfNames | src/main/java/org/example/s3ToParquetFilter/service/impl/ParquetConverter.java:121-138 | a first line joined from one or more separator-free names, none of which looks like data, is taken as a header naming exactly those columns, trailing empty names included |
| SchemaInference.HeaderTestChoice | src/test/java/org/example/s3ToParquetFilter/ParquetConverterTest.java:58-60 | the test's header line "name,real_age,favorite_food" selects the header schema of its three names |
| SchemaInference.HeaderTestRendering | src/test/java/org/example/s3ToParquetFilter/ParquetConverterTest.java:58-59 | with the test's resource values, that header schema is the expected text |
| SchemaInference.HeaderTestExample | src/test/java/org/example/s3ToParquetFilter/ParquetConverterTest.java:58-60 | the schema file for the headed test input is "message csv {required binary name = 1;...}" |
| SchemaInference.DefaultTestExample | src/test/java/org/example/s3ToParquetFilter/ParquetConverterTest.java:81-83 | a three-column default schema is "message csv {required binary field_1 = 1;...}" |
| RowFilter.Filtered | src/main/java/org/example/s3ToParquetFilter/service/impl/ParquetConverter.java:100-105 | the kept lines are exactly the lines on which the pattern finds a match; there are no more of them than lines |
| RowFilter.FilteredAppend | src/main/java/org/example/s3ToParquetFilter/service/impl/ParquetConverter.java:100-105 | filtering distributes over concatenation, so order is kept |
| RowFilter.FilterAll | src/main/java/org/example/s3ToParquetFilter/service/impl/ParquetConverter.java:100-105 | a pattern that matches every line keeps the input as is |
| RowFilter.FilterNone | src/main/java/org/example/s3ToParquetFilter/service/impl/ParquetConverter.java:100-105 | a pattern that matches no line leaves nothing |
| RowFilter.FilterIdempotent | src/main/java/org/example/s3ToParquetFilter/service/impl/ParquetConverter.java:100-105 | filtering the filtered lines again changes nothing |
| RowFilter.WriteMatchingLines | src/main/java/org/example/s3ToParquetFilter/service/impl/ParquetConverter.java:99-105 | the loop writes `line + ls` for each matching line, in order |
| RowFilter.FilteredFileReadsBack | src/test/java/org/example/s3ToParquetFilter/ParquetConverterTest.java:55-57 | reading the new file back yields exactly the matching lines, so its line count is their number |
| WriteSupport.ValueEvent | src/main/java/org/example/s3ToParquetFilter/service/impl/CsvWriteSupport.java:42-63 | the switch fails iff the type is unsupported (naming the type) or the parse fails (naming the text); otherwise it makes one value call |
| WriteSupport.FieldsTrace | src/main/java/org/example/s3ToParquetFilter/service/impl/CsvWriteSupport.java:38-66 | the loop over columns ends without an exception only if the record has a value for every column |
| WriteSupport.FieldEventsWellPlaced | src/main/java/org/example/s3ToParquetFilter/service/impl/CsvWriteSupport.java:38-66 | the field loop never starts or ends a message; each startField/endField names column i by path[0], at its index, and only for a non-empty value |
| WriteSupport.CsvWriteSupport.constructor | src/main/java/org/example/s3ToParquetFilter/service/impl/CsvWriteSupport.java:20-22 | keeps the message type; no consumer yet |
| WriteSupport.CsvWriteSupport.PrepareForWrite | src/main/java/org/example/s3ToParquetFilter/service/impl/CsvWriteSupport.java:30-32 | later records go to the given consumer |
| WriteSupport.CsvWriteSupport.Write | src/main/java/org/example/s3ToParquetFilter/service/impl/CsvWriteSupport.java:35-68 | the consumer's log grows by exactly the record's calls, and the exception is the record's |
| WriteSupport.RecordFramed | src/main/java/org/example/s3ToParquetFilter/service/impl/CsvWriteSupport.java:35-68 | a record opens with startMessage, ends with endMessage iff no exception occurred, and starts or ends no other message |
| WriteSupport.EmptyFieldOmitted | src/main/java/org/example/s3ToParquetFilter/service/impl/CsvWriteSupport.java:39-40 | an empty value gets no startField/endField |
| WriteSupport.FieldsInIncreasingOrder | src/main/java/org/example/s3ToParquetFilter/service/impl/CsvWriteSupport.java:38-41 | startField calls come in strictly increasing column order |
| WriteSupport.NonEmptyFieldWritten | src/main/java/org/example/s3ToParquetFilter/service/impl/CsvWriteSupport.java:40-64 | in a completed record, every non-empty value appears as startField, its value call and endField, adjacent |
| WriteSupport.ExtraValuesIgnored | src/main/java/org/example/s3ToParquetFilter/service/impl/CsvWriteSupport.java:38-39 | values past the last column do not change the calls |
| WriteSupport.ShortRecordFails | src/main/java/org/example/s3ToParquetFilter/service/impl/CsvWriteSupport.java:39 | a record with fewer values than columns always ends in an exception |
| WriteSupport.BooleanOrBinaryNeverFail | src/main/java/org/example/s3ToParquetFilter/service/impl/CsvWriteSupport.java:42-60 | with only BOOLEAN/BINARY columns, a record fails iff it is short, and then with IndexOutOfBounds at its length |
| WriteSupport.FailureLeavesFieldOpen | src/main/java/org/example/s3ToParquetFilter/service/impl/CsvWriteSupport.java:41-64 | a value that cannot be written leaves its startField as the last call, never closed |
| WriteSupport.UnsupportedTypeNamed | src/main/java/org/example/s3ToParquetFilter/service/impl/CsvWriteSupport.java:61-62 | an unsupported-type failure names the type of a column with a non-empty value |
| WriteSupport.IntegerValues | src/main/java/org/example/s3ToParquetFilter/service/impl/CsvWriteSupport.java:52-57 | INT32/INT64 columns write n for its decimal text iff n is in range, and throw otherwise |
| WriteSupport.BooleanValues | src/main/java/org/example/s3ToParquetFilter/service/impl/CsvWriteSupport.java:43-45 | a BOOLEAN column never fails, and writes true exactly for "true" in any case |
| WriteSupport.BinaryInjective | src/main/java/org/example/s3ToParquetFilter/service/impl/CsvWriteSupport.java:58-60 | with an injective charset, different texts become different binaries |
| Converter.BaseName | src/main/java/org/example/s3ToParquetFilter/service/impl/ParquetConverter.java:65-66 | getName is the suffix after the last '/', free of '/' |
| Converter.BaseNameOfChild | src/main/java/org/example/s3ToParquetFilter/service/impl/ParquetConverter.java:65-66 | the name of `dir/name` is `name` |
| Converter.StemOfName | src/main/java/org/example/s3ToParquetFilter/service/impl/ParquetConverter.java:67-72 | the stem of `dir/stem.ext` is `stem` |
| Converter.OutputPathsCollide | src/main/java/org/example/s3ToParquetFilter/service/impl/ParquetConverter.java:67-72 | two inputs share a schema path, and likewise an output path, iff their stems are equal |
| Converter.ExtensionsCollide | src/main/java/org/example/s3ToParquetFilter/service/impl/ParquetConverter.java:66-72 | "a.csv" and "a.txt" share schema and output paths, but their filtered copies stay apart |
| Converter.FilteredCopyOverwritesSchema | src/main/java/org/example/s3ToParquetFilter/service/impl/ParquetConverter.java:66-69 | when the name is its stem plus the schema extension, the filtered copy goes to the schema path |
| Converter.FileTraceExtend | src/main/java/org/example/s3ToParquetFilter/service/impl/ParquetConverter.java:207-209 | while no record has failed, one more line appends its record's calls |
| Converter.FileTraceFailedStep | src/main/java/org/example/s3ToParquetFilter/service/impl/ParquetConverter.java:207-209 | after a failed record, one more line adds nothing |
| Converter.FileTraceStops | src/main/java/org/example/s3ToParquetFilter/service/impl/ParquetConverter.java:207-209 | after a failed record, the rest of the file is never written |
| Converter.RecordStartsOneMessage | src/main/java/org/example/s3ToParquetFilter/service/impl/CsvWriteSupport.java:35-68 | each record starts exactly one message |
| Converter.OneMessagePerLine | src/main/java/org/example/s3ToParquetFilter/service/impl/ParquetConverter.java:207-209 | a completed conversion writes exactly one message per line; a failed one writes at most one per line |
| Converter.TrailingSeparatorFails | src/main/java/org/example/s3ToParquetFilter/service/impl/ParquetConverter.java:208 | a line with one piece per column that ends with the separator loses its last field to split and throws |
| Converter.CountDownLatch.CountDown | src/main/java/org/example/s3ToParquetFilter/service/impl/ParquetConverter.java:81 | the count drops by one, never below zero |
| Converter.ParquetConverter.constructor | src/main/java/org/example/s3ToParquetFilter/service/impl/ParquetConverter.java:43-54 | keeps the path, the latch (null for the one-argument constructor) and the settings |
| Converter.ParquetConverter.CreateSchemaFile | src/main/java/org/example/s3ToParquetFilter/service/impl/ParquetConverter.java:118-144 | the new file system and the exception are those of the schema step: a missing input throws, an empty input throws NullPointerException, otherwise the inferred schema is written |
| Converter.ParquetConverter.FilterToNewCsvFile | src/main/java/org/example/s3ToParquetFilter/service/impl/ParquetConverter.java:93-109 | matches the filter step: a missing input throws, otherwise the new file holds the matching lines |
| Converter.ParquetConverter.ConvertCsvToParquet | src/main/java/org/example/s3ToParquetFilter/service/impl/ParquetConverter.java:198-214 | matches the conversion step: missing schema, rejected schema, missing CSV and a failing record each end it with their own exception |
| Converter.ParquetConverter.WriteOutput | src/main/java/org/example/s3ToParquetFilter/service/impl/ParquetConverter.java:200-213 | the output is created empty and open before the CSV is opened; it is closed only when every record was written |
| Converter.ParquetConverter.WriteRecords | src/main/java/org/example/s3ToParquetFilter/service/impl/ParquetConverter.java:204-213 | the consumer receives the calls of each line's record in order up to the first exception, which is returned |
| Converter.ParquetConverter.Call | src/main/java/org/example/s3ToParquetFilter/service/impl/ParquetConverter.java:63-84 | the file system and the result are those of the three steps in order; the latch is counted down only on success |
| Converter.MissingInputWritesNothing | src/main/java/org/example/s3ToParquetFilter/service/impl/ParquetConverter.java:118-119 | a missing input fails with FileNotFound and leaves the file system unchanged |
| Converter.EmptyInputWritesNothing | src/main/java/org/example/s3ToParquetFilter/service/impl/ParquetConverter.java:119-121 | an empty input fails with NullPointerException and leaves the file system unchanged |
| Converter.CallReturnsOutputPath | src/main/java/org/example/s3ToParquetFilter/service/impl/ParquetConverter.java:63-84 | a normal return implies a latch was present and yields the output path |
| Converter.SchemaStepWrites | src/main/java/org/example/s3ToParquetFilter/service/impl/ParquetConverter.java:118-144 | a schema step without an exception read a first line and wrote the schema inferred from it, and nothing else |
| Converter.FilterStepWrites | src/main/java/org/example/s3ToParquetFilter/service/impl/ParquetConverter.java:93-109 | a filter step without an exception wrote the input's matching lines and nothing else; when the new file is the input itself, the writer empties it before the first read and the copy is empty |
| Converter.ConvertStepKeepsFiles | src/main/java/org/example/s3ToParquetFilter/service/impl/ParquetConverter.java:198-214 | the conversion step writes no text file |
| Converter.ConvertStepWrites | src/main/java/org/example/s3ToParquetFilter/service/impl/ParquetConverter.java:198-214 | a successful conversion parsed the schema and left a closed Parquet file holding the complete trace of the CSV's lines |
| Converter.CallStepsAllSucceed | src/main/java/org/example/s3ToParquetFilter/service/impl/ParquetConverter.java:76-83 | a normal return means all three steps ran without an exception |
| Converter.CallFiles | src/main/java/org/example/s3ToParquetFilter/service/impl/ParquetConverter.java:76-78 | after a successful call, the text files are those left by the schema and filter steps |
| Converter.FilteredCopyOfInput | src/main/java/org/example/s3ToParquetFilter/service/impl/ParquetConverter.java:76-77 | the filter step after the schema step reads the input as it was before the call (or nothing, when it writes over the input) |
| Converter.SchemaOfInput | src/main/java/org/example/s3ToParquetFilter/service/impl/ParquetConverter.java:76-77 | the filter step leaves the schema file alone unless it writes over it |
| Converter.CallLeavesFilteredCopy | src/main/java/org/example/s3ToParquetFilter/service/impl/ParquetConverter.java:63-84 | after a successful call, the filtered copy holds the input's matching lines, each followed by the line separator; an input already in the temporary folder is left empty |
| Converter.CallLeavesSchema | src/main/java/org/example/s3ToParquetFilter/service/impl/ParquetConverter.java:63-84 | after a successful call, the input was non-empty and the schema file holds the schema inferred from its first line |
| Converter.CallWritesOneMessagePerMatchingLine | src/main/java/org/example/s3ToParquetFilter/service/impl/ParquetConverter.java:63-84 | after a successful call, the output is a closed Parquet file with exactly one message per matching input line, or none when the input lay in the temporary folder |
| Converter.InputInTempFolderIsItsCopy | src/main/java/org/example/s3ToParquetFilter/service/impl/ParquetConverter.java:97-99 | an input already in the temporary folder is its own filtered copy, and the filter step leaves it empty |

## Left out

- Threads, the executor that runs the callables, and logging are not modelled. Each `call()` is a sequential method.
- Input and output are not modelled. The file system is a map from paths to text plus a map from paths to Parquet files. Directories, permissions and I/O errors other than a missing file are not modelled.
- The file read by the schema step and the filter step is a single snapshot. The model does not cover the input changing between the two reads.
- `Converter.CallLeavesFilteredCopy` and `Converter.CallWritesOneMessagePerMatchingLine` require that the schema path is not the input's path. `Converter.CallLeavesSchema` requires that the schema path is not the filtered copy's path. `Converter.FilteredCopyOverwritesSchema` shows when the latter happens. The case where the filtered copy's path is the input's path is modelled: the copy is then empty.
- The text files and the Parquet files are kept in two separate maps. A Parquet output written at the path of a text file is not modelled.
- `Converter.OutputStep`: replaces an existing Parquet file at the output path. The Parquet writer library may instead refuse to create a file that already exists; that behaviour is not modelled.
- `Pattern.compile` on a malformed `pattern` resource throws `PatternSyntaxException` after the schema file is written. `Converter.FilterStep` fails only when the input is missing, because the pattern is the parameter `find`.
- Charsets are not modelled. The filter reads the input as UTF-8, while the writer of the copy and the reader of the conversion use the default charset. In the model, text is a sequence of characters throughout.
- Regular expressions: `Pattern.compile(...).matcher(line).find()` is a parameter `find`. `removeFileExtension`'s two patterns are written out by hand. The case-insensitive flag and the pattern text belong to the parameter.
- `NumberUtils.isParsable` is a parameter `isParsable`.
- `MessageTypeParser.parseMessageType` is a parameter `parseSchema` returning the column descriptors, or nothing for a rejected text. The Parquet schema grammar is not modelled.
- `Float.parseFloat` and `Double.parseDouble` are parameters that only accept or reject a text. A float or double value is recorded by its text, because floating point is not modelled.
- The default charset's `getBytes` is a parameter `encode`.
- The Parquet file layout is not modelled: pages, row groups, dictionary encoding and `enableDictionary`. A Parquet file is the log of record-consumer calls it received, plus whether its writer was closed.
- `CsvWriteSupport.init` and the write context it returns are not modelled.
- `File.getCanonicalPath` is not modelled: `FileNames.NewFile` takes the canonical paths as given. `File.getName` is modelled for '/' separators only. `Converter.BaseName` gives "" for a path ending in '/', where `File` drops the trailing '/' first; the job's input paths come from a directory listing and never end in '/'.
- The other operations of `FileManagementService` are not modelled: directories, zip compression and extraction, and downloads. Only `newFile`'s guard and `removeFileExtension` belong to the job. `readFile` appears as `Converter.ReadFile`.
- The two Java constructors of `ParquetConverter` are one constructor whose latch may be null. The resource bundle is a `Resources` value.
- `JavaStrings.ParseDecimal`: accepts only ASCII digits. `Integer.parseInt` and `Long.parseLong` also accept other Unicode decimal digits.
- `JavaStrings.Split` and `JavaStrings.SplitAll`: model a separator that is one literal character, which is how `csv.separator` is used. A separator that is a regular expression with metacharacters is not modelled.
- `FileNames.RemoveFileExtensionIsPrefix` and the other prefix lemmas about `removeFileExtension`: hold for names without regex line terminators. The function itself models the terminator case, where `.*` stops at the line end.
- Behaviour of the code worth noting:
  - The positional default schema writes the field opening `message.field.opening.default` followed by the position. With the test resources this gives `field_1`, `field_2` and so on, not bare numbers.
  - `isParsable` is applied to the untrimmed field. Only the space test uses `trim`.
  - The data/header decision scans the default-limit split of the first line. The header names come from the limit -1 split.
- `Converter.ParquetConverter.WriteOutput` and `Converter.ParquetConverter.WriteRecords` are parts of `convertCsvToParquet`, split out to keep each proof small. They are not separate methods in the source.
