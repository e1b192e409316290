/**
 * ParquetConverter's schema step: the first CSV line decides between a
 * positional default schema and one named after the header fields, and
 * the chosen schema is rendered as message-type text field by field.
 */
module SchemaInference {
  import opened JavaStrings

  /** The schema-text constants of the application's resource bundle. */
  datatype SchemaResources = SchemaResources(
    messageOpening: string,       // message.opening
    fieldOpening: string,         // message.field.opening
    fieldOpeningDefault: string,  // message.field.opening.default
    fieldClosing: string,         // message.field.closing
    messageClosing: string)       // message.closing

  /** The values the repository's tests run with. */
  const TestResources := SchemaResources("message csv {", "required binary", "required binary field_", ";", "}")

  /** One field entry: opening, name, " = ", decimal position, closing. */
  function FieldText(prefix: string, name: string, position: nat, closing: string): string
  {
    prefix + (name + " = " + NatToDecimal(position)) + closing
  }

  /** The field entries for `names` in order, the i-th (counting from 1) at position i. */
  function FieldsText(prefix: string, names: seq<string>, closing: string): string
    decreases |names|
  {
    if names == [] then ""
    else FieldsText(prefix, names[..|names| - 1], closing)
         + FieldText(prefix, names[|names| - 1], |names|, closing)
  }

  /** The whole message: opening, the field entries, closing. */
  function MessageText(res: SchemaResources, prefix: string, names: seq<string>): string
  {
    res.messageOpening + FieldsText(prefix, names, res.fieldClosing) + res.messageClosing
  }

  /** The names written after message.field.opening.default: "1", ..., "n". */
  function DefaultNames(n: nat): (names: seq<string>)
    ensures |names| == n
    ensures forall i :: 0 <= i < n ==> names[i] == NatToDecimal(i + 1)
  {
    if n == 0 then [] else DefaultNames(n - 1) + [NatToDecimal(n)]
  }

  /** The schema the first line leads to. */
  datatype SchemaChoice = DefaultSchema(size: nat) | HeaderSchema(names: seq<string>)

  /** The test that makes a first-line field count as data rather than a column name. */
  predicate LooksLikeData(column: string, isParsable: string -> bool)
  {
    isParsable(column) || ' ' in Trim(column)
  }

  /**
   * createSchemaFile's decision: the first line split with trailing empty
   * fields dropped is scanned; one data-like field selects the default
   * schema with one field per such piece, otherwise the fields of the line
   * split with limit -1 name the columns.
   */
  function InferSchema(firstLine: string, separator: char, isParsable: string -> bool): SchemaChoice
  {
    var columns := Split(firstLine, separator);
    if exists k :: 0 <= k < |columns| && LooksLikeData(columns[k], isParsable) then DefaultSchema(|columns|)
    else HeaderSchema(SplitAll(firstLine, separator))
  }

  /** The text createDefaultHeader or convertHeader writes for a choice. */
  function SchemaText(res: SchemaResources, choice: SchemaChoice): string
  {
    match choice
    case DefaultSchema(n) => MessageText(res, res.fieldOpeningDefault, DefaultNames(n))
    case HeaderSchema(names) => MessageText(res, res.fieldOpening + " ", names)
  }

  /**
   * The loop of createSchemaFile over the first line's fields: it stops at
   * the first data-like field (`stop` is where the `break` happens) and
   * otherwise runs through all of them.
   */
  method ScanFirstLine(columns: seq<string>, isParsable: string -> bool) returns (needsDefaultSchema: bool, stop: nat)
    ensures needsDefaultSchema <==> exists k :: 0 <= k < |columns| && LooksLikeData(columns[k], isParsable)
    ensures stop <= |columns|
    ensures forall k :: 0 <= k < stop ==> !LooksLikeData(columns[k], isParsable)
    ensures needsDefaultSchema ==> stop < |columns| && LooksLikeData(columns[stop], isParsable)
    ensures !needsDefaultSchema ==> stop == |columns|
  {
    needsDefaultSchema, stop := false, 0;
    while stop < |columns|
      invariant stop <= |columns|
      invariant forall k :: 0 <= k < stop ==> !LooksLikeData(columns[k], isParsable)
    {
      if isParsable(columns[stop]) || ' ' in Trim(columns[stop]) {
        needsDefaultSchema := true;
        return;
      }
      stop := stop + 1;
    }
  }

  /** createDefaultHeader(size): positional fields 1..size, appended one by one. */
  method CreateDefaultHeader(res: SchemaResources, size: nat) returns (text: string)
    ensures text == SchemaText(res, DefaultSchema(size))
  {
    var sb := res.messageOpening;
    var i := 1;
    while i <= size
      invariant 1 <= i <= size + 1
      invariant sb == res.messageOpening + FieldsText(res.fieldOpeningDefault, DefaultNames(i - 1), res.fieldClosing)
    {
      DefaultEntryStep(res, i, sb);
      sb := sb + res.fieldOpeningDefault;
      sb := sb + (NatToDecimal(i) + " = " + NatToDecimal(i));
      sb := sb + res.fieldClosing;
      i := i + 1;
    }
    text := sb + res.messageClosing;
  }

  /** One turn of createDefaultHeader's loop appends entry i to the first i - 1 entries. */
  lemma DefaultEntryStep(res: SchemaResources, i: nat, sb: string)
    requires 1 <= i
    requires sb == res.messageOpening + FieldsText(res.fieldOpeningDefault, DefaultNames(i - 1), res.fieldClosing)
    ensures sb + res.fieldOpeningDefault + (NatToDecimal(i) + " = " + NatToDecimal(i)) + res.fieldClosing
            == res.messageOpening + FieldsText(res.fieldOpeningDefault, DefaultNames(i), res.fieldClosing)
  {
    var p, name, c := res.fieldOpeningDefault, NatToDecimal(i), res.fieldClosing;
    var init := DefaultNames(i - 1);
    var entry := FieldText(p, name, i, c);
    assert FieldsText(p, DefaultNames(i), c) == FieldsText(p, init, c) + entry by {
      assert DefaultNames(i) == init + [name];
      assert (init + [name])[..i - 1] == init;
    }
    EntryParts(sb, p, name + " = " + NatToDecimal(i), c);
    ConcatAssoc(res.messageOpening, FieldsText(p, init, c), entry);
  }

  /** Appending an opening, a middle and a closing one after the other appends them together. */
  lemma EntryParts(sb: string, opening: string, middle: string, closing: string)
    ensures sb + opening + middle + closing == sb + (opening + middle + closing)
  {
  }

  lemma ConcatAssoc(a: string, b: string, c: string)
    ensures a + b + c == a + (b + c)
  {
  }

  /** convertHeader(header): one field per limit -1 piece of the header, named by the piece as it is. */
  method ConvertHeader(res: SchemaResources, header: string, separator: char) returns (text: string)
    ensures text == SchemaText(res, HeaderSchema(SplitAll(header, separator)))
  {
    var columns := SplitAll(header, separator);
    var sb := res.messageOpening;
    var i := 1;
    while i <= |columns|
      invariant 1 <= i <= |columns| + 1
      invariant sb == res.messageOpening + FieldsText(res.fieldOpening + " ", columns[..i - 1], res.fieldClosing)
    {
      HeaderEntryStep(res, columns, i, sb);
      sb := sb + res.fieldOpening;
      sb := sb + (" " + columns[i - 1] + " = " + NatToDecimal(i));
      sb := sb + res.fieldClosing;
      i := i + 1;
    }
    assert columns[..|columns|] == columns;
    text := sb + res.messageClosing;
  }

  /** One turn of convertHeader's loop appends entry i, named by piece i - 1, to the first i - 1 entries. */
  lemma HeaderEntryStep(res: SchemaResources, columns: seq<string>, i: nat, sb: string)
    requires 1 <= i <= |columns|
    requires sb == res.messageOpening + FieldsText(res.fieldOpening + " ", columns[..i - 1], res.fieldClosing)
    ensures sb + res.fieldOpening + (" " + columns[i - 1] + " = " + NatToDecimal(i)) + res.fieldClosing
            == res.messageOpening + FieldsText(res.fieldOpening + " ", columns[..i], res.fieldClosing)
  {
    var p, c := res.fieldOpening + " ", res.fieldClosing;
    var name, d := columns[i - 1], NatToDecimal(i);
    assert columns[..i][..i - 1] == columns[..i - 1];
    var entry := FieldText(p, name, i, c);
    assert FieldsText(p, columns[..i], c) == FieldsText(p, columns[..i - 1], c) + entry;
    var middle := " " + name + " = " + d;
    EntryParts(sb, res.fieldOpening, middle, c);
    assert res.fieldOpening + middle == p + (name + " = " + d) by {
      ConcatAssoc(" " + name, " = ", d);
      ConcatAssoc(" ", name, " = " + d);
      ConcatAssoc(name, " = ", d);
      ConcatAssoc(res.fieldOpening, " ", name + " = " + d);
    }
    ConcatAssoc(res.messageOpening, FieldsText(p, columns[..i - 1], c), entry);
  }

  /** The text createSchemaFile writes for a first line: the scan, then one of the two renderings. */
  method SchemaFileText(res: SchemaResources, firstLine: string, separator: char, isParsable: string -> bool)
    returns (text: string)
    ensures text == SchemaText(res, InferSchema(firstLine, separator, isParsable))
  {
    var columns := Split(firstLine, separator);
    var needsDefaultSchema, _ := ScanFirstLine(columns, isParsable);
    if needsDefaultSchema {
      text := CreateDefaultHeader(res, |columns|);
    } else {
      text := ConvertHeader(res, firstLine, separator);
    }
  }

  // ---------------------------------------------------------------------
  // Properties of the rendering
  // ---------------------------------------------------------------------

  /** The entries of the first k names open the entries of all the names. */
  lemma {:induction false} FieldsTextPrefix(prefix: string, names: seq<string>, closing: string, k: nat)
    requires k <= |names|
    ensures FieldsText(prefix, names[..k], closing) <= FieldsText(prefix, names, closing)
    decreases |names|
  {
    if k < |names| {
      var init := names[..|names| - 1];
      assert names[..k] == init[..k];
      FieldsTextPrefix(prefix, init, closing, k);
    } else {
      assert names[..k] == names;
    }
  }

  /**
   * Field j (from 0) of the rendering carries names[j] exactly as given and
   * position j + 1, right after the entries of the fields before it.
   */
  lemma FieldAt(prefix: string, names: seq<string>, closing: string, j: nat)
    requires j < |names|
    ensures FieldsText(prefix, names[..j], closing) + FieldText(prefix, names[j], j + 1, closing)
            <= FieldsText(prefix, names, closing)
  {
    assert names[..j + 1][..j] == names[..j];
    FieldsTextPrefix(prefix, names, closing, j + 1);
  }

  /**
   * The header schema names field j after the j-th limit -1 piece of the
   * header, untrimmed, at position j + 1.
   */
  lemma HeaderFieldAt(res: SchemaResources, header: string, separator: char, j: nat)
    requires j < |SplitAll(header, separator)|
    ensures var names := SplitAll(header, separator);
      res.messageOpening + FieldsText(res.fieldOpening + " ", names[..j], res.fieldClosing)
        + FieldText(res.fieldOpening + " ", names[j], j + 1, res.fieldClosing)
      <= SchemaText(res, HeaderSchema(names))
  {
    var names := SplitAll(header, separator);
    var p := res.fieldOpening + " ";
    FieldAt(p, names, res.fieldClosing, j);
    PrefixInContext(res.messageOpening, FieldsText(p, names[..j], res.fieldClosing),
                    FieldText(p, names[j], j + 1, res.fieldClosing), FieldsText(p, names, res.fieldClosing), res.messageClosing);
  }

  /** A prefix stays a prefix between the same opening and closing. */
  lemma PrefixInContext(opening: string, a: string, b: string, whole: string, closing: string)
    requires a + b <= whole
    ensures opening + a + b <= opening + whole + closing
  {
    assert (opening + whole + closing)[..|opening + a + b|] == opening + a + b;
  }

  /** The names "field_1", ..., "field_n". */
  function FieldNames(n: nat): (names: seq<string>)
    ensures |names| == n
    ensures forall i :: 0 <= i < n ==> names[i] == "field_" + NatToDecimal(i + 1)
  {
    seq(n, i requires 0 <= i => "field_" + NatToDecimal(i + 1))
  }

  /** Renderings agree when every field's opening and name, taken together, agree. */
  lemma {:induction false} FieldsTextRename(p1: string, names1: seq<string>, p2: string, names2: seq<string>, closing: string)
    requires |names1| == |names2|
    requires forall i :: 0 <= i < |names1| ==> p1 + names1[i] == p2 + names2[i]
    ensures FieldsText(p1, names1, closing) == FieldsText(p2, names2, closing)
    decreases |names1|
  {
    if names1 != [] {
      var n := |names1|;
      FieldsTextRename(p1, names1[..n - 1], p2, names2[..n - 1], closing);
      var rest := " = " + NatToDecimal(n);
      assert p1 + names1[n - 1] == p2 + names2[n - 1];
      ConcatAssoc(names1[n - 1], " = ", NatToDecimal(n));
      ConcatAssoc(names2[n - 1], " = ", NatToDecimal(n));
      ConcatAssoc(p1, names1[n - 1], rest);
      ConcatAssoc(p2, names2[n - 1], rest);
      assert FieldText(p1, names1[n - 1], n, closing) == FieldText(p2, names2[n - 1], n, closing);
    }
  }

  /**
   * With message.field.opening.default equal to message.field.opening
   * followed by " field_" (as in the tests), the default schema of n
   * fields is exactly the header schema of a header "field_1,...,field_n".
   */
  lemma DefaultSchemaNamesFields(res: SchemaResources, n: nat)
    requires res.fieldOpeningDefault == res.fieldOpening + " field_"
    ensures SchemaText(res, DefaultSchema(n)) == SchemaText(res, HeaderSchema(FieldNames(n)))
  {
    var d, f := DefaultNames(n), FieldNames(n);
    forall i | 0 <= i < n
      ensures res.fieldOpeningDefault + d[i] == res.fieldOpening + " " + f[i]
    {
      assert " field_" == " " + "field_";
    }
    FieldsTextRename(res.fieldOpeningDefault, d, res.fieldOpening + " ", f, res.fieldClosing);
  }

  /** A three-field rendering spelled out. */
  lemma FieldsTextOfThree(prefix: string, a: string, b: string, c: string, closing: string)
    ensures FieldsText(prefix, [a, b, c], closing)
      == FieldText(prefix, a, 1, closing) + FieldText(prefix, b, 2, closing) + FieldText(prefix, c, 3, closing)
  {
    assert [a, b, c][..2] == [a, b];
    assert [a, b][..1] == [a];
    assert [a][..0] == [];
    var x, y, z := FieldText(prefix, a, 1, closing), FieldText(prefix, b, 2, closing), FieldText(prefix, c, 3, closing);
    assert FieldsText(prefix, [a], closing) == "" + x == x;
    assert FieldsText(prefix, [a, b], closing) == x + y;
    assert FieldsText(prefix, [a, b, c], closing) == x + y + z;
  }

  /** Joining the three test header fields with ',' spells the test header. */
  lemma HeaderTestJoin()
    ensures Join(["name", "real_age", "favorite_food"], ',') == "name,real_age,favorite_food"
  {
    var names := ["name", "real_age", "favorite_food"];
    assert names[1..] == ["real_age", "favorite_food"];
    assert names[1..][1..] == ["favorite_food"];
    assert Join(["favorite_food"], ',') == "favorite_food";
    assert Join(["real_age", "favorite_food"], ',') == "real_age" + [','] + "favorite_food";
  }

  /** A name made of lower-case ASCII letters and '_' only. */
  predicate PlainName(s: string)
  {
    forall k :: 0 <= k < |s| ==> 'a' <= s[k] <= 'z' || s[k] == '_'
  }

  /** A name with no blank characters is its own trim. */
  lemma TrimWithoutBlanks(s: string)
    requires forall k :: 0 <= k < |s| ==> s[k] > ' '
    ensures Trim(s) == s
  {
  }

  /** A plain name that isParsable rejects is a column name, free of any other separator. */
  lemma PlainNameIsColumnName(s: string, separator: char, isParsable: string -> bool)
    requires PlainName(s) && !isParsable(s)
    requires !('a' <= separator <= 'z' || separator == '_')
    ensures separator !in s && !LooksLikeData(s, isParsable)
  {
    TrimWithoutBlanks(s);
  }

  lemma TestHeaderNamesArePlain()
    ensures PlainName("name") && PlainName("real_age") && PlainName("favorite_food")
  {
  }

  /**
   * A first line made of delimiter-free names none of which looks like data
   * is taken as a header, its fields (trailing empty ones included) naming
   * the columns.
   */
  lemma HeaderOfNames(names: seq<string>, separator: char, isParsable: string -> bool)
    requires |names| >= 1
    requires forall k :: 0 <= k < |names| ==> separator !in names[k] && !LooksLikeData(names[k], isParsable)
    ensures InferSchema(Join(names, separator), separator, isParsable) == HeaderSchema(names)
  {
    var line := Join(names, separator);
    SplitAllJoin(names, separator);
    var columns := Split(line, separator);
    assert columns <= names;
    assert forall k :: 0 <= k < |columns| ==> columns[k] == names[k];
  }

  /** The test header has no data-like field, so its fields name the columns. */
  lemma HeaderTestChoice(isParsable: string -> bool)
    requires !isParsable("name") && !isParsable("real_age") && !isParsable("favorite_food")
    ensures InferSchema("name,real_age,favorite_food", ',', isParsable)
         == HeaderSchema(["name", "real_age", "favorite_food"])
  {
    var names := ["name", "real_age", "favorite_food"];
    TestHeaderNamesArePlain();
    PlainNameIsColumnName(names[0], ',', isParsable);
    PlainNameIsColumnName(names[1], ',', isParsable);
    PlainNameIsColumnName(names[2], ',', isParsable);
    HeaderOfNames(names, ',', isParsable);
    HeaderTestJoin();
  }

  /** The first three positions in decimal. */
  lemma SmallDecimals()
    ensures NatToDecimal(1) == "1" && NatToDecimal(2) == "2" && NatToDecimal(3) == "3"
  {
  }

  /** A message of three field entries, as the concatenation of its parts. */
  lemma MessageOfThree(res: SchemaResources, prefix: string, a: string, b: string, c: string)
    ensures MessageText(res, prefix, [a, b, c])
      == res.messageOpening + FieldText(prefix, a, 1, res.fieldClosing) + FieldText(prefix, b, 2, res.fieldClosing)
         + FieldText(prefix, c, 3, res.fieldClosing) + res.messageClosing
  {
    FieldsTextOfThree(prefix, a, b, c, res.fieldClosing);
  }

  /** The header schema of the test header, spelled out. */
  lemma HeaderTestRendering()
    ensures SchemaText(TestResources, HeaderSchema(["name", "real_age", "favorite_food"]))
      == "message csv {" + "required binary name = 1;" + "required binary real_age = 2;"
         + "required binary favorite_food = 3;" + "}"
  {
    SmallDecimals();
    MessageOfThree(TestResources, "required binary ", "name", "real_age", "favorite_food");
    assert TestResources.fieldOpening + " " == "required binary ";
    assert FieldText("required binary ", "name", 1, ";") == "required binary name = 1;";
    assert FieldText("required binary ", "real_age", 2, ";") == "required binary real_age = 2;";
    assert FieldText("required binary ", "favorite_food", 3, ";") == "required binary favorite_food = 3;";
  }

  /** The schema of the test file whose first line is a header. */
  lemma HeaderTestExample(isParsable: string -> bool)
    requires !isParsable("name") && !isParsable("real_age") && !isParsable("favorite_food")
    ensures SchemaText(TestResources, InferSchema("name,real_age,favorite_food", ',', isParsable))
      == "message csv {" + "required binary name = 1;" + "required binary real_age = 2;"
         + "required binary favorite_food = 3;" + "}"
  {
    HeaderTestChoice(isParsable);
    HeaderTestRendering();
  }

  /** The schema of the test file whose first line is data: three positional fields. */
  lemma DefaultTestExample()
    ensures SchemaText(TestResources, DefaultSchema(3))
      == "message csv {" + "required binary field_1 = 1;" + "required binary field_2 = 2;"
         + "required binary field_3 = 3;" + "}"
  {
    SmallDecimals();
    assert DefaultNames(3) == ["1", "2", "3"];
    MessageOfThree(TestResources, "required binary field_", "1", "2", "3");
    assert FieldText("required binary field_", "1", 1, ";") == "required binary field_1 = 1;";
    assert FieldText("required binary field_", "2", 2, ";") == "required binary field_2 = 2;";
    assert FieldText("required binary field_", "3", 3, ";") == "required binary field_3 = 3;";
  }
}
