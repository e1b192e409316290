/**
 * CsvWriteSupport: the Parquet write support that turns one CSV record
 * (the list of its field texts) into calls on the record consumer that
 * prepareForWrite handed it. The consumer is modelled as the log of the
 * calls it receives; an exception thrown half-way leaves the calls made so
 * far in the log.
 */
module WriteSupport {
  import opened Wrappers
  import opened JavaStrings

  /** The primitive types of a Parquet column. */
  datatype PrimitiveType = BOOLEAN | INT32 | INT64 | INT96 | FLOAT | DOUBLE | BINARY | FIXED_LEN_BYTE_ARRAY

  /** A leaf column of the message type: its path from the root and its type. */
  datatype ColumnDescriptor = ColumnDescriptor(path: seq<string>, primitive: PrimitiveType)

  /** Every column of a message type has a non-empty path. */
  predicate WellFormed(columns: seq<ColumnDescriptor>)
  {
    forall i :: 0 <= i < |columns| ==> |columns[i].path| >= 1
  }

  /**
   * A call on the record consumer. A float or double value is recorded by
   * the text it was parsed from, since floating point is not modelled.
   */
  datatype Event =
    | StartMessage
    | EndMessage
    | StartField(field: string, index: nat)
    | EndField(field: string, index: nat)
    | AddBoolean(b: bool)
    | AddInteger(n: int)
    | AddLong(n: int)
    | AddFloat(text: string)
    | AddDouble(text: string)
    | AddBinary(bytes: seq<bv8>)

  /** The exceptions write can end with. */
  datatype EncodingError =
    | IndexOutOfBounds(index: nat, size: nat)          // record.get(i) past the end of the record
    | NumberFormat(text: string)                       // a parse of the value failed
    | UnsupportedColumnType(primitive: PrimitiveType)  // ParquetEncodingException

  /**
   * What the platform decides: the bytes of a text in the default charset,
   * and whether Float.parseFloat and Double.parseDouble accept a text.
   */
  datatype Platform = Platform(
    encode: string -> seq<bv8>,
    parsesAsFloat: string -> bool,
    parsesAsDouble: string -> bool)

  /** The types write has a case for. */
  predicate Supported(t: PrimitiveType)
  {
    t == BOOLEAN || t == FLOAT || t == DOUBLE || t == INT32 || t == INT64 || t == BINARY
  }

  /** The switch on the column type: the value call made for a non-empty text, or the exception. */
  function ValueEvent(t: PrimitiveType, value: string, platform: Platform): (r: Result<Event, EncodingError>)
    ensures r.Err? <==> !Supported(t) || (t == INT32 && ParseInt(value).None?) || (t == INT64 && ParseLong(value).None?)
                        || (t == FLOAT && !platform.parsesAsFloat(value)) || (t == DOUBLE && !platform.parsesAsDouble(value))
    ensures r.Err? && !Supported(t) ==> r.error == UnsupportedColumnType(t)
    ensures r.Err? && Supported(t) ==> r.error == NumberFormat(value)
    ensures r.Ok? ==> !r.value.StartMessage? && !r.value.EndMessage? && !r.value.StartField? && !r.value.EndField?
  {
    match t
    case BOOLEAN => Ok(AddBoolean(ParseBoolean(value)))
    case FLOAT => if platform.parsesAsFloat(value) then Ok(AddFloat(value)) else Err(NumberFormat(value))
    case DOUBLE => if platform.parsesAsDouble(value) then Ok(AddDouble(value)) else Err(NumberFormat(value))
    case INT32 => if ParseInt(value).Some? then Ok(AddInteger(ParseInt(value).value)) else Err(NumberFormat(value))
    case INT64 => if ParseLong(value).Some? then Ok(AddLong(ParseLong(value).value)) else Err(NumberFormat(value))
    case BINARY => Ok(AddBinary(platform.encode(value)))
    case _ => Err(UnsupportedColumnType(t))
  }

  /** The calls made and the exception thrown, if any. */
  datatype Trace = Trace(events: seq<Event>, error: Option<EncodingError>)

  predicate IsFieldEvent(e: Event) { e.StartField? || e.EndField? }

  /**
   * The calls write makes for the columns from `i` on: nothing for an empty
   * value; startField, the value, endField for a non-empty one; and a stop
   * with an exception at a missing value or a failing value.
   */
  function FieldsTrace(columns: seq<ColumnDescriptor>, record: seq<string>, platform: Platform, i: nat): (r: Trace)
    requires WellFormed(columns)
    ensures r.error.None? ==> i >= |columns| || |record| >= |columns|
    decreases |columns| - i
  {
    if i >= |columns| then Trace([], None)
    else if i >= |record| then Trace([], Some(IndexOutOfBounds(i, |record|)))
    else if |record[i]| == 0 then FieldsTrace(columns, record, platform, i + 1)
    else
      var name := columns[i].path[0];
      match ValueEvent(columns[i].primitive, record[i], platform)
      case Err(e) => Trace([StartField(name, i)], Some(e))
      case Ok(v) =>
        var rest := FieldsTrace(columns, record, platform, i + 1);
        Trace([StartField(name, i), v, EndField(name, i)] + rest.events, rest.error)
  }

  /** write(record): startMessage, the fields, and endMessage unless an exception came first. */
  function RecordTrace(columns: seq<ColumnDescriptor>, record: seq<string>, platform: Platform): Trace
    requires WellFormed(columns)
  {
    var fields := FieldsTrace(columns, record, platform, 0);
    if fields.error.None? then Trace([StartMessage] + fields.events + [EndMessage], None)
    else Trace([StartMessage] + fields.events, fields.error)
  }

  /** No call in `events` starts or ends a message. */
  predicate NoMessageEvents(events: seq<Event>)
  {
    forall k :: 0 <= k < |events| ==> !events[k].StartMessage? && !events[k].EndMessage?
  }

  /**
   * Every startField and endField in `events` names a column from `i` on by
   * the first element of its path, and that column's value is non-empty.
   */
  predicate FieldEventsFrom(events: seq<Event>, columns: seq<ColumnDescriptor>, record: seq<string>, i: nat)
    requires WellFormed(columns)
  {
    forall k :: 0 <= k < |events| && IsFieldEvent(events[k]) ==>
      i <= events[k].index < |columns| && events[k].index < |record|
      && events[k].field == columns[events[k].index].path[0]
      && record[events[k].index] != ""
  }

  /** The calls on the fields from column `i` on are all field calls of those columns. */
  lemma {:induction false} FieldEventsWellPlaced(columns: seq<ColumnDescriptor>, record: seq<string>, platform: Platform, i: nat)
    requires WellFormed(columns)
    ensures NoMessageEvents(FieldsTrace(columns, record, platform, i).events)
    ensures FieldEventsFrom(FieldsTrace(columns, record, platform, i).events, columns, record, i)
    decreases |columns| - i
  {
    if i < |columns| && i < |record| {
      var r := FieldsTrace(columns, record, platform, i);
      var rest := FieldsTrace(columns, record, platform, i + 1);
      FieldEventsWellPlaced(columns, record, platform, i + 1);
      if |record[i]| == 0 {
        assert r == rest;
      } else if ValueEvent(columns[i].primitive, record[i], platform).Ok? {
        var name := columns[i].path[0];
        var v := ValueEvent(columns[i].primitive, record[i], platform).value;
        assert r.events == [StartField(name, i), v, EndField(name, i)] + rest.events;
        assert forall k :: 3 <= k < |r.events| ==> r.events[k] == rest.events[k - 3];
      }
    }
  }

  /** `done` is what write has sent for the fields before column `i`, without an exception. */
  predicate WrittenSoFar(columns: seq<ColumnDescriptor>, record: seq<string>, platform: Platform, i: nat, done: seq<Event>)
    requires WellFormed(columns)
  {
    var all := FieldsTrace(columns, record, platform, 0);
    var next := FieldsTrace(columns, record, platform, i);
    done + next.events == all.events && next.error == all.error
  }

  /** Column `i` of a full record, written without an exception, extends what was written so far. */
  lemma WrittenSoFarStep(columns: seq<ColumnDescriptor>, record: seq<string>, platform: Platform, i: nat, done: seq<Event>)
    requires WellFormed(columns) && WrittenSoFar(columns, record, platform, i, done)
    requires i < |columns| && i < |record|
    requires record[i] != "" ==> ValueEvent(columns[i].primitive, record[i], platform).Ok?
    ensures record[i] == "" ==> WrittenSoFar(columns, record, platform, i + 1, done)
    ensures record[i] != "" ==>
      var name := columns[i].path[0];
      WrittenSoFar(columns, record, platform, i + 1,
                   done + [StartField(name, i), ValueEvent(columns[i].primitive, record[i], platform).value, EndField(name, i)])
  {
    if record[i] != "" {
      var name := columns[i].path[0];
      var step := [StartField(name, i), ValueEvent(columns[i].primitive, record[i], platform).value, EndField(name, i)];
      var rest := FieldsTrace(columns, record, platform, i + 1);
      assert FieldsTrace(columns, record, platform, i).events == step + rest.events;
      assert done + (step + rest.events) == (done + step) + rest.events;
    }
  }

  /** After the last column, the record's trace is complete and ends with endMessage. */
  lemma RecordTraceAtEnd(columns: seq<ColumnDescriptor>, record: seq<string>, platform: Platform, done: seq<Event>)
    requires WellFormed(columns) && WrittenSoFar(columns, record, platform, |columns|, done)
    ensures RecordTrace(columns, record, platform) == Trace([StartMessage] + done + [EndMessage], None)
  {
    assert done + [] == done;
  }

  /** At a missing value, the record's trace stops with an IndexOutOfBounds. */
  lemma RecordTraceAtMissing(columns: seq<ColumnDescriptor>, record: seq<string>, platform: Platform, i: nat, done: seq<Event>)
    requires WellFormed(columns) && WrittenSoFar(columns, record, platform, i, done)
    requires |record| <= i < |columns|
    ensures RecordTrace(columns, record, platform) == Trace([StartMessage] + done, Some(IndexOutOfBounds(i, |record|)))
  {
    assert done + [] == done;
  }

  /** At a value that cannot be written, the record's trace stops right after its startField. */
  lemma RecordTraceAtFailure(columns: seq<ColumnDescriptor>, record: seq<string>, platform: Platform, i: nat, done: seq<Event>, e: EncodingError)
    requires WellFormed(columns) && WrittenSoFar(columns, record, platform, i, done)
    requires i < |columns| && i < |record| && record[i] != ""
    requires ValueEvent(columns[i].primitive, record[i], platform) == Err(e)
    ensures RecordTrace(columns, record, platform) == Trace([StartMessage] + done + [StartField(columns[i].path[0], i)], Some(e))
  {
  }

  /** Appending to the log in two steps is appending once. */
  lemma LogAppend(log: seq<Event>, a: seq<Event>, b: seq<Event>)
    ensures (log + a) + b == log + (a + b)
  {
  }

  /** The record consumer, as the log of the calls it has received. */
  class RecordConsumer {
    var events: seq<Event>

    constructor()
      ensures events == []
    {
      events := [];
    }

    method Emit(e: Event)
      modifies this
      ensures events == old(events) + [e]
    {
      events := events + [e];
    }
  }

  class CsvWriteSupport {
    const messageType: seq<ColumnDescriptor>
    const platform: Platform
    var recordConsumer: RecordConsumer?

    constructor(messageType: seq<ColumnDescriptor>, platform: Platform)
      ensures this.messageType == messageType && this.platform == platform
      ensures recordConsumer == null
    {
      this.messageType := messageType;
      this.platform := platform;
      recordConsumer := null;
    }

    /** prepareForWrite: later records go to `consumer`. */
    method PrepareForWrite(consumer: RecordConsumer)
      modifies this
      ensures recordConsumer == consumer
    {
      recordConsumer := consumer;
    }

    /**
     * write(record): the consumer's log grows by exactly the calls of
     * RecordTrace, and the exception, if any, is RecordTrace's.
     */
    method Write(record: seq<string>) returns (error: Option<EncodingError>)
      requires recordConsumer != null && WellFormed(messageType)
      modifies recordConsumer
      ensures recordConsumer.events == old(recordConsumer.events) + RecordTrace(messageType, record, platform).events
      ensures error == RecordTrace(messageType, record, platform).error
    {
      var consumer := recordConsumer;
      ghost var log := consumer.events;
      consumer.Emit(StartMessage);
      var columns := messageType;
      ghost var done: seq<Event> := [];
      var i := 0;
      while i < |columns|
        invariant 0 <= i <= |columns|
        invariant consumer.events == log + ([StartMessage] + done)
        invariant WrittenSoFar(columns, record, platform, i, done)
      {
        if i >= |record| {
          RecordTraceAtMissing(columns, record, platform, i, done);
          return Some(IndexOutOfBounds(i, |record|));
        }
        var value := record[i];
        if |value| > 0 {
          var name := columns[i].path[0];
          consumer.Emit(StartField(name, i));
          LogAppend(log, [StartMessage] + done, [StartField(name, i)]);
          var v := ValueEvent(columns[i].primitive, value, platform);
          if v.Err? {
            RecordTraceAtFailure(columns, record, platform, i, done, v.error);
            return Some(v.error);
          }
          consumer.Emit(v.value);
          consumer.Emit(EndField(name, i));
          LogAppend(log, [StartMessage] + done, [StartField(name, i), v.value, EndField(name, i)]);
          WrittenSoFarStep(columns, record, platform, i, done);
          done := done + [StartField(name, i), v.value, EndField(name, i)];
        } else {
          WrittenSoFarStep(columns, record, platform, i, done);
        }
        i := i + 1;
      }
      RecordTraceAtEnd(columns, record, platform, done);
      consumer.Emit(EndMessage);
      LogAppend(log, [StartMessage] + done, [EndMessage]);
      return None;
    }
  }

  // ---------------------------------------------------------------------
  // Properties of one record
  // ---------------------------------------------------------------------

  /**
   * A record's calls start with startMessage, end with endMessage exactly
   * when no exception was thrown, and start or end no message in between.
   */
  predicate Framed(t: Trace)
  {
    |t.events| >= 1 && t.events[0] == StartMessage
    && (t.error.None? <==> t.events[|t.events| - 1] == EndMessage)
    && forall k :: 0 < k < |t.events| - 1 ==> !t.events[k].StartMessage? && !t.events[k].EndMessage?
  }

  /** Every record is framed by exactly one startMessage and, when it completes, one endMessage. */
  lemma RecordFramed(columns: seq<ColumnDescriptor>, record: seq<string>, platform: Platform)
    requires WellFormed(columns)
    ensures Framed(RecordTrace(columns, record, platform))
  {
    var fields := FieldsTrace(columns, record, platform, 0);
    var t := RecordTrace(columns, record, platform);
    FieldEventsWellPlaced(columns, record, platform, 0);
    if fields.error.None? {
      assert t.events == [StartMessage] + fields.events + [EndMessage];
    } else {
      assert t.events == [StartMessage] + fields.events;
    }
    assert forall k :: 0 < k <= |fields.events| ==> t.events[k] == fields.events[k - 1];
  }

  /** No startField or endField in `events` is for column `j`. */
  predicate NoFieldEventFor(events: seq<Event>, j: nat)
  {
    forall k :: 0 <= k < |events| && IsFieldEvent(events[k]) ==> events[k].index != j
  }

  /** An empty value leaves no trace: no startField, value or endField for its column. */
  lemma EmptyFieldOmitted(columns: seq<ColumnDescriptor>, record: seq<string>, platform: Platform, j: nat)
    requires WellFormed(columns) && j < |record| && record[j] == ""
    ensures NoFieldEventFor(RecordTrace(columns, record, platform).events, j)
  {
    var fields := FieldsTrace(columns, record, platform, 0);
    var t := RecordTrace(columns, record, platform);
    FieldEventsWellPlaced(columns, record, platform, 0);
    if fields.error.None? {
      assert t.events == [StartMessage] + fields.events + [EndMessage];
    } else {
      assert t.events == [StartMessage] + fields.events;
    }
    assert forall k :: 0 < k <= |fields.events| ==> t.events[k] == fields.events[k - 1];
  }

  /** The startField calls in `events` come in strictly increasing column order. */
  predicate StartFieldsIncreasing(events: seq<Event>)
  {
    forall a, b :: 0 <= a < b < |events| && events[a].StartField? && events[b].StartField? ==>
      events[a].index < events[b].index
  }

  /** Columns are visited in increasing order. */
  lemma {:induction false} FieldsInIncreasingOrder(columns: seq<ColumnDescriptor>, record: seq<string>, platform: Platform, i: nat)
    requires WellFormed(columns)
    ensures StartFieldsIncreasing(FieldsTrace(columns, record, platform, i).events)
    decreases |columns| - i
  {
    if i < |columns| && i < |record| {
      var r := FieldsTrace(columns, record, platform, i);
      var rest := FieldsTrace(columns, record, platform, i + 1);
      FieldsInIncreasingOrder(columns, record, platform, i + 1);
      FieldEventsWellPlaced(columns, record, platform, i + 1);
      if |record[i]| == 0 {
        assert r == rest;
      } else if ValueEvent(columns[i].primitive, record[i], platform).Ok? {
        var name := columns[i].path[0];
        var v := ValueEvent(columns[i].primitive, record[i], platform).value;
        assert r.events == [StartField(name, i), v, EndField(name, i)] + rest.events;
        assert forall k :: 3 <= k < |r.events| ==> r.events[k] == rest.events[k - 3];
        assert forall k :: 3 <= k < |r.events| && r.events[k].StartField? ==> r.events[k].index > i;
      }
    }
  }

  /** At position k of `events`: startField, the value call for column j's value, endField. */
  predicate FieldWrittenAt(events: seq<Event>, k: nat, columns: seq<ColumnDescriptor>, record: seq<string>, platform: Platform, j: nat)
    requires WellFormed(columns) && j < |columns| && j < |record|
  {
    k + 2 < |events|
    && events[k] == StartField(columns[j].path[0], j)
    && ValueEvent(columns[j].primitive, record[j], platform) == Ok(events[k + 1])
    && events[k + 2] == EndField(columns[j].path[0], j)
  }

  /**
   * A completed record carries startField(name, j), the value and
   * endField(name, j) for every column j with a non-empty value, the name
   * being the first element of the column's path.
   */
  lemma {:induction false} NonEmptyFieldWritten(columns: seq<ColumnDescriptor>, record: seq<string>, platform: Platform, i: nat, j: nat)
    requires WellFormed(columns)
    requires i <= j < |columns| && j < |record| && record[j] != ""
    requires FieldsTrace(columns, record, platform, i).error.None?
    ensures exists k: nat :: FieldWrittenAt(FieldsTrace(columns, record, platform, i).events, k, columns, record, platform, j)
    decreases |columns| - i
  {
    var r := FieldsTrace(columns, record, platform, i);
    if i == j {
      var v := ValueEvent(columns[j].primitive, record[j], platform);
      assert v.Ok?;
      assert r.events[..3] == [StartField(columns[j].path[0], j), v.value, EndField(columns[j].path[0], j)];
      assert FieldWrittenAt(r.events, 0, columns, record, platform, j);
    } else if |record[i]| == 0 {
      NonEmptyFieldWritten(columns, record, platform, i + 1, j);
    } else {
      var rest := FieldsTrace(columns, record, platform, i + 1);
      NonEmptyFieldWritten(columns, record, platform, i + 1, j);
      var k: nat :| FieldWrittenAt(rest.events, k, columns, record, platform, j);
      var name := columns[i].path[0];
      var v := ValueEvent(columns[i].primitive, record[i], platform).value;
      assert r.events == [StartField(name, i), v, EndField(name, i)] + rest.events;
      assert r.events[k + 3] == rest.events[k];
      assert r.events[k + 4] == rest.events[k + 1];
      assert r.events[k + 5] == rest.events[k + 2];
      assert FieldWrittenAt(r.events, k + 3, columns, record, platform, j);
    }
  }

  /** Values past the last column are never read. */
  lemma {:induction false} ExtraValuesIgnored(columns: seq<ColumnDescriptor>, record: seq<string>, extra: seq<string>, platform: Platform, i: nat)
    requires WellFormed(columns) && |record| >= |columns|
    ensures FieldsTrace(columns, record + extra, platform, i) == FieldsTrace(columns, record, platform, i)
    decreases |columns| - i
  {
    if i < |columns| {
      assert (record + extra)[i] == record[i];
      ExtraValuesIgnored(columns, record, extra, platform, i + 1);
    }
  }

  /** A record with fewer values than the schema has columns always ends in an exception. */
  lemma ShortRecordFails(columns: seq<ColumnDescriptor>, record: seq<string>, platform: Platform)
    requires WellFormed(columns) && |record| < |columns|
    ensures RecordTrace(columns, record, platform).error.Some?
  {
  }

  /**
   * With only BOOLEAN and BINARY columns, a record with a value for every
   * column never fails: the exception, if any, is an IndexOutOfBounds for
   * the first missing value.
   */
  lemma {:induction false} BooleanOrBinaryNeverFail(columns: seq<ColumnDescriptor>, record: seq<string>, platform: Platform, i: nat)
    requires WellFormed(columns)
    requires forall c :: 0 <= c < |columns| ==> columns[c].primitive == BOOLEAN || columns[c].primitive == BINARY
    ensures FieldsTrace(columns, record, platform, i).error.None? <==> i >= |columns| || |record| >= |columns|
    ensures FieldsTrace(columns, record, platform, i).error.Some? ==>
      FieldsTrace(columns, record, platform, i).error == Some(IndexOutOfBounds(if i <= |record| then |record| else i, |record|))
    decreases |columns| - i
  {
    if i < |columns| && i < |record| {
      BooleanOrBinaryNeverFail(columns, record, platform, i + 1);
    }
  }

  /**
   * `t` ends with startField for a column j from `i` on whose non-empty
   * value could not be written with the exception of `t`.
   */
  predicate EndsInOpenField(t: Trace, columns: seq<ColumnDescriptor>, record: seq<string>, platform: Platform, i: nat)
    requires WellFormed(columns)
  {
    t.error.Some? && |t.events| >= 1
    && (exists j :: i <= j < |columns| && j < |record| && record[j] != ""
          && t.events[|t.events| - 1] == StartField(columns[j].path[0], j)
          && ValueEvent(columns[j].primitive, record[j], platform) == Err(t.error.value))
  }

  /**
   * When a value cannot be written, the last call made is startField for
   * its column: the field is opened and never closed.
   */
  lemma {:induction false} FailureLeavesFieldOpen(columns: seq<ColumnDescriptor>, record: seq<string>, platform: Platform, i: nat)
    requires WellFormed(columns)
    requires FieldsTrace(columns, record, platform, i).error.Some?
    requires !FieldsTrace(columns, record, platform, i).error.value.IndexOutOfBounds?
    ensures EndsInOpenField(FieldsTrace(columns, record, platform, i), columns, record, platform, i)
    decreases |columns| - i
  {
    var r := FieldsTrace(columns, record, platform, i);
    if |record[i]| == 0 {
      FailureLeavesFieldOpen(columns, record, platform, i + 1);
    } else if ValueEvent(columns[i].primitive, record[i], platform).Ok? {
      FailureLeavesFieldOpen(columns, record, platform, i + 1);
      var rest := FieldsTrace(columns, record, platform, i + 1);
      var name := columns[i].path[0];
      var v := ValueEvent(columns[i].primitive, record[i], platform).value;
      assert r.events == [StartField(name, i), v, EndField(name, i)] + rest.events;
      assert r.events[|r.events| - 1] == rest.events[|rest.events| - 1];
    } else {
      assert r.events[|r.events| - 1] == StartField(columns[i].path[0], i);
    }
  }

  /** A record that fails on an unsupported column type names that column's type. */
  lemma UnsupportedTypeNamed(columns: seq<ColumnDescriptor>, record: seq<string>, platform: Platform)
    requires WellFormed(columns)
    requires RecordTrace(columns, record, platform).error.Some?
    requires RecordTrace(columns, record, platform).error.value.UnsupportedColumnType?
    ensures exists j :: 0 <= j < |columns| && j < |record| && record[j] != ""
                       && columns[j].primitive == RecordTrace(columns, record, platform).error.value.primitive
                       && !Supported(columns[j].primitive)
  {
    FailureLeavesFieldOpen(columns, record, platform, 0);
  }

  /** An INT32 or INT64 column reads back the decimal text of any number in its range, and refuses the others. */
  lemma IntegerValues(n: int, platform: Platform)
    ensures ValueEvent(INT32, IntToDecimal(n), platform)
         == if INT32_MIN <= n <= INT32_MAX then Ok(AddInteger(n)) else Err(NumberFormat(IntToDecimal(n)))
    ensures ValueEvent(INT64, IntToDecimal(n), platform)
         == if INT64_MIN <= n <= INT64_MAX then Ok(AddLong(n)) else Err(NumberFormat(IntToDecimal(n)))
  {
    ParseDecimalOfToString(n, INT32_MIN, INT32_MAX);
    ParseDecimalOfToString(n, INT64_MIN, INT64_MAX);
  }

  /** A BOOLEAN column writes true exactly for "true" in any letter case, and never fails. */
  lemma BooleanValues(value: string, platform: Platform)
    ensures ValueEvent(BOOLEAN, value, platform)
         == Ok(AddBoolean(|value| == 4 && value[0] in "tT" && value[1] in "rR" && value[2] in "uU" && value[3] in "eE"))
  {
    ParseBooleanTrue(value);
  }

  /** With an injective charset, a BINARY column writes different texts as different bytes. */
  lemma BinaryInjective(v1: string, v2: string, platform: Platform)
    requires forall a, b :: platform.encode(a) == platform.encode(b) ==> a == b
    requires v1 != v2
    ensures ValueEvent(BINARY, v1, platform) != ValueEvent(BINARY, v2, platform)
  {
  }
}
