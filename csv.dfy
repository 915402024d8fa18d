/**
 * The CSV form of the chunk store: the writer the store configures
 * (every field quoted, inner quotes doubled, records ended by `\n`, as in
 * section 2 of RFC 4180) and a lenient reader that splits such text back into
 * records.
 *
 * The reader is a character-at-a-time state machine: `Step` consumes one
 * character, `Run` folds it over a text, `Finish` emits what is pending at
 * the end of input. Outside quotes a record ends at `\n`, at `\r` or at
 * `\r\n`, empty lines between records are skipped, a quote right
 * after a closing quote is a literal quote, and text after a closing quote is
 * kept in the field.
 */
module Csv {
  import opened Paths

  type Record = seq<String>

  // ---------------------------------------------------------------------
  // Writing
  // ---------------------------------------------------------------------

  /** Every `"` of the field written twice. */
  function EscapeQuotes(s: String): (r: String)
    ensures |r| >= |s|
  {
    if |s| == 0 then ""
    else (if s[0] == '"' then "\"\"" else [s[0]]) + EscapeQuotes(s[1..])
  }

  /** A field under `QuoteStyle::Always` with `double_quote(true)`. */
  function QuoteField(s: String): (r: String)
    ensures |r| >= 2 && r[0] == '"' && r[|r| - 1] == '"'
  {
    "\"" + EscapeQuotes(s) + "\""
  }

  /** The quoted fields of a record separated by commas. */
  function EncodeFields(fields: Record): String
  {
    if |fields| == 0 then ""
    else if |fields| == 1 then QuoteField(fields[0])
    else QuoteField(fields[0]) + "," + EncodeFields(fields[1..])
  }

  /** One record, terminated by `\n`. */
  function EncodeRecord(fields: Record): String
  {
    EncodeFields(fields) + "\n"
  }

  /** A sequence of records, each terminated. */
  function EncodeRecords(records: seq<Record>): String
  {
    if |records| == 0 then "" else EncodeRecord(records[0]) + EncodeRecords(records[1..])
  }

  /** Writing one more record appends that record's line. */
  lemma {:induction false} EncodeRecordsSnoc(records: seq<Record>, r: Record)
    ensures EncodeRecords(records + [r]) == EncodeRecords(records) + EncodeRecord(r)
  {
    if |records| == 0 {
      assert records + [r] == [r];
      assert [r][1..] == [];
      assert EncodeRecords([r]) == EncodeRecord(r) + EncodeRecords([]);
    } else {
      var rest := records[1..];
      EncodeRecordsSnoc(rest, r);
      assert (records + [r])[0] == records[0];
      assert (records + [r])[1..] == rest + [r];
      calc {
        EncodeRecords(records + [r]);
        EncodeRecord(records[0]) + EncodeRecords(rest + [r]);
        EncodeRecord(records[0]) + (EncodeRecords(rest) + EncodeRecord(r));
        (EncodeRecord(records[0]) + EncodeRecords(rest)) + EncodeRecord(r);
      }
    }
  }

  // ---------------------------------------------------------------------
  // Reading
  // ---------------------------------------------------------------------

  datatype Mode =
    | StartRecord     // at the beginning of a line
    | StartField      // right after a field separator
    | Unquoted        // inside a field that did not open with a quote
    | Quoted          // inside a quoted field
    | QuoteInQuoted   // just after a quote inside a quoted field

  /** The reader's state: its mode, the field and record being built, and the records done. */
  datatype Reader = Reader(mode: Mode, field: String, record: Record, records: seq<Record>)

  /** A record terminator outside quotes: `\n`, `\r`, or the two together as `\r\n`. */
  predicate IsTerminator(c: char)
  {
    c == '\n' || c == '\r'
  }

  function EndField(rd: Reader, next: Mode): Reader
  {
    Reader(next, "", rd.record + [rd.field], rd.records)
  }

  function EndRecord(rd: Reader): Reader
  {
    Reader(StartRecord, "", [], rd.records + [rd.record + [rd.field]])
  }

  /** The first character of a field. */
  function FieldStart(rd: Reader, c: char): Reader
  {
    if c == '"' then Reader(Quoted, rd.field, rd.record, rd.records)
    else if c == ',' then EndField(rd, StartField)
    else if IsTerminator(c) then EndRecord(rd)
    else Reader(Unquoted, rd.field + [c], rd.record, rd.records)
  }

  /** One character of input. */
  function Step(rd: Reader, c: char): Reader
  {
    match rd.mode
    case StartRecord => if IsTerminator(c) then rd else FieldStart(rd, c)
    case StartField => FieldStart(rd, c)
    case Unquoted =>
      if c == ',' then EndField(rd, StartField)
      else if IsTerminator(c) then EndRecord(rd)
      else Reader(Unquoted, rd.field + [c], rd.record, rd.records)
    case Quoted =>
      if c == '"' then Reader(QuoteInQuoted, rd.field, rd.record, rd.records)
      else Reader(Quoted, rd.field + [c], rd.record, rd.records)
    case QuoteInQuoted =>
      if c == '"' then Reader(Quoted, rd.field + ['"'], rd.record, rd.records)
      else if c == ',' then EndField(rd, StartField)
      else if IsTerminator(c) then EndRecord(rd)
      else Reader(Unquoted, rd.field + [c], rd.record, rd.records)
  }

  /** The reader after consuming `s`. */
  function Run(rd: Reader, s: String): Reader
    decreases |s|
  {
    if |s| == 0 then rd else Run(Step(rd, s[0]), s[1..])
  }

  /** End of input: a record still open is emitted even without its terminator. */
  function Finish(rd: Reader): seq<Record>
  {
    if rd.mode == StartRecord then rd.records else EndRecord(rd).records
  }

  const Fresh: Reader := Reader(StartRecord, "", [], [])

  /** Every record of a CSV text, in order. */
  function ParseCsv(text: String): seq<Record>
  {
    Finish(Run(Fresh, text))
  }

  // ---------------------------------------------------------------------
  // Reading back what was written
  // ---------------------------------------------------------------------

  lemma {:induction false} RunConcat(rd: Reader, a: String, b: String)
    ensures Run(rd, a + b) == Run(Run(rd, a), b)
    decreases |a|
  {
    if |a| > 0 {
      RunConcat(Step(rd, a[0]), a[1..], b);
      assert (a + b)[0] == a[0];
      assert (a + b)[1..] == a[1..] + b;
      assert Run(rd, a + b) == Run(Step(rd, a[0]), a[1..] + b);
      assert Run(rd, a) == Run(Step(rd, a[0]), a[1..]);
    } else {
      assert a + b == b;
    }
  }

  /** Reading a single character is one step. */
  lemma RunOne(rd: Reader, c: char)
    ensures Run(rd, [c]) == Step(rd, c)
  {
    assert [c][1..] == [];
  }

  /** One escaped character inside a quoted field adds that character to the field. */
  lemma ReadEscapedChar(field: String, record: Record, records: seq<Record>, c: char)
    ensures Run(Reader(Quoted, field, record, records), if c == '"' then "\"\"" else [c])
         == Reader(Quoted, field + [c], record, records)
  {
    var rd := Reader(Quoted, field, record, records);
    if c == '"' {
      RunConcat(rd, [c], [c]);
      assert [c] + [c] == "\"\"";
      RunOne(rd, c);
      RunOne(Step(rd, c), c);
    } else {
      RunOne(rd, c);
    }
  }

  /** Inside a quoted field the escaped text is read back verbatim, up to the closing quote. */
  lemma {:induction false} ReadEscaped(field: String, record: Record, records: seq<Record>, s: String)
    ensures Run(Reader(Quoted, field, record, records), EscapeQuotes(s) + "\"")
         == Reader(QuoteInQuoted, field + s, record, records)
    decreases |s|
  {
    var rd := Reader(Quoted, field, record, records);
    if |s| == 0 {
      assert EscapeQuotes(s) + "\"" == ['"'];
      RunOne(rd, '"');
    } else {
      var head := if s[0] == '"' then "\"\"" else [s[0]];
      var rest := EscapeQuotes(s[1..]) + "\"";
      assert EscapeQuotes(s) == head + EscapeQuotes(s[1..]);
      assert EscapeQuotes(s) + "\"" == head + rest;
      RunConcat(rd, head, rest);
      ReadEscapedChar(field, record, records, s[0]);
      ReadEscaped(field + [s[0]], record, records, s[1..]);
      assert s == [s[0]] + s[1..];
      assert field + [s[0]] + s[1..] == field + s;
    }
  }

  /** A quoted field read from the start of a field. */
  lemma ReadQuotedField(record: Record, records: seq<Record>, s: String)
    ensures Run(Reader(StartField, "", record, records), QuoteField(s))
         == Reader(QuoteInQuoted, s, record, records)
  {
    var rd := Reader(StartField, "", record, records);
    assert QuoteField(s) == ['"'] + (EscapeQuotes(s) + "\"");
    RunConcat(rd, ['"'], EscapeQuotes(s) + "\"");
    RunOne(rd, '"');
    ReadEscaped("", record, records, s);
  }

  /** A quoted field and the separator or terminator after it. */
  lemma ReadFieldThen(record: Record, records: seq<Record>, f: String, c: char)
    requires c == ',' || c == '\n'
    ensures Run(Reader(StartField, "", record, records), QuoteField(f) + [c])
         == if c == ',' then Reader(StartField, "", record + [f], records)
            else Reader(StartRecord, "", [], records + [record + [f]])
  {
    var rd := Reader(StartField, "", record, records);
    ReadQuotedField(record, records, f);
    RunConcat(rd, QuoteField(f), [c]);
    RunOne(Reader(QuoteInQuoted, f, record, records), c);
  }

  /** The fields of a record, read from the start of a field, up to and including its terminator. */
  lemma {:induction false} ReadFields(record: Record, records: seq<Record>, fields: Record)
    requires |fields| >= 1
    ensures Run(Reader(StartField, "", record, records), EncodeFields(fields) + "\n")
         == Reader(StartRecord, "", [], records + [record + fields])
    decreases |fields|
  {
    if |fields| == 1 {
      ReadLastField(record, records, fields[0]);
      assert fields == [fields[0]];
    } else {
      var rd := Reader(StartField, "", record, records);
      var rest := EncodeFields(fields[1..]) + "\n";
      EncodeFieldsSplit(fields);
      RunConcat(rd, QuoteField(fields[0]) + [','], rest);
      ReadFieldThen(record, records, fields[0], ',');
      ReadFields(record + [fields[0]], records, fields[1..]);
      assert record + [fields[0]] + fields[1..] == record + fields;
    }
  }

  /** The last field of a record and its terminator. */
  lemma ReadLastField(record: Record, records: seq<Record>, f: String)
    ensures Run(Reader(StartField, "", record, records), EncodeFields([f]) + "\n")
         == Reader(StartRecord, "", [], records + [record + [f]])
  {
    assert EncodeFields([f]) + "\n" == QuoteField(f) + ['\n'];
    ReadFieldThen(record, records, f, '\n');
  }

  /** A record of two or more fields: the first quoted field, a comma, the rest. */
  lemma EncodeFieldsSplit(fields: Record)
    requires |fields| >= 2
    ensures EncodeFields(fields) + "\n" == (QuoteField(fields[0]) + [',']) + (EncodeFields(fields[1..]) + "\n")
  {
  }

  /** A record read from the start of a line. */
  lemma ReadRecord(records: seq<Record>, fields: Record)
    requires |fields| >= 1
    ensures Run(Reader(StartRecord, "", [], records), EncodeRecord(fields))
         == Reader(StartRecord, "", [], records + [fields])
  {
    var text := EncodeRecord(fields);
    assert text[0] == '"';
    var rd := Reader(StartRecord, "", [], records);
    assert Step(rd, text[0]) == Step(Reader(StartField, "", [], records), text[0]);
    assert Run(rd, text) == Run(Reader(StartField, "", [], records), text);
    ReadFields([], records, fields);
    assert [] + fields == fields;
  }

  /** Records read from the start of a line. */
  lemma {:induction false} ReadRecords(records: seq<Record>, more: seq<Record>)
    requires forall i :: 0 <= i < |more| ==> |more[i]| >= 1
    ensures Run(Reader(StartRecord, "", [], records), EncodeRecords(more))
         == Reader(StartRecord, "", [], records + more)
    decreases |more|
  {
    if |more| == 0 {
      assert records + more == records;
    } else {
      var rd := Reader(StartRecord, "", [], records);
      RunConcat(rd, EncodeRecord(more[0]), EncodeRecords(more[1..]));
      ReadRecord(records, more[0]);
      ReadRecords(records + [more[0]], more[1..]);
      assert records + [more[0]] + more[1..] == records + more;
    }
  }

  /** Reading written records gives them back, whatever their fields contain. */
  lemma CsvRoundTrip(records: seq<Record>)
    requires forall i :: 0 <= i < |records| ==> |records[i]| >= 1
    ensures ParseCsv(EncodeRecords(records)) == records
  {
    ReadRecords([], records);
    assert [] + records == records;
  }
}
