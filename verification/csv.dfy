/** CSV output of the DIF screen: `csvEscape` and the way the report joins
    fields with `,` and records with a line feed. The reader below is an
    independent definition of the quoting rules of section 2 of RFC 4180
    (rules 5 to 7), against which the writer is proved: reading back what
    was written yields the same fields. */
module Csv {
  import opened Text

  /** The characters whose presence makes `csvEscape` quote a field. */
  predicate IsSpecial(c: char)
  {
    c == '"' || c == ',' || c == '\n' || c == '\r'
  }

  predicate NeedsQuotes(s: string)
  {
    exists k :: 0 <= k < |s| && IsSpecial(s[k])
  }

  /** Every `"` written twice. */
  function DoubleQuotes(s: string): (r: string)
    ensures |r| >= |s|
  {
    if s == [] then []
    else (if s[0] == '"' then "\"\"" else [s[0]]) + DoubleQuotes(s[1..])
  }

  /** `csvEscape(s)`: the field itself when it holds none of `"` `,` LF CR,
      otherwise the field between quotes with every inner quote doubled. */
  function CsvEscape(s: string): (r: string)
    ensures !NeedsQuotes(s) ==> r == s
    ensures NeedsQuotes(s) ==> |r| >= |s| + 2 && r[0] == '"' && r[|r| - 1] == '"'
  {
    if NeedsQuotes(s) then "\"" + DoubleQuotes(s) + "\"" else s
  }

  function EscapeAll(fields: seq<string>): (r: seq<string>)
    ensures |r| == |fields|
    ensures forall k :: 0 <= k < |fields| ==> r[k] == CsvEscape(fields[k])
  {
    if fields == [] then [] else [CsvEscape(fields[0])] + EscapeAll(fields[1..])
  }

  /** One CSV record: the escaped fields joined by commas. */
  function WriteRecord(fields: seq<string>): string
  {
    Join(EscapeAll(fields), ",")
  }

  function WriteRecords(records: seq<seq<string>>): (r: seq<string>)
    ensures |r| == |records|
    ensures forall k :: 0 <= k < |records| ==> r[k] == WriteRecord(records[k])
  {
    if records == [] then [] else [WriteRecord(records[0])] + WriteRecords(records[1..])
  }

  /** A whole CSV text: the records joined by line feeds. */
  function WriteTable(records: seq<seq<string>>): string
  {
    Join(WriteRecords(records), "\n")
  }

  // ---------------------------------------------------------------------
  // The reader.

  /** Reads the inside of a quoted field, the opening quote already consumed:
      a doubled quote stands for one quote, a single quote closes the field.
      Returns the field and the text after the closing quote. */
  function ReadQuoted(s: string): (r: (string, string))
    ensures |r.1| <= |s|
  {
    if s == [] then ("", "")
    else if s[0] == '"' then
      if |s| >= 2 && s[1] == '"' then
        var (f, rest) := ReadQuoted(s[2..]);
        ("\"" + f, rest)
      else ("", s[1..])
    else
      var (f, rest) := ReadQuoted(s[1..]);
      ([s[0]] + f, rest)
  }

  /** Reads an unquoted field: everything up to the next comma or line feed. */
  function ReadBare(s: string): (r: (string, string))
    ensures |r.1| <= |s|
  {
    if s == [] || s[0] == ',' || s[0] == '\n' then ("", s)
    else
      var (f, rest) := ReadBare(s[1..]);
      ([s[0]] + f, rest)
  }

  function ReadField(s: string): (r: (string, string))
    ensures |r.1| <= |s|
  {
    if s != [] && s[0] == '"' then ReadQuoted(s[1..]) else ReadBare(s)
  }

  /** Reads fields separated by commas up to a line feed or the end. */
  function ReadRecord(s: string): (r: (seq<string>, string))
    ensures |r.1| <= |s|
    decreases |s|
  {
    var (f, rest) := ReadField(s);
    if rest != [] && rest[0] == ',' then
      var (fs, rest') := ReadRecord(rest[1..]);
      ([f] + fs, rest')
    else ([f], rest)
  }

  /** Reads records separated by line feeds up to the end of the text. */
  function ReadTable(s: string): seq<seq<string>>
    decreases |s|
  {
    var (rec, rest) := ReadRecord(s);
    if rest == [] then [rec] else [rec] + ReadTable(rest[1..])
  }

  // ---------------------------------------------------------------------
  // Writing then reading gives back the fields.

  /** What may follow a field: the end of the text, a comma or a line feed. */
  predicate FieldEnd(t: string)
  {
    t == [] || t[0] == ',' || t[0] == '\n'
  }

  predicate RecordEnd(t: string)
  {
    t == [] || t[0] == '\n'
  }

  lemma {:induction false} ReadQuotedDoubled(f: string, t: string)
    requires FieldEnd(t)
    ensures ReadQuoted(DoubleQuotes(f) + "\"" + t) == (f, t)
  {
    var s := DoubleQuotes(f) + "\"" + t;
    if f == [] {
      assert s == "\"" + t;
      assert s[1..] == t;
    } else if f[0] == '"' {
      assert s == "\"\"" + (DoubleQuotes(f[1..]) + "\"" + t);
      ReadQuotedDoubled(f[1..], t);
      assert s[2..] == DoubleQuotes(f[1..]) + "\"" + t;
      assert f == "\"" + f[1..];
    } else {
      assert s == [f[0]] + (DoubleQuotes(f[1..]) + "\"" + t);
      ReadQuotedDoubled(f[1..], t);
      assert s[1..] == DoubleQuotes(f[1..]) + "\"" + t;
      assert f == [f[0]] + f[1..];
    }
  }

  lemma {:induction false} ReadBarePlain(f: string, t: string)
    requires !NeedsQuotes(f)
    requires FieldEnd(t)
    ensures ReadBare(f + t) == (f, t)
  {
    if f == [] {
      assert f + t == t;
    } else {
      assert !IsSpecial(f[0]);
      assert !NeedsQuotes(f[1..]) by {
        forall k | 0 <= k < |f[1..]| ensures !IsSpecial(f[1..][k]) {
          assert f[1..][k] == f[k + 1];
        }
      }
      ReadBarePlain(f[1..], t);
      assert (f + t)[1..] == f[1..] + t;
      assert f == [f[0]] + f[1..];
    }
  }

  /** One escaped field reads back as the field itself. */
  lemma {:induction false} ReadFieldEscaped(f: string, t: string)
    requires FieldEnd(t)
    ensures ReadField(CsvEscape(f) + t) == (f, t)
  {
    if NeedsQuotes(f) {
      ReadFieldQuoted(f, t);
    } else {
      ReadFieldBare(f, t);
    }
  }

  lemma {:induction false} ReadFieldQuoted(f: string, t: string)
    requires FieldEnd(t) && NeedsQuotes(f)
    ensures ReadField(CsvEscape(f) + t) == (f, t)
  {
    var inner := DoubleQuotes(f) + "\"" + t;
    var s := CsvEscape(f) + t;
    assert s == ['"'] + inner;
    assert s[1..] == inner;
    ReadQuotedDoubled(f, t);
  }

  lemma {:induction false} ReadFieldBare(f: string, t: string)
    requires FieldEnd(t) && !NeedsQuotes(f)
    ensures ReadField(CsvEscape(f) + t) == (f, t)
  {
    if f != [] {
      assert !IsSpecial(f[0]);
      assert (f + t)[0] == f[0];
    }
    ReadBarePlain(f, t);
  }

  lemma {:induction false} ReadRecordWritten(fields: seq<string>, t: string)
    requires |fields| >= 1
    requires RecordEnd(t)
    ensures ReadRecord(WriteRecord(fields) + t) == (fields, t)
  {
    var e := EscapeAll(fields);
    if |fields| == 1 {
      assert WriteRecord(fields) == CsvEscape(fields[0]);
      ReadFieldEscaped(fields[0], t);
      assert fields == [fields[0]];
    } else {
      var tail := WriteRecord(fields[1..]) + t;
      assert EscapeAll(fields[1..]) == e[1..];
      assert WriteRecord(fields) + t == CsvEscape(fields[0]) + ("," + tail);
      ReadFieldEscaped(fields[0], "," + tail);
      assert ("," + tail)[1..] == tail;
      ReadRecordWritten(fields[1..], t);
      assert fields == [fields[0]] + fields[1..];
    }
  }

  /** Reading a written table gives back every record, field for field, as
      long as each record has a field (the report always writes four). */
  lemma {:induction false} ReadTableWritten(records: seq<seq<string>>)
    requires |records| >= 1
    requires forall k :: 0 <= k < |records| ==> |records[k]| >= 1
    ensures ReadTable(WriteTable(records)) == records
  {
    var w := WriteRecords(records);
    if |records| == 1 {
      assert WriteTable(records) == WriteRecord(records[0]) + "";
      ReadRecordWritten(records[0], "");
    } else {
      var tail := WriteTable(records[1..]);
      assert WriteRecords(records[1..]) == w[1..];
      assert WriteTable(records) == WriteRecord(records[0]) + ("\n" + tail);
      ReadRecordWritten(records[0], "\n" + tail);
      assert ("\n" + tail)[1..] == tail;
      ReadTableWritten(records[1..]);
      assert records == [records[0]] + records[1..];
    }
  }

  /** Fields that need no quoting are written as a plain comma-joined line. */
  lemma {:induction false} WriteRecordPlain(fields: seq<string>)
    requires forall k :: 0 <= k < |fields| ==> !NeedsQuotes(fields[k])
    ensures WriteRecord(fields) == Join(fields, ",")
  {
    assert EscapeAll(fields) == fields;
  }
}
