/**
 * The text side of the CSV export: one header row of column labels, then one row per
 * record with one field per column key, the rows joined by LF and the whole content
 * prefixed with a U+FEFF byte-order mark.  Data fields are quoted as section 2, rules
 * 5-7, of RFC 4180 describe; header labels are written as they are, unquoted.
 *
 * The partner of the writer is an independent reader (`Parse`) in the style of RFC 4180
 * (LF as the record separator); the main theorem is that reading the exported content
 * gives back the labels and the text of every cell when no label holds ',', '"' or LF.
 */
module CsvExport {
  import opened Wrappers

  /** The byte-order mark written before the rows, for spreadsheet programs. */
  const BOM: char := '\U{FEFF}'

  /**
   * The value a record holds under a key: missing (`undefined`), `null`, or anything
   * else, represented by the text `String(value)` gives for it.
   */
  datatype Cell = Undefined | Null | Text(text: string)

  type Record = map<string, Cell>

  /** One entry of the header mapping: the record key and the label shown for it. */
  datatype Column = Column(key: string, heading: string)

  // ---------------------------------------------------------------------------
  // Writer

  /** The keys of the header mapping, in order. */
  function Keys(cols: seq<Column>): (ks: seq<string>)
    ensures |ks| == |cols| && forall i :: 0 <= i < |cols| ==> ks[i] == cols[i].key
  {
    if |cols| == 0 then [] else [cols[0].key] + Keys(cols[1..])
  }

  /** The labels of the header mapping, in order. */
  function Labels(cols: seq<Column>): (ls: seq<string>)
    ensures |ls| == |cols| && forall i :: 0 <= i < |cols| ==> ls[i] == cols[i].heading
  {
    if |cols| == 0 then [] else [cols[0].heading] + Labels(cols[1..])
  }

  /** `Array.prototype.join` with a one-character separator. */
  function Join(parts: seq<string>, sep: char): string {
    if |parts| == 0 then ""
    else if |parts| == 1 then parts[0]
    else parts[0] + [sep] + Join(parts[1..], sep)
  }

  /** The text of a record's value under `key`; a missing or null value is the empty text. */
  function CellText(row: Record, key: string): (t: string)
    ensures key !in row || row[key] == Undefined || row[key] == Null ==> t == ""
    ensures key in row && row[key].Text? ==> t == row[key].text
  {
    if key !in row then ""
    else match row[key]
      case Undefined => ""
      case Null => ""
      case Text(t) => t
  }

  /** A field that holds a comma, a double quote or a line feed has to be quoted. */
  predicate NeedsQuotes(s: string) {
    ',' in s || '"' in s || '\n' in s
  }

  /** `s` with every double quote written twice. */
  function DoubleQuotes(s: string): (r: string)
    ensures |r| >= |s|
    ensures '"' !in s ==> r == s
  {
    if s == [] then []
    else (if s[0] == '"' then "\"\"" else [s[0]]) + DoubleQuotes(s[1..])
  }

  /** The field as written: quoted, with inner quotes doubled, when it needs quotes; unchanged otherwise. */
  function Escape(s: string): (r: string)
    ensures !NeedsQuotes(s) ==> r == s
    ensures NeedsQuotes(s) ==> |r| >= 2 && r[0] == '"' && r[|r| - 1] == '"'
  {
    if NeedsQuotes(s) then "\"" + DoubleQuotes(s) + "\"" else s
  }

  /** Each text of `fs`, escaped. */
  function EscapeAll(fs: seq<string>): (r: seq<string>)
    ensures |r| == |fs| && forall i :: 0 <= i < |fs| ==> r[i] == Escape(fs[i])
  {
    if |fs| == 0 then [] else [Escape(fs[0])] + EscapeAll(fs[1..])
  }

  /** The texts of a record's fields, in header-key order. */
  function RowTexts(row: Record, keys: seq<string>): (ts: seq<string>)
    ensures |ts| == |keys| && forall i :: 0 <= i < |keys| ==> ts[i] == CellText(row, keys[i])
  {
    if |keys| == 0 then [] else [CellText(row, keys[0])] + RowTexts(row, keys[1..])
  }

  /**
   * The header row: the labels joined by commas, none of them escaped, so it reads back as
   * the labels only when no label needs quotes.
   */
  function HeaderRow(cols: seq<Column>): (r: string)
    ensures |cols| > 0 && (forall i :: 0 <= i < |cols| ==> !NeedsQuotes(cols[i].heading)) ==> Parse(r) == [Labels(cols)]
  {
    var labels := Labels(cols);
    if |cols| > 0 && (forall i :: 0 <= i < |cols| ==> !NeedsQuotes(cols[i].heading)) then
      assert EscapeAll(labels) == labels;
      RowReadsBack(labels);
      Join(labels, ',')
    else
      Join(labels, ',')
  }

  /** One data row: the escaped field texts joined by commas; it reads back as one field per key. */
  function DataRow(row: Record, cols: seq<Column>): (r: string)
    ensures |cols| > 0 ==> Parse(r) == [RowTexts(row, Keys(cols))]
  {
    var texts := RowTexts(row, Keys(cols));
    if |cols| > 0 then
      RowReadsBack(texts);
      Join(EscapeAll(texts), ',')
    else
      Join(EscapeAll(texts), ',')
  }

  /** The header row, then one row per record in input order. */
  function Rows(data: seq<Record>, cols: seq<Column>): (rows: seq<string>)
    ensures |rows| == |data| + 1
    ensures rows[0] == HeaderRow(cols)
    ensures forall i :: 0 <= i < |data| ==> rows[i + 1] == DataRow(data[i], cols)
  {
    [HeaderRow(cols)] + DataRows(data, cols)
  }

  function DataRows(data: seq<Record>, cols: seq<Column>): (rows: seq<string>)
    ensures |rows| == |data| && forall i :: 0 <= i < |data| ==> rows[i] == DataRow(data[i], cols)
  {
    if |data| == 0 then [] else [DataRow(data[0], cols)] + DataRows(data[1..], cols)
  }

  /**
   * The content of the exported file, or None when there is no data (a missing or
   * empty array), in which case nothing is exported.
   */
  function ExportContent(data: Option<seq<Record>>, cols: seq<Column>): (r: Option<string>)
    ensures r.None? <==> data.None? || |data.value| == 0
    ensures r.Some? ==> |r.value| > 0 && r.value[0] == BOM
  {
    if data.None? || |data.value| == 0 then None
    else Some([BOM] + Join(Rows(data.value, cols), '\n'))
  }

  // ---------------------------------------------------------------------------
  // Reader (RFC 4180 style, LF between records)

  /** The text of an unquoted field and what follows it (empty, or starting at ',' or LF). */
  function ReadPlain(s: string): (r: (string, string))
    ensures |r.1| <= |s|
  {
    if s == [] || s[0] == ',' || s[0] == '\n' then ("", s)
    else
      var (f, rest) := ReadPlain(s[1..]);
      ([s[0]] + f, rest)
  }

  /** The text of a quoted field, `s` starting just after its opening quote, and what follows the closing quote. */
  function ReadQuoted(s: string): (r: (string, string))
    ensures |r.1| <= |s|
  {
    if s == [] then ("", [])
    else if s[0] == '"' then
      if |s| > 1 && s[1] == '"' then
        var (f, rest) := ReadQuoted(s[2..]);
        ("\"" + f, rest)
      else ("", s[1..])
    else
      var (f, rest) := ReadQuoted(s[1..]);
      ([s[0]] + f, rest)
  }

  /** One field, quoted or not, and the text after it. */
  function ReadField(s: string): (r: (string, string))
    ensures |r.1| <= |s|
  {
    if |s| > 0 && s[0] == '"' then ReadQuoted(s[1..]) else ReadPlain(s)
  }

  /** The records of `s`, the first one continuing the fields already read in `row`. */
  function ParseFrom(s: string, row: seq<string>): (records: seq<seq<string>>)
    ensures |records| > 0
    decreases |s|
  {
    var (f, rest) := ReadField(s);
    if rest == [] then [row + [f]]
    else if rest[0] == ',' then ParseFrom(rest[1..], row + [f])
    else if rest[0] == '\n' then [row + [f]] + ParseFrom(rest[1..], [])
    else [row + [f]]
  }

  /** The records of a CSV text, each a sequence of field texts. */
  function Parse(s: string): seq<seq<string>> {
    ParseFrom(s, [])
  }

  // ---------------------------------------------------------------------------
  // Round trips

  lemma {:induction false} PlainRoundTrip(f: string, r: string)
    requires ',' !in f && '\n' !in f
    requires r == [] || r[0] == ',' || r[0] == '\n'
    ensures ReadPlain(f + r) == (f, r)
  {
    if f == [] {
      assert f + r == r;
    } else {
      PlainRoundTrip(f[1..], r);
      assert (f + r)[1..] == f[1..] + r;
      assert [f[0]] + f[1..] == f;
    }
  }

  lemma {:induction false} QuotedRoundTrip(f: string, r: string)
    requires r == [] || r[0] != '"'
    ensures ReadQuoted(DoubleQuotes(f) + "\"" + r) == (f, r)
  {
    if f == [] {
      assert DoubleQuotes(f) + "\"" + r == "\"" + r;
      Regroup("\"", [], [], r);
    } else {
      var head := if f[0] == '"' then "\"\"" else [f[0]];
      var t := DoubleQuotes(f[1..]) + "\"" + r;
      Regroup(head, DoubleQuotes(f[1..]), "\"", r);
      assert DoubleQuotes(f) + "\"" + r == head + t;
      QuotedRoundTrip(f[1..], r);
      SplitFirst(f);
    }
  }

  lemma SplitFirst<T>(f: seq<T>)
    requires |f| > 0
    ensures [f[0]] + f[1..] == f
  {
  }

  /** Regrouping a concatenation of four pieces, and dropping the first piece again. */
  lemma Regroup<T>(a: seq<T>, b: seq<T>, c: seq<T>, d: seq<T>)
    ensures a + b + c + d == a + (b + c + d)
    ensures (a + (b + c + d))[|a|..] == b + c + d
  {
  }

  /** Reading an escaped field back, followed by a separator or the end, gives the field and the rest. */
  lemma FieldRoundTrip(f: string, r: string)
    requires r == [] || r[0] == ',' || r[0] == '\n'
    ensures ReadField(Escape(f) + r) == (f, r)
  {
    if NeedsQuotes(f) {
      QuotedFieldRoundTrip(f, r);
    } else {
      PlainFieldRoundTrip(f, r);
    }
  }

  lemma QuotedFieldRoundTrip(f: string, r: string)
    requires NeedsQuotes(f)
    requires r == [] || r[0] == ',' || r[0] == '\n'
    ensures ReadField(Escape(f) + r) == (f, r)
  {
    Regroup("\"", DoubleQuotes(f), "\"", r);
    QuotedRoundTrip(f, r);
  }

  lemma PlainFieldRoundTrip(f: string, r: string)
    requires !NeedsQuotes(f)
    requires r == [] || r[0] == ',' || r[0] == '\n'
    ensures ReadField(Escape(f) + r) == (f, r)
  {
    var s := f + r;
    if f != [] {
      assert s[0] == f[0];
    }
    PlainRoundTrip(f, r);
  }

  /** Escaping round-trips: unquoting a written field and undoubling its quotes recovers the text. */
  lemma EscapeRoundTrip(f: string)
    ensures ReadField(Escape(f)) == (f, "")
  {
    FieldRoundTrip(f, "");
    assert Escape(f) + "" == Escape(f);
  }

  /** A field followed by ',' continues the record in progress. */
  lemma ParseAfterComma(s: string, row: seq<string>, f: string, rest: string)
    requires ReadField(s) == (f, [','] + rest)
    ensures ParseFrom(s, row) == ParseFrom(rest, row + [f])
  {
    assert ([','] + rest)[1..] == rest;
  }

  /** A field followed by LF ends the record in progress; one followed by nothing ends the text. */
  lemma ParseAfterField(s: string, row: seq<string>, f: string, tail: string)
    requires tail == [] || tail[0] == '\n'
    requires ReadField(s) == (f, tail)
    ensures ParseFrom(s, row) == [row + [f]] + (if tail == [] then [] else ParseFrom(tail[1..], []))
  {
  }

  /** A row written from `fs` (at least one field) reads back as `fs`, ending the record in progress. */
  lemma {:induction false} RowRoundTrip(fs: seq<string>, row: seq<string>, tail: string)
    requires |fs| > 0
    requires tail == [] || tail[0] == '\n'
    ensures ParseFrom(Join(EscapeAll(fs), ',') + tail, row)
         == [row + fs] + (if tail == [] then [] else ParseFrom(tail[1..], []))
  {
    if |fs| == 1 {
      LastFieldRoundTrip(fs, row, tail);
    } else {
      RowRoundTrip(fs[1..], row + [fs[0]], tail);
      FirstFieldRoundTrip(fs, row, tail);
      AppendFirst(row, fs);
    }
  }

  /** A row on its own reads back as a single record. */
  lemma RowReadsBack(fs: seq<string>)
    requires |fs| > 0
    ensures Parse(Join(EscapeAll(fs), ',')) == [fs]
  {
    var t := Join(EscapeAll(fs), ',');
    RowRoundTrip(fs, [], "");
    assert t + "" == t;
    assert [] + fs == fs;
  }

  lemma AppendFirst<T>(row: seq<T>, fs: seq<T>)
    requires |fs| > 0
    ensures row + [fs[0]] + fs[1..] == row + fs
  {
    assert [fs[0]] + fs[1..] == fs;
  }

  lemma LastFieldRoundTrip(fs: seq<string>, row: seq<string>, tail: string)
    requires |fs| == 1
    requires tail == [] || tail[0] == '\n'
    ensures ParseFrom(Join(EscapeAll(fs), ',') + tail, row)
         == [row + fs] + (if tail == [] then [] else ParseFrom(tail[1..], []))
  {
    assert Join(EscapeAll(fs), ',') == Escape(fs[0]);
    FieldRoundTrip(fs[0], tail);
    ParseAfterField(Escape(fs[0]) + tail, row, fs[0], tail);
    assert row + fs == row + [fs[0]];
  }

  /** Reading the first field of a row of several moves it into the record in progress. */
  lemma FirstFieldRoundTrip(fs: seq<string>, row: seq<string>, tail: string)
    requires |fs| > 1
    requires tail == [] || tail[0] == '\n'
    ensures ParseFrom(Join(EscapeAll(fs), ',') + tail, row)
         == ParseFrom(Join(EscapeAll(fs[1..]), ',') + tail, row + [fs[0]])
  {
    var e := EscapeAll(fs);
    var rest := Join(EscapeAll(fs[1..]), ',') + tail;
    assert Join(e, ',') + tail == Escape(fs[0]) + ([','] + rest) by {
      assert e[1..] == EscapeAll(fs[1..]);
    }
    FieldRoundTrip(fs[0], [','] + rest);
    ParseAfterComma(Escape(fs[0]) + ([','] + rest), row, fs[0], rest);
  }

  /** The text of a table: each row's escaped fields joined by commas, the rows joined by LF. */
  function TableText(table: seq<seq<string>>): string {
    Join(EncodedRows(table), '\n')
  }

  function EncodedRows(table: seq<seq<string>>): (rs: seq<string>)
    ensures |rs| == |table| && forall i :: 0 <= i < |table| ==> rs[i] == Join(EscapeAll(table[i]), ',')
  {
    if |table| == 0 then [] else [Join(EscapeAll(table[0]), ',')] + EncodedRows(table[1..])
  }

  /** Any table whose rows all have a field reads back unchanged. */
  lemma {:induction false} TableRoundTrip(table: seq<seq<string>>)
    requires |table| > 0
    requires forall i :: 0 <= i < |table| ==> |table[i]| > 0
    ensures Parse(TableText(table)) == table
  {
    var rs := EncodedRows(table);
    if |table| == 1 {
      assert Join(rs, '\n') == Join(EscapeAll(table[0]), ',');
      RowRoundTrip(table[0], [], "");
      assert Join(EscapeAll(table[0]), ',') + "" == Join(EscapeAll(table[0]), ',');
      assert [] + table[0] == table[0];
    } else {
      var rest := Join(EncodedRows(table[1..]), '\n');
      assert rs[1..] == EncodedRows(table[1..]);
      assert Join(rs, '\n') == Join(EscapeAll(table[0]), ',') + (['\n'] + rest);
      RowRoundTrip(table[0], [], ['\n'] + rest);
      assert (['\n'] + rest)[1..] == rest;
      TableRoundTrip(table[1..]);
      assert [] + table[0] == table[0];
      assert [table[0]] + table[1..] == table;
    }
  }

  /** The text of every cell of `data`, one row per record, one field per key. */
  function CellTable(data: seq<Record>, keys: seq<string>): (t: seq<seq<string>>)
    ensures |t| == |data| && forall i :: 0 <= i < |data| ==> t[i] == RowTexts(data[i], keys)
  {
    if |data| == 0 then [] else [RowTexts(data[0], keys)] + CellTable(data[1..], keys)
  }

  /**
   * Reading the exported content after its byte-order mark gives the header labels, then
   * for each record the text of its value under each key, in order; this holds when at
   * least one column exists and no label needs quotes (labels are never escaped).
   */
  lemma ExportRoundTrip(data: seq<Record>, cols: seq<Column>)
    requires |data| > 0 && |cols| > 0
    requires forall i :: 0 <= i < |cols| ==> !NeedsQuotes(cols[i].heading)
    ensures var c := ExportContent(Some(data), cols);
      && c.Some? && |c.value| > 0 && c.value[0] == BOM
      && Parse(c.value[1..]) == [Labels(cols)] + CellTable(data, Keys(cols))
  {
    var table := [Labels(cols)] + CellTable(data, Keys(cols));
    var labels := Labels(cols);
    assert EscapeAll(labels) == labels;
    assert Rows(data, cols) == EncodedRows(table);
    TableRoundTrip(table);
    var c := [BOM] + Join(Rows(data, cols), '\n');
    assert c[1..] == TableText(table);
  }

  /**
   * Header labels are not escaped: a label holding a comma is read back as two fields,
   * which is where the header departs from RFC 4180.
   */
  lemma HeaderCommaSplits()
    ensures var cols := [Column("amount", "bet,win")];
      var c := ExportContent(Some([map[]]), cols);
      && c.Some? && Parse(c.value[1..])[0] == ["bet", "win"]
  {
    CommaLabelContent();
    Regroup([BOM], "bet,win\n", [], []);
    CommaLabelParse();
  }

  lemma CommaLabelContent()
    ensures ExportContent(Some([map[]]), [Column("amount", "bet,win")]) == Some([BOM] + "bet,win\n")
  {
    var cols := [Column("amount", "bet,win")];
    var rows := Rows([map[]], cols);
    assert rows == ["bet,win", ""] by {
      assert HeaderRow(cols) == "bet,win";
      assert DataRow(map[], cols) == "";
    }
    assert Join(rows, '\n') == "bet,win" + "\n" + "";
    assert "bet,win" + "\n" + "" == "bet,win\n";
  }

  lemma CommaLabelParse()
    ensures Parse("bet,win\n")[0] == ["bet", "win"]
  {
    assert !NeedsQuotes("bet") && !NeedsQuotes("win");
    FieldRoundTrip("bet", ",win\n");
    assert "bet" + ",win\n" == "bet,win\n";
    assert ",win\n" == [','] + "win\n";
    ParseAfterComma("bet,win\n", [], "bet", "win\n");
    FieldRoundTrip("win", "\n");
    assert "win" + "\n" == "win\n";
    ParseAfterField("win\n", ["bet"], "win", "\n");
  }


}
