/** The CSV exporter: quoting, lines, and when a reader gets the table back. */
module CsvExporter {
  import opened Common
  import opened Values
  import opened Substrings
  import opened Quoting
  import opened CsvText

  datatype Format = Format(
    delimiter: string,
    quote: string,
    nullString: string,
    lineEnding: string,
    includeHeader: bool,
    forceQuotes: bool)

  // ---------------------------------------------------------------- what a field is written as

  predicate NeedsQuotes(f: Format, field: string) {
    f.forceQuotes
    || (f.delimiter != "" && Occurs(field, f.delimiter))
    || (f.quote != "" && Occurs(field, f.quote))
    || '\r' in field || '\n' in field
  }

  /** Every occurrence of the quote string written twice, found from the left without overlap. */
  function DoubledString(s: string, quote: string): string
    requires quote != ""
    decreases |s|
  {
    var hit := FirstOccurrence(s, quote);
    if hit.None? then s else
      s[..hit.value] + quote + quote + DoubledString(s[hit.value + |quote|..], quote)
  }

  function FieldText(f: Format, field: string, quoted: bool): string {
    if !quoted || f.quote == "" then field else f.quote + DoubledString(field, f.quote) + f.quote
  }

  /** The text of a cell, which a reader should get back. */
  function TextOf(f: Format, value: Value): string {
    match value
    case Null => f.nullString
    case Integer(number) => IntText(number)
    case Float(digits, finite) => digits
    case Boolean(flag) => if flag then "true" else "false"
    case Text(text) => text
    case Blob(base64) => base64
    case DateTime(iso) => OrEmpty(iso)
  }

  function CellText(f: Format, value: Value): string {
    var text := TextOf(f, value);
    FieldText(f, text, if value.Null? then f.forceQuotes else NeedsQuotes(f, text))
  }

  function RowTexts(f: Format, row: Row): (r: seq<string>)
    ensures |r| == |row|
  {
    Map((field: Field) => TextOf(f, field.value), row)
  }

  function RowCells(f: Format, row: Row): (r: seq<string>)
    ensures |r| == |row|
  {
    Map((field: Field) => CellText(f, field.value), row)
  }

  function HeaderCells(f: Format, columns: seq<Option<string>>): (r: seq<string>)
    ensures |r| == |columns|
  {
    Map(name => FieldText(f, OrEmpty(name), NeedsQuotes(f, OrEmpty(name))), columns)
  }

  function RowLine(f: Format, row: Row): string {
    Join(RowCells(f, row), f.delimiter) + f.lineEnding
  }

  function Header(f: Format, columns: seq<Option<string>>): string {
    if !f.includeHeader || columns == [] then "" else Join(HeaderCells(f, columns), f.delimiter) + f.lineEnding
  }

  function Lines(f: Format, rows: seq<Row>): string {
    if rows == [] then "" else RowLine(f, rows[0]) + Lines(f, rows[1..])
  }

  /** The whole export. */
  function Output(f: Format, columns: seq<Option<string>>, rows: seq<Row>): string {
    Header(f, columns) + Lines(f, rows)
  }

  /** What a reader should see: the header, if there is one, and the text of every cell. */
  function Table(f: Format, columns: seq<Option<string>>, rows: seq<Row>): seq<seq<string>> {
    (if !f.includeHeader || columns == [] then [] else [Map(OrEmpty, columns)])
    + Map(row => RowTexts(f, row), rows)
  }

  /** The text that stands for a cell, kind by kind. */
  predicate Spells(text: string, value: Value, nullString: string) {
    match value
    case Boolean(flag) => text == if flag then "true" else "false"
    case Integer(number) => text == IntText(number)
    case Float(digits, _) => text == digits
    case Text(content) => text == content
    case Blob(base64) => text == base64
    case DateTime(iso) => text == if iso.Some? then iso.value else ""
    case Null => text == nullString
  }

  /** What a table is as records: the column names, if they are wanted and there are any, and a record for each row. */
  predicate ShowsTable(records: seq<seq<string>>, f: Format, columns: seq<Option<string>>, rows: seq<Row>) {
    var first := if f.includeHeader && columns != [] then 1 else 0;
    && |records| == first + |rows|
    && (first == 1 ==>
          |records[0]| == |columns|
          && forall i | 0 <= i < |columns| :: records[0][i] == if columns[i].Some? then columns[i].value else "")
    && forall k, i | 0 <= k < |rows| && 0 <= i < |rows[k]| ::
         |records[first + k]| == |rows[k]| && Spells(records[first + k][i], rows[k][i].value, f.nullString)
  }

  lemma TableShows(f: Format, columns: seq<Option<string>>, rows: seq<Row>)
    ensures ShowsTable(Table(f, columns, rows), f, columns, rows)
  {
  }

  // ---------------------------------------------------------------- the exporter object

  lemma DoublingStep(s: string, quote: string)
    requires quote != ""
    ensures match FirstOccurrence(s, quote)
            case None => DoubledString(s, quote) == s
            case Some(k) =>
              && k + |quote| <= |s|
              && DoubledString(s, quote) == s[..k] + quote + quote + DoubledString(s[k + |quote|..], quote)
  {
    hide FirstOccurrence, Occurs;
  }

  class Exporter {
    var delimiter: string
    var quoteString: string
    var nullString: string
    var lineEnding: string
    var includeHeader: bool
    var forceQuotes: bool

    function Settings(): Format
      reads this
    {
      Format(delimiter, quoteString, nullString, lineEnding, includeHeader, forceQuotes)
    }

    constructor ()
      ensures Settings() == Format(",", "\"", "", "\n", true, false)
    {
      delimiter, quoteString, nullString, lineEnding := ",", "\"", "", "\n";
      includeHeader, forceQuotes := true, false;
    }

    method AppendField(field: string, quoted: bool) returns (out: string)
      ensures out == FieldText(Settings(), field, quoted)
      ensures !quoted || quoteString == "" ==> out == field
    {
      hide DoubledString, FirstOccurrence, OccursAt, Occurs;
      var quote := quoteString;
      if !quoted || quote == "" {
        return field;
      }
      out := quote;
      var p := 0;
      var hit := FirstOccurrence(field, quote);
      assert field[0..] == field;
      while hit.Some?
        invariant 0 <= p <= |field|
        invariant hit == FirstOccurrence(field[p..], quote)
        invariant out + DoubledString(field[p..], quote) == quote + DoubledString(field, quote)
        decreases |field| - p
      {
        DoublingStep(field[p..], quote);
        out := out + (field[p..][..hit.value] + quote + quote);
        assert field[p..][hit.value + |quote|..] == field[p + hit.value + |quote|..];
        p := p + hit.value + |quote|;
        hit := FirstOccurrence(field[p..], quote);
      }
      DoublingStep(field[p..], quote);
      out := out + field[p..] + quote;
    }

    method AppendValue(value: Value) returns (out: string)
      ensures out == CellText(Settings(), value)
    {
      var text;
      match value {
        case Null =>
          out := AppendField(nullString, forceQuotes);
          return;
        case Integer(number) => text := IntText(number);
        case Float(digits, _) => text := digits;
        case Boolean(flag) => text := if flag then "true" else "false";
        case Text(content) => text := content;
        case Blob(base64) => text := base64;
        case DateTime(iso) => text := OrEmpty(iso);
      }
      var quoted := forceQuotes
        || (delimiter != "" && FirstOccurrence(text, delimiter).Some?)
        || (quoteString != "" && FirstOccurrence(text, quoteString).Some?)
        || '\r' in text || '\n' in text;
      out := AppendField(text, quoted);
    }

    method WriteBegin(columns: seq<Option<string>>) returns (out: string)
      ensures out == Header(Settings(), columns)
    {
      out := "";
      if !includeHeader || columns == [] {
        return;
      }
      ghost var cells := HeaderCells(Settings(), columns);
      for i := 0 to |columns|
        invariant out == Join(cells[..i], delimiter)
      {
        JoinUpTo(cells, i, delimiter);
        var name := OrEmpty(columns[i]);
        var quoted := forceQuotes
          || (delimiter != "" && FirstOccurrence(name, delimiter).Some?)
          || (quoteString != "" && FirstOccurrence(name, quoteString).Some?)
          || '\r' in name || '\n' in name;
        var cell := AppendField(name, quoted);
        out := out + (if i > 0 then delimiter else "") + cell;
      }
      assert cells[..|columns|] == cells;
      out := out + lineEnding;
    }

    method WriteRow(row: Row) returns (out: string)
      ensures out == RowLine(Settings(), row)
    {
      out := "";
      ghost var cells := RowCells(Settings(), row);
      for i := 0 to |row|
        invariant out == Join(cells[..i], delimiter)
      {
        JoinUpTo(cells, i, delimiter);
        var cell := AppendValue(row[i].value);
        out := out + (if i > 0 then delimiter else "") + cell;
      }
      assert cells[..|row|] == cells;
      out := out + lineEnding;
    }
  }

  // ---------------------------------------------------------------- reading the export

  function MarksOf(f: Format): Marks
    requires |f.delimiter| == |f.quote| == 1
  {
    Marks(f.delimiter[0], f.quote[0])
  }

  /** The settings section 2 of RFC 4180 allows for, with any two characters and either line break. */
  predicate Standard(f: Format) {
    |f.delimiter| == |f.quote| == 1 && GoodMarks(MarksOf(f)) && IsLineEnding(f.lineEnding)
  }

  /** The null string is written so that it can be read: quoted, or free of everything special. */
  predicate NullReadable(f: Format)
    requires |f.delimiter| == |f.quote| == 1
  {
    f.forceQuotes || Plain(f.nullString, MarksOf(f))
  }

  lemma OccursOne(s: string, t: string)
    requires |t| == 1
    ensures Occurs(s, t) <==> t[0] in s
  {
    if t[0] in s {
      var i :| 0 <= i < |s| && s[i] == t[0];
      assert OccursAt(s, t, i);
    }
  }

  lemma {:induction false} DoublingIsCharwise(s: string, quote: string)
    requires |quote| == 1
    ensures DoubledString(s, quote) == Doubled(s, quote[0])
    decreases |s|
  {
    hide FirstOccurrence, Occurs, OccursAt, DoubledString, Doubled;
    DoublingStep(s, quote);
    OccursOne(s, quote);
    if FirstOccurrence(s, quote).None? {
      Undoubled(s, quote[0]);
    } else {
      var k := FirstOccurrence(s, quote).value;
      FirstOfOne(s, quote);
      DoublingIsCharwise(s[k + 1..], quote);
      DoubledPrefix(s, k, quote[0]);
      assert quote == [quote[0]];
    }
  }

  lemma FirstOfOne(s: string, quote: string)
    requires |quote| == 1 && FirstOccurrence(s, quote).Some?
    ensures var k := FirstOccurrence(s, quote).value;
            k < |s| && s[k] == quote[0] && forall i | 0 <= i < k :: s[i] != quote[0]
  {
    hide FirstOccurrence;
    var k := FirstOccurrence(s, quote).value;
    assert s[k..k + 1] == [s[k]];
    forall i | 0 <= i < k ensures s[i] != quote[0] {
      assert !OccursAt(s, quote, i);
      assert s[i..i + 1] == [s[i]] && quote == [quote[0]];
    }
  }

  lemma {:induction false} DoubledPrefix(s: string, k: nat, quote: char)
    requires k < |s| && s[k] == quote && forall i | 0 <= i < k :: s[i] != quote
    ensures Doubled(s, quote) == s[..k] + [quote] + [quote] + Doubled(s[k + 1..], quote)
  {
    if k > 0 {
      DoubledPrefix(s[1..], k - 1, quote);
      assert s[1..][k..] == s[k + 1..] && s[..k] == [s[0]] + s[1..][..k - 1];
    }
  }

  lemma FieldIsReadable(f: Format, text: string, quoted: bool)
    requires Standard(f) && (quoted || Plain(text, MarksOf(f)))
    ensures Writes(FieldText(f, text, quoted), text, MarksOf(f))
  {
    DoublingIsCharwise(text, f.quote);
    assert f.quote == [f.quote[0]];
  }

  lemma NeedsQuotesIsExact(f: Format, text: string)
    requires Standard(f)
    ensures NeedsQuotes(f, text) <==> f.forceQuotes || !Plain(text, MarksOf(f))
  {
    OccursOne(text, f.delimiter);
    OccursOne(text, f.quote);
  }

  lemma CellIsReadable(f: Format, value: Value)
    requires Standard(f) && (value.Null? ==> NullReadable(f))
    ensures Writes(CellText(f, value), TextOf(f, value), MarksOf(f))
  {
    var text := TextOf(f, value);
    NeedsQuotesIsExact(f, text);
    FieldIsReadable(f, text, if value.Null? then f.forceQuotes else NeedsQuotes(f, text));
  }

  predicate HasColumns(rows: seq<Row>) {
    forall i | 0 <= i < |rows| :: rows[i] != []
  }

  /** The row has columns, and no NULL that is written as it stands although it has something special in it. */
  predicate Readable(f: Format, row: Row)
    requires |f.delimiter| == |f.quote| == 1
  {
    row != [] && (NullReadable(f) || forall i | 0 <= i < |row| :: !row[i].value.Null?)
  }

  lemma ReadableLine(f: Format, row: Row, rest: string)
    requires Standard(f) && Readable(f, row)
    ensures var others := Read(rest, MarksOf(f));
            Read(RowLine(f, row) + rest, MarksOf(f))
            == if others.Some? then Some([RowTexts(f, row)] + others.value) else None
  {
    hide Read, CellText, TextOf, Join, Writes;
    forall i | 0 <= i < |row| ensures Writes(RowCells(f, row)[i], RowTexts(f, row)[i], MarksOf(f)) {
      CellIsReadable(f, row[i].value);
    }
    LineReads(f, RowCells(f, row), RowTexts(f, row), rest);
  }

  lemma UnreadableLine(f: Format, row: Row, rest: string)
    requires Standard(f) && !Readable(f, row)
    ensures var r := Read(RowLine(f, row) + rest, MarksOf(f));
            r.Some? ==> |r.value| > 0 && r.value[0] != RowTexts(f, row)
  {
    hide Read, CellText, TextOf, Join, Writes, ReadRecord, Plain;
    var s := RowLine(f, row) + rest;
    FirstOfFile(s, MarksOf(f));
    if row != [] {
      var cells, texts := RowCells(f, row), RowTexts(f, row);
      var bad :| 0 <= bad < |row| && row[bad].value.Null?;
      forall i | 0 <= i < |row| ensures WritesOrNot(cells[i], texts[i], MarksOf(f)) {
        if row[i].value.Null? {
          BareNull(f);
        } else {
          CellIsReadable(f, row[i].value);
        }
      }
      BareNull(f);
      assert f.delimiter == [MarksOf(f).delimiter];
      UnreadableRecord(cells, texts, f.lineEnding, rest, MarksOf(f), bad);
    }
  }

  lemma BareNull(f: Format)
    requires Standard(f) && !NullReadable(f)
    ensures CellText(f, Null) == TextOf(f, Null) == f.nullString && !Plain(f.nullString, MarksOf(f))
  {
  }

  /** The lines are read back if and only if every row is readable. */
  lemma {:induction false} LinesReadBack(f: Format, rows: seq<Row>)
    requires Standard(f)
    ensures Read(Lines(f, rows), MarksOf(f)) == Some(Map(row => RowTexts(f, row), rows))
            <==> forall i | 0 <= i < |rows| :: Readable(f, rows[i])
  {
    hide Read, RowLine, RowTexts, Readable;
    if rows == [] {
      NoLinesRead(f);
      assert Map(row => RowTexts(f, row), rows) == [];
    } else {
      var first, rest := RowTexts(f, rows[0]), Lines(f, rows[1..]);
      LinesReadBack(f, rows[1..]);
      assert Map(row => RowTexts(f, row), rows) == [first] + Map(row => RowTexts(f, row), rows[1..]);
      assert rows == [rows[0]] + rows[1..];
      if Readable(f, rows[0]) {
        ReadableLine(f, rows[0], rest);
        var others := Read(rest, MarksOf(f));
        assert others.Some? ==> ([first] + others.value)[1..] == others.value;
        assert ([first] + Map(row => RowTexts(f, row), rows[1..]))[1..] == Map(row => RowTexts(f, row), rows[1..]);
      } else {
        UnreadableLine(f, rows[0], rest);
        assert ([first] + Map(row => RowTexts(f, row), rows[1..]))[0] == first;
      }
    }
  }

  lemma NoLinesRead(f: Format)
    requires Standard(f)
    ensures Read(Lines(f, []), MarksOf(f)) == Some([])
  {
  }

  lemma LineReads(f: Format, cells: seq<string>, texts: seq<string>, rest: string)
    requires Standard(f) && |cells| == |texts| > 0
    requires forall i | 0 <= i < |cells| :: Writes(cells[i], texts[i], MarksOf(f))
    ensures var others := Read(rest, MarksOf(f));
            Read(Join(cells, f.delimiter) + f.lineEnding + rest, MarksOf(f))
            == if others.Some? then Some([texts] + others.value) else None
  {
    hide ReadRecord, Writes, Join, Read;
    assert f.delimiter == [MarksOf(f).delimiter];
    RecordReads(cells, texts, f.lineEnding, rest, MarksOf(f));
    RecordThenRead(Join(cells, f.delimiter) + f.lineEnding, texts, rest, MarksOf(f));
  }

  lemma HeaderReads(f: Format, columns: seq<Option<string>>, rest: string)
    requires Standard(f) && f.includeHeader && columns != []
    ensures var others := Read(rest, MarksOf(f));
            Read(Header(f, columns) + rest, MarksOf(f))
            == if others.Some? then Some([Map(OrEmpty, columns)] + others.value) else None
  {
    hide Read, Writes, Join, NeedsQuotes, Plain, FieldText;
    var names := Map(OrEmpty, columns);
    forall i | 0 <= i < |columns| ensures Writes(HeaderCells(f, columns)[i], names[i], MarksOf(f)) {
      NeedsQuotesIsExact(f, names[i]);
      FieldIsReadable(f, names[i], NeedsQuotes(f, names[i]));
    }
    LineReads(f, HeaderCells(f, columns), names, rest);
  }

  /**
   An export is read back if and only if every row has columns, and the null string is quoted or has
   nothing special in it unless there is no NULL.
   */
  lemma TableReadsBack(f: Format, columns: seq<Option<string>>, rows: seq<Row>)
    requires Standard(f)
    ensures Read(Output(f, columns, rows), MarksOf(f)) == Some(Table(f, columns, rows))
            <==> forall i | 0 <= i < |rows| :: Readable(f, rows[i])
    ensures ShowsTable(Table(f, columns, rows), f, columns, rows)
  {
    hide Read, Lines, Header, RowTexts, Readable, ShowsTable;
    TableShows(f, columns, rows);
    LinesReadBack(f, rows);
    if f.includeHeader && columns != [] {
      HeaderReads(f, columns, Lines(f, rows));
      var names, others := Map(OrEmpty, columns), Read(Lines(f, rows), MarksOf(f));
      var texts := Map(row => RowTexts(f, row), rows);
      assert others.Some? ==> ([names] + others.value)[1..] == others.value;
      assert ([names] + texts)[1..] == texts;
    } else {
      NoHeader(f, columns, rows);
    }
  }

  /** Under a readable null string a table is read back if and only if every row of it has columns. */
  lemma ExportReadsBack(f: Format, columns: seq<Option<string>>, rows: seq<Row>)
    requires Standard(f) && NullReadable(f)
    ensures Read(Output(f, columns, rows), MarksOf(f)) == Some(Table(f, columns, rows)) <==> HasColumns(rows)
  {
    hide Read, Output, Table, Plain;
    TableReadsBack(f, columns, rows);
    if HasColumns(rows) {
      assert forall i | 0 <= i < |rows| :: Readable(f, rows[i]);
    } else {
      var i :| 0 <= i < |rows| && rows[i] == [];
      assert !Readable(f, rows[i]);
    }
  }

  lemma NoHeader(f: Format, columns: seq<Option<string>>, rows: seq<Row>)
    requires !f.includeHeader || columns == []
    ensures Output(f, columns, rows) == Lines(f, rows)
    ensures Table(f, columns, rows) == Map(row => RowTexts(f, row), rows)
  {
  }

  /** A table with one column, and in its one row a NULL. */
  function OneNull(name: Option<string>): Row {
    [Field(name, Null)]
  }

  /**
   The condition on the null string is exact: a reader gets every table with at least one column
   back if and only if the null string is quoted or has nothing special in it.
   */
  lemma NullStringCondition(f: Format)
    requires Standard(f)
    ensures NullReadable(f)
            <==> (forall columns: seq<Option<string>>, rows: seq<Row> | HasColumns(rows) ::
                    Read(Output(f, columns, rows), MarksOf(f)) == Some(Table(f, columns, rows)))
  {
    hide Read, Output, Table, NullReadable;
    forall columns: seq<Option<string>>, rows: seq<Row> | HasColumns(rows) && NullReadable(f)
      ensures Read(Output(f, columns, rows), MarksOf(f)) == Some(Table(f, columns, rows))
    {
      ExportReadsBack(f, columns, rows);
    }
    var rows := [OneNull(None)];
    TableReadsBack(f, [], rows);
    OneNullIsReadable(f);
    assert HasColumns(rows);
  }

  lemma OneNullIsReadable(f: Format)
    requires Standard(f)
    ensures (forall i | 0 <= i < |[OneNull(None)]| :: Readable(f, [OneNull(None)][i])) <==> NullReadable(f)
  {
    assert [OneNull(None)][0] == OneNull(None) && OneNull(None)[0].value == Null;
  }

  /** A row without columns is written as an empty line, which a reader takes for one empty field. */
  lemma RowWithoutColumns(f: Format)
    requires Standard(f)
    ensures Read(Output(f, [], [[]]), MarksOf(f)) == Some([[""]])
    ensures Table(f, [], [[]]) == [[]]
  {
    NoHeader(f, [], [[]]);
    assert Lines(f, [[]]) == f.lineEnding;
    LineReads(f, [""], [""], "");
    assert [[""]] + [] == [[""]];
    assert Join([""], f.delimiter) + f.lineEnding + "" == f.lineEnding;
    assert RowTexts(f, []) == [];
  }

  /** Under a readable null string, a NULL is written like a text exactly when the two are the same. */
  lemma NullIsDistinct(f: Format, text: string)
    requires Standard(f) && NullReadable(f)
    ensures CellText(f, Null) == CellText(f, Text(text)) <==> f.nullString == text
  {
    hide ReadField, Writes, FieldText;
    CellIsReadable(f, Null);
    CellIsReadable(f, Text(text));
    FieldReads(CellText(f, Null), f.nullString, "", MarksOf(f));
    FieldReads(CellText(f, Text(text)), text, "", MarksOf(f));
    NeedsQuotesIsExact(f, text);
  }
}
