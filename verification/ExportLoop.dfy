/** The export loops that every format shares, and what an export that succeeds has written. */
module ExportLoop {
  import opened Common
  import opened Values
  import opened Cursors
  import JT = JsonText
  import JE = JsonExporter
  import CT = CsvText
  import CE = CsvExporter

  /** A format: what its three hooks write.  A row is told whether a row was written before it. */
  datatype Hooks = Hooks(begin: seq<Option<string>> -> string, row: (bool, Row) -> string, end: bool -> string)

  function RowsText(hooks: Hooks, rows: seq<Row>): string {
    if rows == [] then "" else
      RowsText(hooks, rows[..|rows| - 1]) + hooks.row(|rows| > 1, rows[|rows| - 1])
  }

  /** Begin, every row, end. */
  function Whole(hooks: Hooks, columns: seq<Option<string>>, rows: seq<Row>): string {
    hooks.begin(columns) + RowsText(hooks, rows) + hooks.end(rows != [])
  }

  /** The part of a whole export that is there after begin and some of the rows. */
  function Part(hooks: Hooks, columns: seq<Option<string>>, rows: seq<Row>): string {
    hooks.begin(columns) + RowsText(hooks, rows)
  }

  lemma RowsTextStep(hooks: Hooks, rows: seq<Row>, i: nat)
    requires i < |rows|
    ensures RowsText(hooks, rows[..i + 1]) == RowsText(hooks, rows[..i]) + hooks.row(i > 0, rows[i])
  {
    assert rows[..i + 1][..i] == rows[..i];
  }

  lemma {:induction false} PartOfRows(hooks: Hooks, rows: seq<Row>, i: nat)
    requires i <= |rows|
    ensures RowsText(hooks, rows[..i]) <= RowsText(hooks, rows)
    decreases |rows| - i
  {
    if i < |rows| {
      PartOfRows(hooks, rows, i + 1);
      RowsTextStep(hooks, rows, i);
    } else {
      assert rows[..i] == rows;
    }
  }

  /** Whatever was written up to the i-th row, or within it, is the start of the whole. */
  lemma PartOfWhole(hooks: Hooks, columns: seq<Option<string>>, rows: seq<Row>, i: nat, more: string)
    requires i <= |rows|
    requires more <= (if i < |rows| then hooks.row(i > 0, rows[i]) else hooks.end(rows != []))
    ensures Part(hooks, columns, rows[..i]) + more <= Whole(hooks, columns, rows)
  {
    hide RowsText;
    if i < |rows| {
      RowsTextStep(hooks, rows, i);
      PartOfRows(hooks, rows, i + 1);
      PrefixOfPrefix(Part(hooks, columns, rows[..i]), more, hooks.row(i > 0, rows[i]));
      PrefixOfTail(hooks.begin(columns), RowsText(hooks, rows[..i + 1]), RowsText(hooks, rows), hooks.end(rows != []));
      assert Part(hooks, columns, rows[..i]) + hooks.row(i > 0, rows[i])
          == hooks.begin(columns) + RowsText(hooks, rows[..i + 1]);
    } else {
      assert rows[..i] == rows;
      PrefixOfPrefix(Part(hooks, columns, rows), more, hooks.end(rows != []));
    }
  }

  lemma PrefixOfPrefix(a: string, b: string, c: string)
    requires b <= c
    ensures a + b <= a + c
  {
  }

  lemma PrefixOfTail(a: string, b: string, c: string, d: string)
    requires b <= c
    ensures a + b <= a + c + d
  {
  }

  // ---------------------------------------------------------------- the exporter

  /** An output stream; a write that fails may have written some of its text. */
  class OutputStream {
    var written: string

    constructor ()
      ensures written == ""
    {
      written := "";
    }

    method Write(text: string) returns (ok: bool)
      modifies this
      ensures ok ==> written == old(written) + text
      ensures !ok ==> exists some :: some <= text && written == old(written) + some
    {
      ok := *;
      if ok {
        written := written + text;
      } else {
        var n :| 0 <= n <= |text|;
        assert text[..n] <= text;
        written := written + text[..n];
      }
    }
  }

  function ColumnsOf(row: Row): (columns: seq<Option<string>>)
    ensures |columns| == |row| && forall i | 0 <= i < |row| :: columns[i] == row[i].name
  {
    Map((field: Field) => field.name, row)
  }

  /** A materialized export has only its first row to take column names from. */
  function ColumnsOfRows(rows: seq<Option<Row>>): seq<Option<string>> {
    if rows == [] || rows[0].None? then [] else ColumnsOf(rows[0].value)
  }

  /** The columns have the names of the first row's cells; without a first row there are none. */
  predicate NamedByFirst(columns: seq<Option<string>>, rows: seq<Option<Row>>) {
    if rows != [] && rows[0].Some? then
      |columns| == |rows[0].value| && forall i | 0 <= i < |columns| :: columns[i] == rows[0].value[i].name
    else columns == []
  }

  function Present(rows: seq<Option<Row>>): seq<Row> {
    if rows == [] then [] else
      Present(rows[..|rows| - 1]) + (var last := rows[|rows| - 1]; if last.Some? then [last.value] else [])
  }

  class Exporter {
    const hooks: Hooks
    var rowsWritten: nat

    constructor (hooks: Hooks)
      ensures this.hooks == hooks && rowsWritten == 0
    {
      this.hooks, rowsWritten := hooks, 0;
    }

    /** Whether the caller's cancellable has been cancelled by now. */
    method IsCancelled() returns (cancelled: bool)
    {
      cancelled := *;
    }

    /** Closing the stream flushes it, which may fail. */
    method CloseStream() returns (ok: bool)
    {
      ok := *;
    }

    method WriteBegin(stream: OutputStream, columns: seq<Option<string>>, ghost rows: seq<Row>) returns (ok: bool)
      modifies stream
      ensures ok ==> At(hooks, columns, rows, 0, old(stream.written), stream.written)
      ensures Within(hooks, columns, rows, old(stream.written), stream.written)
    {
      ghost var before := stream.written;
      assert Part(hooks, columns, rows[..0]) == hooks.begin(columns);
      ok := stream.Write(hooks.begin(columns));
      if ok {
        AtIsWithin(hooks, columns, rows, 0, before, stream.written);
      } else {
        BeginIsWithin(hooks, columns, rows, before, stream.written);
      }
    }

    method WriteRow(stream: OutputStream, row: Row, ghost columns: seq<Option<string>>, ghost rows: seq<Row>, ghost before: string)
      returns (ok: bool)
      requires rowsWritten < |rows| && rows[rowsWritten] == row
      requires At(hooks, columns, rows, rowsWritten, before, stream.written)
      modifies this`rowsWritten, stream
      ensures rowsWritten == old(rowsWritten) + if ok then 1 else 0
      ensures ok ==> At(hooks, columns, rows, rowsWritten, before, stream.written)
      ensures Within(hooks, columns, rows, before, stream.written)
    {
      hide Part, Within;
      ok := stream.Write(hooks.row(rowsWritten > 0, row));
      if ok {
        PartStep(hooks, columns, rows, rowsWritten, before);
        rowsWritten := rowsWritten + 1;
        AtIsWithin(hooks, columns, rows, rowsWritten, before, stream.written);
      } else {
        PieceIsWithin(hooks, columns, rows, rowsWritten, before, stream.written);
      }
    }

    method WriteEnd(stream: OutputStream, ghost columns: seq<Option<string>>, ghost rows: seq<Row>, ghost before: string)
      returns (ok: bool)
      requires rowsWritten == |rows|
      requires At(hooks, columns, rows, rowsWritten, before, stream.written)
      modifies stream
      ensures ok ==> stream.written == before + Whole(hooks, columns, rows)
      ensures Within(hooks, columns, rows, before, stream.written)
    {
      hide Part, Whole;
      assert rows[..rowsWritten] == rows;
      ok := stream.Write(hooks.end(rowsWritten > 0));
      if ok {
        WholeIsParts(hooks, columns, rows, before);
        assert stream.written <= before + Whole(hooks, columns, rows);
      } else {
        PieceIsWithin(hooks, columns, rows, rowsWritten, before, stream.written);
      }
    }

    method ExportResult(result: Result, stream: OutputStream) returns (ok: bool)
      requires result.Valid()
      modifies this, result, stream
      ensures result.Valid()
      ensures var rows, columns := old(result.Remaining()), old(result.ColumnNames());
              && rowsWritten <= |rows|
              && Within(hooks, columns, rows, old(stream.written), stream.written)
              && (ok ==>
                    && stream.written == old(stream.written) + Whole(hooks, columns, rows)
                    && rowsWritten == |rows| && result.Remaining() == [] && result.error == None)
      ensures old(!result.exhausted) && result.ending.Some? ==> !ok
    {
      hide Whole, At, Within;
      ghost var before, rows, start := stream.written, result.Remaining(), result.position;
      var columns := result.ColumnNames();
      rowsWritten := 0;
      NothingIsWithin(hooks, columns, rows, before);
      var cancelled := IsCancelled();
      if cancelled {
        return false;
      }
      ok := WriteBegin(stream, columns, rows);
      if !ok {
        return;
      }
      var more := result.Next();
      while more
        invariant result.Valid() && rowsWritten <= |rows|
        invariant At(hooks, columns, rows, rowsWritten, before, stream.written)
        invariant Within(hooks, columns, rows, before, stream.written)
        invariant more ==> !result.exhausted && rowsWritten < |rows| && !old(result.exhausted)
        invariant more ==> result.position == start + rowsWritten + 1
        invariant more ==> result.currentRow == Some(result.rows[start + rowsWritten])
        invariant !more ==> rowsWritten == |rows| && result.exhausted
        invariant !more ==> result.error == if old(result.exhausted) then old(result.error) else result.ending
        decreases more, |rows| - rowsWritten
      {
        cancelled := IsCancelled();
        if cancelled {
          return false;
        }
        ok := WriteRow(stream, result.currentRow.value, columns, rows, before);
        if !ok {
          return;
        }
        more := result.Next();
      }
      if result.error.Some? {
        return false;
      }
      ok := WriteEnd(stream, columns, rows, before);
      if ok {
        ok := CloseStream();
      }
    }

    method ExportRows(rows: seq<Option<Row>>, stream: OutputStream) returns (ok: bool)
      modifies this, stream
      ensures var columns, present := ColumnsOfRows(rows), Present(rows);
              && rowsWritten <= |present|
              && Within(hooks, columns, present, old(stream.written), stream.written)
              && (ok ==>
                    && stream.written == old(stream.written) + Whole(hooks, columns, present)
                    && rowsWritten == |present|)
      ensures ok ==> NamedByFirst(ColumnsOfRows(rows), rows)
    {
      hide Whole, At, Within, Present;
      ghost var before, present := stream.written, Present(rows);
      var columns := ColumnsOfRows(rows);
      rowsWritten := 0;
      NothingIsWithin(hooks, columns, present, before);
      var cancelled := IsCancelled();
      if cancelled {
        return false;
      }
      ok := WriteBegin(stream, columns, present);
      if !ok {
        return;
      }
      AllPresent(rows);
      for i := 0 to |rows|
        invariant rowsWritten == |Present(rows[..i])| <= |present|
        invariant At(hooks, columns, present, rowsWritten, before, stream.written)
        invariant Within(hooks, columns, present, before, stream.written)
      {
        cancelled := IsCancelled();
        if cancelled {
          return false;
        }
        PresentStep(rows, i);
        if rows[i].Some? {
          ok := WriteRow(stream, rows[i].value, columns, present, before);
          if !ok {
            return;
          }
        }
      }
      ok := WriteEnd(stream, columns, present, before);
      if ok {
        ok := CloseStream();
      }
    }
  }

  // ---------------------------------------------------------------- what has been written

  /** Exactly begin and the first `i` rows. */
  predicate At(hooks: Hooks, columns: seq<Option<string>>, rows: seq<Row>, i: nat, before: string, written: string) {
    i <= |rows| && written == before + Part(hooks, columns, rows[..i])
  }

  /** Not more than the whole export, and nothing else. */
  predicate Within(hooks: Hooks, columns: seq<Option<string>>, rows: seq<Row>, before: string, written: string) {
    before <= written <= before + Whole(hooks, columns, rows)
  }

  lemma NothingIsWithin(hooks: Hooks, columns: seq<Option<string>>, rows: seq<Row>, before: string)
    ensures Within(hooks, columns, rows, before, before)
  {
  }

  lemma PrefixAfter(before: string, part: string, whole: string)
    requires part <= whole
    ensures before + part <= before + whole && before <= before + part
  {
  }

  lemma AtIsWithin(hooks: Hooks, columns: seq<Option<string>>, rows: seq<Row>, i: nat, before: string, written: string)
    requires At(hooks, columns, rows, i, before, written)
    ensures Within(hooks, columns, rows, before, written)
  {
    hide Part, Whole;
    var part := Part(hooks, columns, rows[..i]);
    PartOfWhole(hooks, columns, rows, i, "");
    assert part + "" == part;
    PrefixAfter(before, part, Whole(hooks, columns, rows));
  }

  lemma BeginIsWithin(hooks: Hooks, columns: seq<Option<string>>, rows: seq<Row>, before: string, written: string)
    requires exists some :: some <= hooks.begin(columns) && written == before + some
    ensures Within(hooks, columns, rows, before, written)
  {
    hide RowsText;
    var some :| some <= hooks.begin(columns) && written == before + some;
    var begin, rest := hooks.begin(columns), RowsText(hooks, rows) + hooks.end(rows != []);
    assert Whole(hooks, columns, rows) == begin + rest;
    PrefixAfter(before, some, begin + rest);
  }

  lemma PieceIsWithin(hooks: Hooks, columns: seq<Option<string>>, rows: seq<Row>, i: nat, before: string, written: string)
    requires i <= |rows|
    requires exists some ::
               some <= (if i < |rows| then hooks.row(i > 0, rows[i]) else hooks.end(rows != []))
               && written == before + Part(hooks, columns, rows[..i]) + some
    ensures Within(hooks, columns, rows, before, written)
  {
    hide Part, Whole;
    var some :| some <= (if i < |rows| then hooks.row(i > 0, rows[i]) else hooks.end(rows != []))
                && written == before + Part(hooks, columns, rows[..i]) + some;
    PartOfWhole(hooks, columns, rows, i, some);
    PrefixAfter(before, Part(hooks, columns, rows[..i]) + some, Whole(hooks, columns, rows));
    assert written == before + (Part(hooks, columns, rows[..i]) + some);
  }

  lemma PartStep(hooks: Hooks, columns: seq<Option<string>>, rows: seq<Row>, i: nat, before: string)
    requires i < |rows|
    ensures before + Part(hooks, columns, rows[..i]) + hooks.row(i > 0, rows[i])
            == before + Part(hooks, columns, rows[..i + 1])
  {
    hide RowsText;
    RowsTextStep(hooks, rows, i);
  }

  lemma WholeIsParts(hooks: Hooks, columns: seq<Option<string>>, rows: seq<Row>, before: string)
    ensures before + Part(hooks, columns, rows) + hooks.end(|rows| > 0) == before + Whole(hooks, columns, rows)
  {
    hide RowsText;
  }

  /** The rows that are present, in order: a missing one counts for nothing, wherever it is. */
  lemma {:induction false} PresentSplits(a: seq<Option<Row>>, b: seq<Option<Row>>)
    ensures Present(a + b) == Present(a) + Present(b)
    ensures Present([None]) == []
    ensures forall row :: Present([Some(row)]) == [row]
  {
    if b == [] {
      assert a + b == a;
    } else {
      var front := b[..|b| - 1];
      assert (a + b)[..|a + b| - 1] == a + front;
      PresentSplits(a, front);
    }
    forall row ensures Present([Some(row)]) == [row] {
      assert [Some(row)][..0] == [];
    }
    var none: seq<Option<Row>> := [None];
    assert none[..0] == [];
  }

  lemma {:induction false} PresentIsPrefix(rows: seq<Option<Row>>, i: nat)
    requires i <= |rows|
    ensures Present(rows[..i]) <= Present(rows)
    decreases |rows| - i
  {
    if i < |rows| {
      PresentIsPrefix(rows, i + 1);
      assert rows[..i + 1][..i] == rows[..i];
    } else {
      assert rows[..i] == rows;
    }
  }

  lemma AllPresent(rows: seq<Option<Row>>)
    ensures Present(rows[..0]) == [] && rows[..|rows|] == rows
  {
  }

  lemma PresentStep(rows: seq<Option<Row>>, i: nat)
    requires i < |rows|
    ensures var some, next, all := Present(rows[..i]), Present(rows[..i + 1]), Present(rows);
            if rows[i].Some? then |some| < |next| <= |all| && all[|some|] == rows[i].value && |next| == |some| + 1
            else next == some
  {
    PresentIsPrefix(rows, i + 1);
    assert rows[..i + 1][..i] == rows[..i];
  }

  // ---------------------------------------------------------------- the formats

  function JsonHooks(style: JT.Style, layout: JE.Layout, includeColumns: bool): Hooks {
    var wrapped := layout.ArrayOfArrays? && includeColumns;
    Hooks(columns => JE.BeginText(style, wrapped, columns),
          (anyRows, row) => JE.RowText(style, layout, wrapped, anyRows, row),
          anyRows => JE.EndText(style, wrapped, anyRows))
  }

  function CsvHooks(f: CE.Format): Hooks {
    Hooks(columns => CE.Header(f, columns), (anyRows, row) => CE.RowLine(f, row), anyRows => "")
  }

  lemma {:induction false} JsonRowsText(style: JT.Style, layout: JE.Layout, includeColumns: bool, rows: seq<Row>)
    ensures RowsText(JsonHooks(style, layout, includeColumns), rows)
            == JE.RowsText(style, layout, layout.ArrayOfArrays? && includeColumns, rows)
  {
    hide JE.RowText, JE.BeginText, JE.EndText;
    if rows != [] {
      JsonRowsText(style, layout, includeColumns, rows[..|rows| - 1]);
    }
  }

  lemma {:induction false} LinesAppend(f: CE.Format, rows: seq<Row>, row: Row)
    ensures CE.Lines(f, rows + [row]) == CE.Lines(f, rows) + CE.RowLine(f, row)
  {
    hide CE.RowLine;
    if rows == [] {
      assert rows + [row] == [row];
      assert CE.Lines(f, [row]) == CE.RowLine(f, row) + CE.Lines(f, [row][1..]);
    } else {
      assert (rows + [row])[1..] == rows[1..] + [row];
      LinesAppend(f, rows[1..], row);
    }
  }

  lemma {:induction false} CsvRowsText(f: CE.Format, rows: seq<Row>)
    ensures RowsText(CsvHooks(f), rows) == CE.Lines(f, rows)
  {
    hide CE.RowLine, CE.Header, CE.Lines;
    if rows == [] {
      NoLines(f);
    } else {
      CsvRowsText(f, rows[..|rows| - 1]);
      LinesAppend(f, rows[..|rows| - 1], rows[|rows| - 1]);
      assert rows == rows[..|rows| - 1] + [rows[|rows| - 1]];
    }
  }

  lemma NoLines(f: CE.Format)
    ensures CE.Lines(f, []) == ""
  {
  }

  /** A JSON export that succeeded is read back as the document of its rows. */
  lemma JsonExportReadsBack(style: JT.Style, layout: JE.Layout, includeColumns: bool, columns: seq<Option<string>>, rows: seq<Row>)
    requires JE.FloatsAreNumbers(rows)
    ensures JT.Read(Whole(JsonHooks(style, layout, includeColumns), columns, rows))
            == Some(JE.Document(layout, layout.ArrayOfArrays? && includeColumns, columns, rows))
    ensures JE.ShowsTable(JE.Document(layout, layout.ArrayOfArrays? && includeColumns, columns, rows),
                          layout, includeColumns, columns, rows)
  {
    hide JE.ShowsTable, JE.RowText, JE.RowsText, JE.BeginText, JE.EndText, RowsText, JT.Read, JE.Document;
    JsonRowsText(style, layout, includeColumns, rows);
    JE.ExportReadsBack(style, layout, includeColumns, columns, rows);
  }

  /** A CSV export that succeeded is read back as the table of its rows if and only if all of them are readable. */
  lemma CsvExportReadsBack(f: CE.Format, columns: seq<Option<string>>, rows: seq<Row>)
    requires CE.Standard(f)
    ensures CT.Read(Whole(CsvHooks(f), columns, rows), CE.MarksOf(f)) == Some(CE.Table(f, columns, rows))
            <==> forall i | 0 <= i < |rows| :: CE.Readable(f, rows[i])
    ensures CE.ShowsTable(CE.Table(f, columns, rows), f, columns, rows)
  {
    hide CE.ShowsTable, CE.Lines, CE.Header, CE.Table, CT.Read, RowsText, CE.RowLine, CE.Readable;
    CsvRowsText(f, rows);
    CE.TableReadsBack(f, columns, rows);
    assert Whole(CsvHooks(f), columns, rows) == CE.Output(f, columns, rows);
  }

  /** Rows as a result has them: each is named as the result's columns are. */
  predicate NamedAlike(columns: seq<Option<string>>, rows: seq<Row>) {
    forall i | 0 <= i < |rows| :: ColumnsOf(rows[i]) == columns
  }

  /** Exporting a result that has rows, and exporting its rows once they are read, write the same. */
  lemma MaterializedIsSame(hooks: Hooks, columns: seq<Option<string>>, rows: seq<Row>)
    requires NamedAlike(columns, rows) && rows != []
    ensures var materialized := Map(row => Some(row), rows);
            Whole(hooks, ColumnsOfRows(materialized), Present(materialized)) == Whole(hooks, columns, rows)
  {
    hide Whole, ColumnsOf;
    AllArePresent(rows);
  }

  lemma {:induction false} AllArePresent(rows: seq<Row>)
    ensures Present(Map(row => Some(row), rows)) == rows
  {
    if rows != [] {
      var front := rows[..|rows| - 1];
      AllArePresent(front);
      assert Map(row => Some(row), rows)[..|rows| - 1] == Map(row => Some(row), front);
    }
  }

  /**
   Without rows the column names are lost to the export of rows.  In CSV that shows if and only if
   there is a header line with something in it.
   */
  lemma EmptyCsvHasHeader(f: CE.Format, columns: seq<Option<string>>)
    ensures Whole(CsvHooks(f), columns, []) == Whole(CsvHooks(f), ColumnsOfRows([]), Present([]))
            <==> !f.includeHeader || columns == []
                 || (f.lineEnding == "" && Join(CE.HeaderCells(f, columns), f.delimiter) == "")
  {
    hide Join, CE.HeaderCells;
  }

  /** In JSON it shows if and only if the columns are listed and there are any. */
  lemma EmptyJsonListsColumns(style: JT.Style, layout: JE.Layout, includeColumns: bool, columns: seq<Option<string>>)
    ensures var hooks := JsonHooks(style, layout, includeColumns);
            Whole(hooks, columns, []) == Whole(hooks, ColumnsOfRows([]), Present([]))
            <==> !(layout.ArrayOfArrays? && includeColumns) || columns == []
  {
    hide JE.RowText, JE.RowsText, JE.EndText, RowsText, JT.Read, JE.RowDocuments, JE.Names, JT.Break, JT.Gap, JT.Print;
    var wrapped := layout.ArrayOfArrays? && includeColumns;
    JsonExportReadsBack(style, layout, includeColumns, columns, []);
    JsonExportReadsBack(style, layout, includeColumns, [], []);
    if wrapped {
      var (with, without) := (JE.Document(layout, wrapped, columns, []), JE.Document(layout, wrapped, [], []));
      assert with.members[0].value == JT.JArray(JE.Names(columns));
      assert without.members[0].value == JT.JArray(JE.Names([]));
      assert |JE.Names(columns)| == |columns| && |JE.Names([])| == 0;
    } else {
      assert JE.BeginText(style, wrapped, columns) == JE.BeginText(style, wrapped, []);
    }
  }
}
