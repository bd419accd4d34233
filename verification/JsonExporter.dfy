/** The JSON exporter: three hooks that append to a stream, and the document the stream becomes. */
module JsonExporter {
  import opened Characters
  import opened Common
  import opened Values
  import opened JsonText

  datatype Layout = ArrayOfObjects | ArrayOfArrays

  // ---------------------------------------------------------------- what a table is as a document

  /** The JSON image of a cell: what JSON has no spelling for becomes null. */
  function JsonOf(value: Value): Json {
    match value
    case Null => JNull
    case Integer(number) => JNumber(IntText(number))
    case Float(digits, finite) => if finite then JNumber(digits) else JNull
    case Boolean(flag) => JBool(flag)
    case Text(text) => JString(text)
    case Blob(base64) => JString(base64)
    case DateTime(iso) => if iso.Some? then JString(iso.value) else JNull
  }

  function Members(row: Row): (members: seq<Member>)
    ensures |members| == |row|
    ensures forall i | 0 <= i < |row| :: members[i] == Member(OrEmpty(row[i].name), JsonOf(row[i].value))
  {
    seq(|row|, i requires 0 <= i < |row| => Member(OrEmpty(row[i].name), JsonOf(row[i].value)))
  }

  function Cells(row: Row): (items: seq<Json>)
    ensures |items| == |row|
    ensures forall i | 0 <= i < |row| :: items[i] == JsonOf(row[i].value)
  {
    seq(|row|, i requires 0 <= i < |row| => JsonOf(row[i].value))
  }

  function RowDocument(layout: Layout, row: Row): Json {
    if layout.ArrayOfObjects? then JObject(Members(row)) else JArray(Cells(row))
  }

  function RowDocuments(layout: Layout, rows: seq<Row>): (items: seq<Json>)
    ensures |items| == |rows|
    ensures forall i | 0 <= i < |rows| :: items[i] == RowDocument(layout, rows[i])
  {
    seq(|rows|, i requires 0 <= i < |rows| => RowDocument(layout, rows[i]))
  }

  function Names(columns: seq<Option<string>>): (items: seq<Json>)
    ensures |items| == |columns|
    ensures forall i | 0 <= i < |columns| :: items[i] == JString(OrEmpty(columns[i]))
  {
    seq(|columns|, i requires 0 <= i < |columns| => JString(OrEmpty(columns[i])))
  }

  /** The document an export denotes: the rows, inside an object that lists the columns when wrapped. */
  function Document(layout: Layout, wrapped: bool, columns: seq<Option<string>>, rows: seq<Row>): Json {
    var items := JArray(RowDocuments(layout, rows));
    if wrapped then JObject([Member("columns", JArray(Names(columns))), Member("rows", items)]) else items
  }

  // ---------------------------------------------------------------- what a reader should see

  /** What a reader sees of a cell, kind by kind. */
  predicate Shows(j: Json, value: Value) {
    match value
    case Boolean(flag) => j == JBool(flag)
    case Integer(number) => j.JNumber? && IntOf(j.literal) == number
    case Float(digits, finite) => j == if finite then JNumber(digits) else JNull
    case Text(text) => j == JString(text)
    case Blob(base64) => j == JString(base64)
    case DateTime(iso) => if iso.Some? then j == JString(iso.value) else j == JNull
    case Null => j == JNull
  }

  predicate ShowsName(j: Json, name: Option<string>) {
    j == JString(if name.Some? then name.value else "")
  }

  /** A row is an object with its cells as members, or an array of them. */
  predicate ShowsRow(j: Json, layout: Layout, row: Row) {
    if layout.ArrayOfObjects? then
      && j.JObject? && |j.members| == |row|
      && forall i | 0 <= i < |row| :: ShowsName(JString(j.members[i].name), row[i].name) && Shows(j.members[i].value, row[i].value)
    else
      && j.JArray? && |j.items| == |row|
      && forall i | 0 <= i < |row| :: Shows(j.items[i], row[i].value)
  }

  predicate ShowsRows(j: Json, layout: Layout, rows: seq<Row>) {
    j.JArray? && |j.items| == |rows| && forall i | 0 <= i < |rows| :: ShowsRow(j.items[i], layout, rows[i])
  }

  /** Rows that are arrays come with their column names beside them, if those are wanted. */
  predicate ShowsTable(j: Json, layout: Layout, includeColumns: bool, columns: seq<Option<string>>, rows: seq<Row>) {
    if layout.ArrayOfArrays? && includeColumns then
      && j.JObject? && |j.members| == 2
      && j.members[0].name == "columns" && j.members[0].value.JArray? && |j.members[0].value.items| == |columns|
      && (forall i | 0 <= i < |columns| :: ShowsName(j.members[0].value.items[i], columns[i]))
      && j.members[1].name == "rows" && ShowsRows(j.members[1].value, layout, rows)
    else ShowsRows(j, layout, rows)
  }

  lemma ImageShows(value: Value)
    ensures Shows(JsonOf(value), value)
  {
    if value.Integer? {
      IntTextIsDecimal(value.number);
    }
  }

  lemma RowShows(layout: Layout, row: Row)
    ensures ShowsRow(RowDocument(layout, row), layout, row)
  {
    hide JsonOf, Shows;
    forall i | 0 <= i < |row| ensures Shows(JsonOf(row[i].value), row[i].value) {
      ImageShows(row[i].value);
    }
  }

  lemma DocumentShows(layout: Layout, includeColumns: bool, columns: seq<Option<string>>, rows: seq<Row>)
    ensures ShowsTable(Document(layout, layout.ArrayOfArrays? && includeColumns, columns, rows), layout, includeColumns, columns, rows)
  {
    hide RowDocument, ShowsRow;
    forall i | 0 <= i < |rows| ensures ShowsRow(RowDocument(layout, rows[i]), layout, rows[i]) {
      RowShows(layout, rows[i]);
    }
  }

  // ---------------------------------------------------------------- what the hooks write

  function RowsLevel(wrapped: bool): nat {
    if wrapped then 1 else 0
  }

  function BeginText(style: Style, wrapped: bool, columns: seq<Option<string>>): string {
    (if wrapped then
       "{" + Break(style, 1) + "\"columns\":" + Gap(style) + Print(JArray(Names(columns)), style, 1) + ","
       + Break(style, 1) + "\"rows\":" + Gap(style)
     else "") + "["
  }

  function RowText(style: Style, layout: Layout, wrapped: bool, anyRows: bool, row: Row): string {
    (if anyRows then "," else "") + Break(style, RowsLevel(wrapped) + 1)
    + Print(RowDocument(layout, row), style, RowsLevel(wrapped) + 1)
  }

  function EndText(style: Style, wrapped: bool, anyRows: bool): string {
    (if anyRows then Break(style, RowsLevel(wrapped)) else "") + "]" + (if wrapped then Break(style, 0) + "}" else "")
  }

  /** What a whole export appends for its rows. */
  function RowsText(style: Style, layout: Layout, wrapped: bool, rows: seq<Row>): string {
    if rows == [] then "" else
      RowsText(style, layout, wrapped, rows[..|rows| - 1])
      + RowText(style, layout, wrapped, |rows| > 1, rows[|rows| - 1])
  }

  // ---------------------------------------------------------------- the exporter object

  lemma {:induction false} EscapeAppends(s: string, c: char)
    ensures Escape(s + [c]) == Escape(s) + EscapeChar(c)
  {
    if s != "" {
      assert (s + [c])[1..] == s[1..] + [c];
      EscapeAppends(s[1..], c);
    }
  }

  lemma {:induction false} PrintItemsAppends(items: seq<Json>, last: Json, style: Style, level: nat)
    ensures PrintItems(items + [last], style, level)
            == PrintItems(items, style, level) + (if items == [] then "" else ",") + Break(style, level) + Print(last, style, level)
  {
    hide Print, Break;
    if items != [] {
      assert (items + [last])[1..] == items[1..] + [last];
      PrintItemsAppends(items[1..], last, style, level);
    }
  }

  lemma {:induction false} PrintMembersAppends(members: seq<Member>, last: Member, style: Style, level: nat)
    ensures PrintMembers(members + [last], style, level)
            == PrintMembers(members, style, level) + (if members == [] then "" else ",") + Break(style, level)
               + PrintMember(last, style, level)
  {
    hide PrintMember, Break;
    if members != [] {
      assert (members + [last])[1..] == members[1..] + [last];
      PrintMembersAppends(members[1..], last, style, level);
    }
  }

  /** append_string() */
  method AppendString(str: Option<string>) returns (out: string)
    ensures out == Quote(OrEmpty(str))
  {
    hide EscapeChar;
    var text := OrEmpty(str);
    out := "\"";
    for i := 0 to |text|
      invariant out == "\"" + Escape(text[..i])
    {
      EscapeAppends(text[..i], text[i]);
      assert text[..i + 1] == text[..i] + [text[i]];
      out := out + EscapeChar(text[i]);
    }
    assert text[..|text|] == text;
    out := out + "\"";
  }

  /** append_value() */
  method AppendValue(value: Value) returns (out: string)
    ensures forall style, level :: out == Print(JsonOf(value), style, level)
    ensures (value.Float? && value.finite ==> IsNumber(value.digits)) ==> Read(out).Some? && Shows(Read(out).value, value)
  {
    hide Read, Escape, IntText, IsNumber, Shows;
    ghost var style: Style := Style(false, 0);
    if value.Float? && value.finite ==> IsNumber(value.digits) {
      ImageIsPrintable(value);
      ReadUndoesPrint(JsonOf(value), style);
      ImageShows(value);
    }
    match value
    case Null => out := "null";
    case Integer(number) => out := IntText(number);
    case Float(digits, finite) => out := if finite then digits else "null";
    case Boolean(flag) => out := if flag then "true" else "false";
    case Text(text) => out := AppendString(Some(text));
    case Blob(base64) => out := AppendString(Some(base64));
    case DateTime(iso) =>
      if iso.Some? {
        out := AppendString(iso);
      } else {
        out := "null";
      }
  }

  lemma ItemsStep(items: seq<Json>, i: nat, style: Style, level: nat)
    requires i < |items|
    ensures PrintItems(items[..i + 1], style, level)
            == PrintItems(items[..i], style, level) + (if i > 0 then "," else "") + Break(style, level)
               + Print(items[i], style, level)
  {
    hide Print, Break, PrintItems;
    PrintItemsAppends(items[..i], items[i], style, level);
    assert items[..i + 1] == items[..i] + [items[i]];
  }

  lemma MembersStep(members: seq<Member>, i: nat, style: Style, level: nat)
    requires i < |members|
    ensures PrintMembers(members[..i + 1], style, level)
            == PrintMembers(members[..i], style, level) + (if i > 0 then "," else "") + Break(style, level)
               + (Quote(members[i].name) + ":" + Gap(style) + Print(members[i].value, style, level))
  {
    hide Print, Break, PrintMembers, Quote;
    PrintMembersAppends(members[..i], members[i], style, level);
    assert members[..i + 1] == members[..i] + [members[i]];
  }

  lemma ArrayShape(items: seq<Json>, style: Style, level: nat)
    ensures PrintItems(items[..0], style, level + 1) == "" && items[..|items|] == items
    ensures Print(JArray(items), style, level)
            == "[" + PrintItems(items, style, level + 1) + (if |items| > 0 then Break(style, level) else "") + "]"
  {
  }

  lemma ObjectShape(members: seq<Member>, style: Style, level: nat)
    ensures PrintMembers(members[..0], style, level + 1) == "" && members[..|members|] == members
    ensures Print(JObject(members), style, level)
            == "{" + PrintMembers(members, style, level + 1) + (if |members| > 0 then Break(style, level) else "") + "}"
  {
  }

  class Exporter {
    var layout: Layout
    var style: Style
    var includeColumns: bool
    // decided by WriteBegin for the whole export
    var wrapped: bool
    var anyRows: bool

    method WriteNames(columns: seq<Option<string>>) returns (out: string)
      ensures out == Print(JArray(Names(columns)), style, 1)
    {
      hide Print, PrintItems, Quote, Break, Names;
      ghost var items := Names(columns);
      ArrayShape(items, style, 1);
      out := "";
      for i := 0 to |columns|
        invariant out == PrintItems(items[..i], style, 2)
      {
        ItemsStep(items, i, style, 2);
        var name := AppendString(columns[i]);
        NamePrints(columns[i], style);
        out := out + (if i > 0 then "," else "") + Break(style, 2) + name;
      }
      out := "[" + out + (if |columns| > 0 then Break(style, 1) else "") + "]";
    }

    method WriteBegin(columns: seq<Option<string>>) returns (out: string)
      modifies this`wrapped, this`anyRows
      ensures wrapped == (layout.ArrayOfArrays? && includeColumns) && !anyRows
      ensures out == BeginText(style, wrapped, columns)
    {
      hide Print, Break;
      wrapped := layout.ArrayOfArrays? && includeColumns;
      anyRows := false;
      out := "";
      if wrapped {
        var names := WriteNames(columns);
        out := "{" + Break(style, 1) + "\"columns\":" + Gap(style) + names + ","
          + Break(style, 1) + "\"rows\":" + Gap(style);
      }
      out := out + "[";
    }

    method WriteObject(row: Row, level: nat) returns (out: string)
      ensures out == Print(JObject(Members(row)), style, level)
    {
      hide Print, PrintMembers, Quote, Break, Members;
      ghost var members := Members(row);
      ObjectShape(members, style, level);
      out := "";
      for i := 0 to |row|
        invariant out == PrintMembers(members[..i], style, level + 1)
      {
        MembersStep(members, i, style, level + 1);
        var name := AppendString(row[i].name);
        var value := AppendValue(row[i].value);
        out := out + (if i > 0 then "," else "") + Break(style, level + 1) + (name + ":" + Gap(style) + value);
      }
      out := "{" + out + (if |row| > 0 then Break(style, level) else "") + "}";
    }

    method WriteArray(row: Row, level: nat) returns (out: string)
      ensures out == Print(JArray(Cells(row)), style, level)
    {
      hide Print, PrintItems, Break, Cells;
      ghost var items := Cells(row);
      ArrayShape(items, style, level);
      out := "";
      for i := 0 to |row|
        invariant out == PrintItems(items[..i], style, level + 1)
      {
        ItemsStep(items, i, style, level + 1);
        var value := AppendValue(row[i].value);
        out := out + (if i > 0 then "," else "") + Break(style, level + 1) + value;
      }
      out := "[" + out + (if |row| > 0 then Break(style, level) else "") + "]";
    }

    method WriteRow(row: Row) returns (out: string)
      modifies this`anyRows
      ensures anyRows
      ensures out == RowText(style, layout, wrapped, old(anyRows), row)
    {
      hide Print, Break;
      out := if anyRows then "," else "";
      anyRows := true;
      out := out + Break(style, RowsLevel(wrapped) + 1);
      var body;
      if layout.ArrayOfObjects? {
        body := WriteObject(row, RowsLevel(wrapped) + 1);
      } else {
        body := WriteArray(row, RowsLevel(wrapped) + 1);
      }
      out := out + body;
    }

    method WriteEnd() returns (out: string)
      ensures out == EndText(style, wrapped, anyRows)
    {
      out := if anyRows then Break(style, RowsLevel(wrapped)) else "";
      out := out + "]";
      if wrapped {
        out := out + (Break(style, 0) + "}");
      }
    }
  }

  lemma NamePrints(name: Option<string>, style: Style)
    ensures Print(JString(OrEmpty(name)), style, 2) == Quote(OrEmpty(name))
  {
  }

  // ---------------------------------------------------------------- the stream is the document

  lemma {:induction false} RowsAreItems(style: Style, layout: Layout, wrapped: bool, rows: seq<Row>)
    ensures RowsText(style, layout, wrapped, rows) == PrintItems(RowDocuments(layout, rows), style, RowsLevel(wrapped) + 1)
    decreases |rows|
  {
    hide Print, Break, RowDocument, PrintItems;
    if rows == [] {
      NothingPrinted(style, RowsLevel(wrapped) + 1);
    } else {
      var initial, last := rows[..|rows| - 1], rows[|rows| - 1];
      RowsAreItems(style, layout, wrapped, initial);
      assert RowDocuments(layout, rows) == RowDocuments(layout, initial) + [RowDocument(layout, last)];
      PrintItemsAppends(RowDocuments(layout, initial), RowDocument(layout, last), style, RowsLevel(wrapped) + 1);
    }
  }

  /** Begin, the rows and end, concatenated, are the printed document: the streaming form is the tree form. */
  lemma StreamIsDocument(style: Style, layout: Layout, wrapped: bool, columns: seq<Option<string>>, rows: seq<Row>)
    ensures BeginText(style, wrapped, columns) + RowsText(style, layout, wrapped, rows) + EndText(style, wrapped, rows != [])
            == Print(Document(layout, wrapped, columns, rows), style, 0)
  {
    hide Break, Print, PrintItems, RowsText, RowDocuments, Names, Quote;
    RowsAreItems(style, layout, wrapped, rows);
    ArrayShape(RowDocuments(layout, rows), style, RowsLevel(wrapped));
    if wrapped {
      WrapperShape(style, "columns", "rows", JArray(Names(columns)), JArray(RowDocuments(layout, rows)));
      PlainKeys();
    }
  }

  lemma WrapperShape(style: Style, first: string, second: string, columns: Json, rows: Json)
    ensures Print(JObject([Member(first, columns), Member(second, rows)]), style, 0)
            == "{" + Break(style, 1) + (Quote(first) + ":") + Gap(style) + Print(columns, style, 1) + ","
               + Break(style, 1) + (Quote(second) + ":") + Gap(style) + Print(rows, style, 1) + Break(style, 0) + "}"
  {
    hide Break, Quote, PrintMembers, Print, Gap;
    var members := [Member(first, columns), Member(second, rows)];
    ObjectShape(members, style, 0);
    TwoMembers(members[0], members[1], style);
    Regroup(Break(style, 1), Quote(first), Gap(style), Print(columns, style, 1), Quote(second), Print(rows, style, 1));
  }

  lemma TwoMembers(first: Member, second: Member, style: Style)
    ensures PrintMembers([first, second], style, 1)
            == Break(style, 1) + (Quote(first.name) + ":" + Gap(style) + Print(first.value, style, 1))
               + "," + Break(style, 1) + (Quote(second.name) + ":" + Gap(style) + Print(second.value, style, 1))
  {
    hide Break, Quote, PrintMembers, Print, Gap;
    var members := [first, second];
    ObjectShape(members, style, 0);
    MembersStep(members, 0, style, 1);
    MembersStep(members, 1, style, 1);
    assert members[..2] == members;
  }

  lemma Regroup(b: string, q: string, g: string, c: string, q': string, r: string)
    ensures b + (q + ":" + g + c) + "," + b + (q' + ":" + g + r)
            == b + (q + ":") + g + c + "," + b + (q' + ":") + g + r
  {
  }

  lemma PlainKeys()
    ensures Quote("columns") + ":" == "\"columns\":" && Quote("rows") + ":" == "\"rows\":"
  {
    hide EscapeChar, Escape;
    PlainEscape("columns");
    PlainEscape("rows");
  }

  lemma {:induction false} PlainEscape(s: string)
    requires forall i | 0 <= i < |s| :: 'a' <= s[i] <= 'z'
    ensures Escape(s) == s
  {
    if s != "" {
      PlainEscape(s[1..]);
      assert s == [s[0]] + s[1..];
    }
  }

  // ---------------------------------------------------------------- reading the export

  /** The formatter spells finite floats as numbers of the JSON grammar. */
  predicate FloatsAreNumbers(rows: seq<Row>) {
    forall i, j | 0 <= i < |rows| && 0 <= j < |rows[i]| ::
      var value := rows[i][j].value; value.Float? && value.finite ==> IsNumber(value.digits)
  }

  lemma IntTextIsNumber(n: int)
    ensures IsNumber(IntText(n))
  {
    var digits := NatText(if n < 0 then -n else n);
    NatTextIsDecimal(if n < 0 then -n else n);
    var s := IntText(n);
    var i := if n < 0 then 1 else 0;
    forall k | i <= k < |s| ensures IsDigit(s[k]) {
      assert s[k] == digits[k - i] && digits[k - i] in digits;
    }
    if s[i] == '0' {
      assert digits == "0";
    } else {
      AllDigitsEnd(s, i + 1);
    }
  }

  lemma {:induction false} AllDigitsEnd(s: string, i: nat)
    requires i <= |s| && forall k | i <= k < |s| :: IsDigit(s[k])
    ensures DigitsEnd(s, i) == |s|
    decreases |s| - i
  {
    if i < |s| {
      AllDigitsEnd(s, i + 1);
    }
  }

  lemma ImageIsPrintable(value: Value)
    requires value.Float? && value.finite ==> IsNumber(value.digits)
    ensures Printable(JsonOf(value))
  {
    hide IsNumber, IntText;
    if value.Integer? {
      IntTextIsNumber(value.number);
    }
  }

  lemma RowIsPrintable(layout: Layout, row: Row)
    requires forall j | 0 <= j < |row| ::
               row[j].value.Float? && row[j].value.finite ==> IsNumber(row[j].value.digits)
    ensures Printable(RowDocument(layout, row))
  {
    hide IsNumber;
    forall j | 0 <= j < |row| ensures Printable(JsonOf(row[j].value)) {
      ImageIsPrintable(row[j].value);
    }
  }

  lemma DocumentIsPrintable(layout: Layout, wrapped: bool, columns: seq<Option<string>>, rows: seq<Row>)
    requires FloatsAreNumbers(rows)
    ensures Printable(Document(layout, wrapped, columns, rows))
  {
    hide IsNumber, RowDocument;
    forall i | 0 <= i < |rows| ensures Printable(RowDocument(layout, rows[i])) {
      RowIsPrintable(layout, rows[i]);
    }
    var items, names := JArray(RowDocuments(layout, rows)), JArray(Names(columns));
    assert Printable(items) && Printable(names);
    if wrapped {
      assert Document(layout, wrapped, columns, rows).members == [Member("columns", names), Member("rows", items)];
    }
  }

  /**
   A JSON reader gets the column list and the image of every cell back, in order, from every
   export: whatever the rows, the layout, the indent and the include-columns setting.  The
   compact and the pretty form therefore denote the same document.
   */
  lemma ExportReadsBack(style: Style, layout: Layout, includeColumns: bool, columns: seq<Option<string>>, rows: seq<Row>)
    requires FloatsAreNumbers(rows)
    ensures var wrapped := layout.ArrayOfArrays? && includeColumns;
            Read(BeginText(style, wrapped, columns) + RowsText(style, layout, wrapped, rows)
                 + EndText(style, wrapped, rows != []))
            == Some(Document(layout, wrapped, columns, rows))
    ensures ShowsTable(Document(layout, layout.ArrayOfArrays? && includeColumns, columns, rows),
                       layout, includeColumns, columns, rows)
  {
    hide Read, Print, Printable, BeginText, RowsText, EndText, Document, ShowsTable;
    DocumentShows(layout, includeColumns, columns, rows);
    var wrapped := layout.ArrayOfArrays? && includeColumns;
    StreamIsDocument(style, layout, wrapped, columns, rows);
    DocumentIsPrintable(layout, wrapped, columns, rows);
    ReadUndoesPrint(Document(layout, wrapped, columns, rows), style);
  }

  /** The image of a cell determines a text, an integer or a boolean cell of that type. */
  lemma ImagesAreFaithful(a: Value, b: Value)
    requires (a.Text? && b.Text?) || (a.Integer? && b.Integer?) || (a.Boolean? && b.Boolean?)
    requires JsonOf(a) == JsonOf(b)
    ensures a == b
  {
    if a.Integer? {
      IntTextIsDecimal(a.number);
      IntTextIsDecimal(b.number);
    }
  }
}
