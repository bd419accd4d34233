/** A reader for delimiter-separated text, following section 2 of RFC 4180. */
module CsvText {
  import opened Common
  import opened Quoting

  /** The two characters a reader has to be told. */
  datatype Marks = Marks(delimiter: char, quote: char)

  predicate GoodMarks(m: Marks) {
    m.delimiter != m.quote && {m.delimiter, m.quote} !! {'\r', '\n'}
  }

  /** Characters that may stand in a field that is not quoted. */
  predicate IsBare(c: char, m: Marks) {
    c != m.delimiter && c != m.quote && c != '\r' && c != '\n'
  }

  predicate Plain(s: string, m: Marks) {
    forall i | 0 <= i < |s| :: IsBare(s[i], m)
  }

  function BareRun(s: string, m: Marks): (n: nat)
    ensures n <= |s| && Plain(s[..n], m)
  {
    if s == "" || !IsBare(s[0], m) then 0 else
      var n := BareRun(s[1..], m);
      assert s[..n + 1] == [s[0]] + s[1..][..n];
      n + 1
  }

  function ReadField(s: string, m: Marks): (r: Option<(string, string)>)
    ensures r.Some? ==> |r.value.1| <= |s|
    ensures r.Some? && (s == "" || s[0] != m.quote) ==> s == r.value.0 + r.value.1 && Plain(r.value.0, m)
  {
    if s != "" && s[0] == m.quote then ReadQuoted(s[1..], m.quote)
    else Some((s[..BareRun(s, m)], s[BareRun(s, m)..]))
  }

  /** The length of the line break at the start of a text: LF, CRLF or none. */
  function LineBreak(s: string): (n: nat)
    ensures n <= |s|
  {
    if |s| > 0 && s[0] == '\n' then 1
    else if |s| > 1 && s[0] == '\r' && s[1] == '\n' then 2
    else 0
  }

  /** One record and what follows its line break.  The last record of a file may lack the break. */
  function ReadRecord(s: string, m: Marks): (r: Option<(seq<string>, string)>)
    ensures r.Some? ==> r.value.0 != [] && (if s == "" then r.value.1 == "" else |r.value.1| < |s|)
    decreases |s|
  {
    var field := ReadField(s, m);
    if field.None? then None else
      var (text, rest) := field.value;
      if rest == "" then Some(([text], ""))
      else if rest[0] == m.delimiter then
        var others := ReadRecord(rest[1..], m);
        if others.Some? then Some(([text] + others.value.0, others.value.1)) else None
      else if LineBreak(rest) > 0 then Some(([text], rest[LineBreak(rest)..]))
      else None
  }

  /** A whole file.  A stray quote or a lone carriage return is an error, not a character. */
  function Read(s: string, m: Marks): Option<seq<seq<string>>>
    decreases |s|
  {
    if s == "" then Some([]) else
      var record := ReadRecord(s, m);
      if record.None? then None else
        var others := Read(record.value.1, m);
        if others.Some? then Some([record.value.0] + others.value) else None
  }

  // ---------------------------------------------------------------- reading what a field is written as

  function Quoted(s: string, quote: char): string {
    [quote] + Doubled(s, quote) + [quote]
  }

  /** `written` is a form of `text` that a reader takes back: bare if it may be, or quoted. */
  predicate Writes(written: string, text: string, m: Marks) {
    (written == text && Plain(text, m)) || written == Quoted(text, m.quote)
  }

  /** A field ends before a delimiter, a line break or the end. */
  predicate EndsField(rest: string, m: Marks) {
    rest == "" || rest[0] == m.delimiter || rest[0] == '\r' || rest[0] == '\n'
  }

  lemma {:induction false} BareRunReads(text: string, rest: string, m: Marks)
    requires Plain(text, m) && (rest == "" || !IsBare(rest[0], m))
    ensures BareRun(text + rest, m) == |text|
  {
    if text == "" {
      assert text + rest == rest;
    } else {
      assert (text + rest)[1..] == text[1..] + rest;
      BareRunReads(text[1..], rest, m);
    }
  }

  lemma FieldReads(written: string, text: string, rest: string, m: Marks)
    requires GoodMarks(m) && Writes(written, text, m) && EndsField(rest, m)
    ensures ReadField(written + rest, m) == Some((text, rest))
  {
    if written == Quoted(text, m.quote) {
      QuotedReads(text, rest, m.quote);
      assert (written + rest)[1..] == Doubled(text, m.quote) + ([m.quote] + rest);
    } else {
      BareRunReads(text, rest, m);
      assert (text + rest)[..|text|] == text && (text + rest)[|text|..] == rest;
    }
  }

  predicate IsLineEnding(s: string) {
    s == "\n" || s == "\r\n"
  }

  lemma {:induction false} RecordReads(written: seq<string>, texts: seq<string>, ending: string, rest: string, m: Marks)
    requires GoodMarks(m) && IsLineEnding(ending) && |written| == |texts| > 0
    requires forall i | 0 <= i < |texts| :: Writes(written[i], texts[i], m)
    ensures ReadRecord(Join(written, [m.delimiter]) + ending + rest, m) == Some((texts, rest))
    decreases |texts|
  {
    hide ReadField, Writes;
    var s := Join(written, [m.delimiter]) + ending + rest;
    if |texts| == 1 {
      var tail := ending + rest;
      assert s == written[0] + tail && texts == [texts[0]];
      FieldReads(written[0], texts[0], tail, m);
      assert tail[LineBreak(tail)..] == rest;
    } else {
      var next := Join(written[1..], [m.delimiter]) + ending + rest;
      assert s == written[0] + ([m.delimiter] + next);
      FieldReads(written[0], texts[0], [m.delimiter] + next, m);
      RecordReads(written[1..], texts[1..], ending, rest, m);
      assert ([m.delimiter] + next)[1..] == next && texts == [texts[0]] + texts[1..];
    }
  }

  lemma RecordThenRead(record: string, texts: seq<string>, rest: string, m: Marks)
    requires record != "" && ReadRecord(record + rest, m) == Some((texts, rest))
    ensures var others := Read(rest, m);
            Read(record + rest, m) == if others.Some? then Some([texts] + others.value) else None
  {
  }

  /** A field that is written as it stands although it has something special in it is not read back. */
  lemma UnreadableField(text: string, rest: string, m: Marks)
    requires GoodMarks(m) && !Plain(text, m) && EndsField(rest, m)
    ensures var r := ReadField(text + rest, m); r.None? || r.value.0 != text
  {
    if text[0] == m.quote {
      NotReadFromItself(text, m.quote, rest);
      assert (text + rest)[1..] == text[1..] + rest;
    }
  }

  /** How a field may come to be written: so that it is read back, or as it stands although it may not be. */
  predicate WritesOrNot(written: string, text: string, m: Marks) {
    Writes(written, text, m) || (written == text && !Plain(text, m))
  }

  /** One such field spoils its record. */
  lemma {:induction false} UnreadableRecord(written: seq<string>, texts: seq<string>, ending: string, rest: string, m: Marks, bad: nat)
    requires GoodMarks(m) && IsLineEnding(ending) && bad < |written| == |texts|
    requires forall i | 0 <= i < |texts| :: WritesOrNot(written[i], texts[i], m)
    requires written[bad] == texts[bad] && !Plain(texts[bad], m)
    ensures var r := ReadRecord(Join(written, [m.delimiter]) + ending + rest, m);
            r.None? || r.value.0 != texts
    decreases |texts|
  {
    hide ReadField, Writes, Plain;
    var s := Join(written, [m.delimiter]) + ending + rest;
    var next := Join(written[1..], [m.delimiter]) + ending + rest;
    var tail := if |texts| == 1 then ending + rest else [m.delimiter] + next;
    assert s == written[0] + tail;
    if !Writes(written[0], texts[0], m) || bad == 0 {
      assert written[0] == texts[0] && !Plain(texts[0], m);
      UnreadableField(texts[0], tail, m);
      FirstOfRecord(s, m);
    } else {
      FieldReads(written[0], texts[0], tail, m);
      UnreadableRecord(written[1..], texts[1..], ending, rest, m, bad - 1);
      assert tail[1..] == next;
      RestOfRecord(s, m);
    }
  }

  lemma FirstOfRecord(s: string, m: Marks)
    ensures var r := ReadRecord(s, m);
            r.Some? ==> ReadField(s, m).Some? && r.value.0[0] == ReadField(s, m).value.0
  {
  }

  lemma RestOfRecord(s: string, m: Marks)
    requires ReadField(s, m).Some?
    ensures var (r, rest) := (ReadRecord(s, m), ReadField(s, m).value.1);
            rest != "" && rest[0] == m.delimiter && r.Some? ==>
              ReadRecord(rest[1..], m).Some? && r.value.0[1..] == ReadRecord(rest[1..], m).value.0
  {
  }

  /** What a whole text is read as starts with the first record. */
  lemma FirstOfFile(s: string, m: Marks)
    requires s != ""
    ensures var r := Read(s, m);
            r.Some? ==> ReadRecord(s, m).Some? && |r.value| > 0 && r.value[0] == ReadRecord(s, m).value.0
  {
  }
}
