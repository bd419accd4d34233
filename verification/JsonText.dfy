/**
 JSON documents: a reader that follows RFC 8259, the layout in which the exporter prints, and
 the proof that reading undoes printing.
 */
module JsonText {
  import opened Characters
  import opened Common

  datatype Json =
    | JNull
    | JBool(flag: bool)
    | JNumber(literal: string)
    | JString(text: string)
    | JArray(items: seq<Json>)
    | JObject(members: seq<Member>)

  datatype Member = Member(name: string, value: Json)

  // ---------------------------------------------------------------- reading: white space and numbers

  predicate IsWhiteSpace(c: char) {
    c == ' ' || c == '\t' || c == '\n' || c == '\r'
  }

  /** RFC 8259, section 2. */
  function SkipSpace(s: string): (rest: string)
    ensures |rest| <= |s|
  {
    if s != "" && IsWhiteSpace(s[0]) then SkipSpace(s[1..]) else s
  }

  /** The end of the digits that start at `i`. */
  function DigitsEnd(s: string, i: nat): (end: nat)
    requires i <= |s|
    ensures i <= end <= |s|
    decreases |s| - i
  {
    if i < |s| && IsDigit(s[i]) then DigitsEnd(s, i + 1) else i
  }

  function At(s: string, i: nat, c: char): bool {
    i < |s| && s[i] == c
  }

  /** RFC 8259, section 6: the end of int, of frac and of exp. */
  function IntEnd(s: string, i: nat): (end: Option<nat>)
    ensures end.Some? ==> i < end.value <= |s|
  {
    if i >= |s| || !IsDigit(s[i]) then None
    else if s[i] == '0' then Some(i + 1)
    else Some(DigitsEnd(s, i + 1))
  }

  function FracEnd(s: string, i: nat): (end: Option<nat>)
    requires i <= |s|
    ensures end.Some? ==> i <= end.value <= |s|
  {
    if !At(s, i, '.') then Some(i)
    else if DigitsEnd(s, i + 1) == i + 1 then None
    else Some(DigitsEnd(s, i + 1))
  }

  function ExpEnd(s: string, i: nat): (end: Option<nat>)
    requires i <= |s|
    ensures end.Some? ==> i <= end.value <= |s|
  {
    if !At(s, i, 'e') && !At(s, i, 'E') then Some(i) else
      var j := if At(s, i + 1, '+') || At(s, i + 1, '-') then i + 2 else i + 1;
      if DigitsEnd(s, j) == j then None else Some(DigitsEnd(s, j))
  }

  /** The length of the number that the text starts with. */
  function NumberEnd(s: string): (end: Option<nat>)
    ensures end.Some? ==> 0 < end.value <= |s|
  {
    var whole := IntEnd(s, if At(s, 0, '-') then 1 else 0);
    if whole.None? then None else
      var frac := FracEnd(s, whole.value);
      if frac.None? then None else ExpEnd(s, frac.value)
  }

  predicate IsNumber(s: string) {
    NumberEnd(s) == Some(|s|)
  }

  // ---------------------------------------------------------------- reading: strings

  function Hex4(s: string): (code: Option<nat>)
    ensures code.Some? ==> |s| >= 4 && code.value < 0x1_0000
  {
    if |s| < 4 || HexValue(s[0]).None? || HexValue(s[1]).None? || HexValue(s[2]).None? || HexValue(s[3]).None? then None
    else Some(((HexValue(s[0]).value * 16 + HexValue(s[1]).value) * 16 + HexValue(s[2]).value) * 16 + HexValue(s[3]).value)
  }

  /** RFC 8259, section 7: the character that an escape denotes and the length of the escape after its backslash. */
  function ReadEscape(s: string): (escape: Option<(char, nat)>)
    ensures escape.Some? ==> 0 < escape.value.1 <= |s|
  {
    if s == "" then None
    else match s[0]
      case '"' => Some(('"', 1))
      case '\\' => Some(('\\', 1))
      case '/' => Some(('/', 1))
      case 'b' => Some((8 as char, 1))
      case 'f' => Some((12 as char, 1))
      case 'n' => Some(('\n', 1))
      case 'r' => Some(('\r', 1))
      case 't' => Some(('\t', 1))
      case 'u' =>
        var high := Hex4(s[1..]);
        if high.None? then None
        else if high.value < 0xD800 || 0xE000 <= high.value then Some((high.value as char, 5))
        else if high.value < 0xDC00 && |s| >= 11 && s[5] == '\\' && s[6] == 'u' && Hex4(s[7..]).Some?
                && 0xDC00 <= Hex4(s[7..]).value < 0xE000 then
          Some(((0x1_0000 + (high.value - 0xD800) * 0x400 + (Hex4(s[7..]).value - 0xDC00)) as char, 11))
        else None
      case _ => None
  }

  /** The characters of a string up to its closing quote, and what follows that. */
  function ReadChars(s: string): (r: Option<(string, string)>)
    ensures r.Some? ==> |r.value.1| < |s|
    decreases |s|
  {
    if s == "" then None
    else if s[0] == '"' then Some(("", s[1..]))
    else if s[0] == '\\' then
      var escape := ReadEscape(s[1..]);
      if escape.None? then None else
        var more := ReadChars(s[1 + escape.value.1..]);
        if more.None? then None else Some(([escape.value.0] + more.value.0, more.value.1))
    else if s[0] as nat < 0x20 then None
    else
      var more := ReadChars(s[1..]);
      if more.None? then None else Some(([s[0]] + more.value.0, more.value.1))
  }

  // ---------------------------------------------------------------- reading: values

  /** RFC 8259, section 3. */
  function ReadValue(s: string): (r: Option<(Json, string)>)
    ensures r.Some? ==> |r.value.1| < |s|
    decreases |s|, 1
  {
    var t := SkipSpace(s);
    if t == "" then None
    else if t[0] == '"' then
      var chars := ReadChars(t[1..]);
      if chars.None? then None else Some((JString(chars.value.0), chars.value.1))
    else if t[0] == '[' then
      var u := SkipSpace(t[1..]);
      if u != "" && u[0] == ']' then Some((JArray([]), u[1..])) else
        var items := ReadItems(t[1..]);
        if items.None? then None else Some((JArray(items.value.0), items.value.1))
    else if t[0] == '{' then
      var u := SkipSpace(t[1..]);
      if u != "" && u[0] == '}' then Some((JObject([]), u[1..])) else
        var members := ReadMembers(t[1..]);
        if members.None? then None else Some((JObject(members.value.0), members.value.1))
    else if "null" <= t then Some((JNull, t[4..]))
    else if "true" <= t then Some((JBool(true), t[4..]))
    else if "false" <= t then Some((JBool(false), t[5..]))
    else if NumberEnd(t).Some? then Some((JNumber(t[..NumberEnd(t).value]), t[NumberEnd(t).value..]))
    else None
  }

  /** The elements of a non-empty array, up to its closing bracket (section 5). */
  function ReadItems(s: string): (r: Option<(seq<Json>, string)>)
    ensures r.Some? ==> |r.value.1| < |s|
    decreases |s|, 2
  {
    var first := ReadValue(s);
    if first.None? then None else
      var t := SkipSpace(first.value.1);
      if t == "" then None
      else if t[0] == ']' then Some(([first.value.0], t[1..]))
      else if t[0] != ',' then None
      else
        var more := ReadItems(t[1..]);
        if more.None? then None else Some(([first.value.0] + more.value.0, more.value.1))
  }

  /** The members of a non-empty object, up to its closing brace (section 4). */
  function ReadMembers(s: string): (r: Option<(seq<Member>, string)>)
    ensures r.Some? ==> |r.value.1| < |s|
    decreases |s|, 2
  {
    var first := ReadMember(s);
    if first.None? then None else
      var t := SkipSpace(first.value.1);
      if t == "" then None
      else if t[0] == '}' then Some(([first.value.0], t[1..]))
      else if t[0] != ',' then None
      else
        var more := ReadMembers(t[1..]);
        if more.None? then None else Some(([first.value.0] + more.value.0, more.value.1))
  }

  function ReadMember(s: string): (r: Option<(Member, string)>)
    ensures r.Some? ==> |r.value.1| < |s|
    decreases |s|, 1
  {
    var t := SkipSpace(s);
    if t == "" || t[0] != '"' then None else
      var name := ReadChars(t[1..]);
      if name.None? then None else
        var u := SkipSpace(name.value.1);
        if u == "" || u[0] != ':' then None else
          var value := ReadValue(u[1..]);
          if value.None? then None else Some((Member(name.value.0, value.value.0), value.value.1))
  }

  /** A whole document. */
  function Read(s: string): Option<Json> {
    var value := ReadValue(s);
    if value.Some? && SkipSpace(value.value.1) == "" then Some(value.value.0) else None
  }

  // ---------------------------------------------------------------- printing

  /** Compact output, or line breaks with `indent` spaces for each level. */
  datatype Style = Style(pretty: bool, indent: nat)

  function Spaces(n: nat): (s: string)
    ensures |s| == n && forall c | c in s :: c == ' '
  {
    seq(n, _ => ' ')
  }

  /** A new line, indented; nothing in compact output. */
  function Break(style: Style, level: nat): string {
    if style.pretty then "\n" + Spaces(level * style.indent) else ""
  }

  function Gap(style: Style): string {
    if style.pretty then " " else ""
  }

  /** Pretty output starts a line, as deep as asked for; compact output has no white space of its own. */
  lemma LayoutOf(style: Style, level: nat)
    ensures var (line, gap) := (Break(style, level), Gap(style));
            if style.pretty then
              |line| == 1 + level * style.indent && line[0] == '\n' && (forall i | 0 < i < |line| :: line[i] == ' ') && gap == " "
            else line == "" && gap == ""
  {
    forall i | 0 <= i < |Spaces(level * style.indent)| ensures Spaces(level * style.indent)[i] == ' ' {
      assert Spaces(level * style.indent)[i] in Spaces(level * style.indent);
    }
  }

  function EscapeChar(c: char): string {
    if c == '"' then "\\\""
    else if c == '\\' then "\\\\"
    else if c == 8 as char then "\\b"
    else if c == 12 as char then "\\f"
    else if c == '\n' then "\\n"
    else if c == '\r' then "\\r"
    else if c == '\t' then "\\t"
    else if c as nat < 0x20 then "\\u00" + [LowerHex(c as nat / 16), LowerHex(c as nat % 16)]
    else [c]
  }

  function Escape(s: string): string {
    if s == "" then "" else EscapeChar(s[0]) + Escape(s[1..])
  }

  function Quote(s: string): string {
    "\"" + Escape(s) + "\""
  }

  function Print(j: Json, style: Style, level: nat): string {
    match j
    case JNull => "null"
    case JBool(flag) => if flag then "true" else "false"
    case JNumber(literal) => literal
    case JString(text) => Quote(text)
    case JArray(items) => "[" + PrintItems(items, style, level + 1) + (if items == [] then "" else Break(style, level)) + "]"
    case JObject(members) =>
      "{" + PrintMembers(members, style, level + 1) + (if members == [] then "" else Break(style, level)) + "}"
  }

  function PrintItems(items: seq<Json>, style: Style, level: nat): string {
    if items == [] then "" else
      Break(style, level) + Print(items[0], style, level)
      + (if |items| == 1 then "" else "," + PrintItems(items[1..], style, level))
  }

  function PrintMembers(members: seq<Member>, style: Style, level: nat): string {
    if members == [] then "" else
      Break(style, level) + PrintMember(members[0], style, level)
      + (if |members| == 1 then "" else "," + PrintMembers(members[1..], style, level))
  }

  function PrintMember(member: Member, style: Style, level: nat): string {
    Quote(member.name) + ":" + Gap(style) + Print(member.value, style, level)
  }

  /** Every number in the document is a number of the grammar. */
  predicate Printable(j: Json) {
    match j
    case JNumber(literal) => IsNumber(literal)
    case JArray(items) => forall i | 0 <= i < |items| :: Printable(items[i])
    case JObject(members) => forall i | 0 <= i < |members| :: Printable(members[i].value)
    case _ => true
  }

  // ---------------------------------------------------------------- reading what was printed

  lemma {:induction false} SkipSpaceOver(w: string, s: string)
    requires forall c | c in w :: IsWhiteSpace(c)
    ensures SkipSpace(w + s) == SkipSpace(s)
  {
    if w == "" {
      assert w + s == s;
    } else {
      assert w[0] in w && (w + s)[1..] == w[1..] + s;
      SkipSpaceOver(w[1..], s);
    }
  }

  lemma BreakIsWhiteSpace(style: Style, level: nat)
    ensures forall c | c in Break(style, level) :: IsWhiteSpace(c)
  {
  }

  /** White space before a value does not matter. */
  lemma ReadValueSkips(w: string, s: string)
    requires forall c | c in w :: IsWhiteSpace(c)
    ensures ReadValue(w + s) == ReadValue(s)
  {
    SkipSpaceOver(w, s);
  }

  // strings

  lemma ReadEscapedControl(c: char, rest: string)
    requires c as nat < 0x20
    ensures ReadEscape("u00" + [LowerHex(c as nat / 16), LowerHex(c as nat % 16)] + rest) == Some((c, 5))
  {
    var s := "u00" + [LowerHex(c as nat / 16), LowerHex(c as nat % 16)] + rest;
    assert s[1..][0] == '0' && s[1..][1] == '0';
    assert s[1..][2] == LowerHex(c as nat / 16) && s[1..][3] == LowerHex(c as nat % 16);
    assert HexValue(LowerHex(c as nat / 16)) == Some(c as nat / 16);
    assert HexValue(LowerHex(c as nat % 16)) == Some(c as nat % 16);
    assert Hex4(s[1..]) == Some(c as nat);
  }

  lemma ReadEscapedShort(c: char, rest: string)
    requires |EscapeChar(c)| == 2
    ensures ReadEscape(EscapeChar(c)[1..] + rest) == Some((c, 1))
  {
    hide Hex4, LowerHex;
    assert (EscapeChar(c)[1..] + rest)[0] == EscapeChar(c)[1];
  }

  lemma ReadCharsEscape(e: string, c: char, rest: string)
    requires |e| >= 2 && e[0] == '\\' && ReadEscape(e[1..] + rest) == Some((c, |e| - 1))
    ensures var more := ReadChars(rest);
            ReadChars(e + rest) == if more.None? then None else Some(([c] + more.value.0, more.value.1))
  {
    hide ReadEscape;
    var s := e + rest;
    assert s[1..] == e[1..] + rest;
    assert s[|e|..] == rest;
  }

  lemma ReadEscapedChar(c: char, rest: string)
    ensures var more := ReadChars(rest);
            ReadChars(EscapeChar(c) + rest)
            == if more.None? then None else Some(([c] + more.value.0, more.value.1))
  {
    hide ReadEscape, LowerHex;
    var e := EscapeChar(c);
    if |e| == 1 {
      assert (e + rest)[1..] == rest;
    } else {
      if |e| == 2 {
        ReadEscapedShort(c, rest);
      } else {
        assert e[1..] == "u00" + [LowerHex(c as nat / 16), LowerHex(c as nat % 16)];
        ReadEscapedControl(c, rest);
      }
      ReadCharsEscape(e, c, rest);
    }
  }

  /** Reading a string undoes its escaping, for every string. */
  lemma {:induction false} ReadEscaped(s: string, rest: string)
    ensures ReadChars(Escape(s) + "\"" + rest) == Some((s, rest))
  {
    if s == "" {
      assert Escape(s) + "\"" + rest == "\"" + rest;
    } else {
      assert Escape(s) + "\"" + rest == EscapeChar(s[0]) + (Escape(s[1..]) + "\"" + rest);
      ReadEscapedChar(s[0], Escape(s[1..]) + "\"" + rest);
      ReadEscaped(s[1..], rest);
      assert [s[0]] + s[1..] == s;
    }
  }

  // numbers

  /** What may follow a number without becoming part of it. */
  predicate Delimited(rest: string) {
    rest == "" || (!IsDigit(rest[0]) && rest[0] !in ".eE+-")
  }

  lemma {:induction false} DigitsEndBefore(s: string, i: nat, rest: string)
    requires i <= |s| && Delimited(rest)
    ensures DigitsEnd(s + rest, i) == DigitsEnd(s, i)
    decreases |s| - i
  {
    if i < |s| {
      assert (s + rest)[i] == s[i];
      DigitsEndBefore(s, i + 1, rest);
    } else if rest != "" {
      assert (s + rest)[i] == rest[0];
    }
  }

  lemma NumberEndBefore(s: string, rest: string)
    requires IsNumber(s) && Delimited(rest)
    ensures NumberEnd(s + rest) == Some(|s|)
    ensures s[0] == '-' || IsDigit(s[0])
  {
    hide DigitsEnd;
    forall i: nat | i <= |s| ensures DigitsEnd(s + rest, i) == DigitsEnd(s, i) {
      DigitsEndBefore(s, i, rest);
    }
    forall i: nat, c: char | i <= |s| && c in ".eE+-" ensures At(s + rest, i, c) == At(s, i, c) {
      if i == |s| && rest != "" { assert (s + rest)[i] == rest[0]; }
    }
    forall i: nat | i < |s| ensures (s + rest)[i] == s[i] {
    }
  }

  // one step of the reader

  lemma ReadItemsLast(s: string, first: Json, more: string, rest: string)
    requires ReadValue(s) == Some((first, more)) && SkipSpace(more) == "]" + rest
    ensures ReadItems(s) == Some(([first], rest))
  {
    hide ReadValue;
    assert ("]" + rest)[1..] == rest;
  }

  lemma ReadItemsNext(s: string, first: Json, more: string, tail: string, items: seq<Json>, rest: string)
    requires ReadValue(s) == Some((first, more)) && SkipSpace(more) == "," + tail
    requires ReadItems(tail) == Some((items, rest))
    ensures ReadItems(s) == Some(([first] + items, rest))
  {
    hide ReadValue;
    assert ("," + tail)[1..] == tail;
  }

  lemma ReadMembersLast(s: string, first: Member, more: string, rest: string)
    requires ReadMember(s) == Some((first, more)) && SkipSpace(more) == "}" + rest
    ensures ReadMembers(s) == Some(([first], rest))
  {
    hide ReadMember;
    assert ("}" + rest)[1..] == rest;
  }

  lemma ReadMembersNext(s: string, first: Member, more: string, tail: string, members: seq<Member>, rest: string)
    requires ReadMember(s) == Some((first, more)) && SkipSpace(more) == "," + tail
    requires ReadMembers(tail) == Some((members, rest))
    ensures ReadMembers(s) == Some(([first] + members, rest))
  {
    hide ReadMember;
    assert ("," + tail)[1..] == tail;
  }

  lemma ReadArray(s: string, items: seq<Json>, rest: string)
    requires var u := SkipSpace(s);
             u != "" && if u[0] == ']' then items == [] && u[1..] == rest else ReadItems(s) == Some((items, rest))
    ensures ReadValue("[" + s) == Some((JArray(items), rest))
  {
    hide ReadItems;
    assert SkipSpace("[" + s) == "[" + s && ("[" + s)[1..] == s;
  }

  lemma ReadObject(s: string, members: seq<Member>, rest: string)
    requires var u := SkipSpace(s);
             u != "" && if u[0] == '}' then members == [] && u[1..] == rest else ReadMembers(s) == Some((members, rest))
    ensures ReadValue("{" + s) == Some((JObject(members), rest))
  {
    hide ReadMembers;
    assert SkipSpace("{" + s) == "{" + s && ("{" + s)[1..] == s;
  }

  lemma ReadQuoted(text: string, rest: string)
    ensures ReadValue(Quote(text) + rest) == Some((JString(text), rest))
  {
    hide ReadChars, Escape;
    var s := Quote(text) + rest;
    assert SkipSpace(s) == s && s[1..] == Escape(text) + "\"" + rest;
    ReadEscaped(text, rest);
  }

  lemma ReadMemberParts(name: string, gap: string, value: Json, text: string, rest: string)
    requires ReadValue(gap + text) == Some((value, rest))
    ensures ReadMember(Quote(name) + ":" + gap + text) == Some((Member(name, value), rest))
  {
    hide ReadValue, ReadChars, Escape;
    var after := ":" + (gap + text);
    var s := Quote(name) + ":" + gap + text;
    assert SkipSpace(s) == s && s[1..] == Escape(name) + "\"" + after;
    ReadEscaped(name, after);
    assert SkipSpace(after) == after && after[1..] == gap + text;
  }

  lemma ReadWord(j: Json, rest: string)
    requires j.JNull? || j.JBool?
    ensures ReadValue(Print(j, Style(false, 0), 0) + rest) == Some((j, rest))
  {
    var s := Print(j, Style(false, 0), 0) + rest;
    assert SkipSpace(s) == s;
    match j
    case JNull => assert s[4..] == rest;
    case JBool(flag) => assert s[if flag then 4 else 5..] == rest;
  }

  lemma ReadNumber(literal: string, rest: string)
    requires IsNumber(literal) && Delimited(rest)
    ensures ReadValue(literal + rest) == Some((JNumber(literal), rest))
  {
    var s := literal + rest;
    NumberEndBefore(literal, rest);
    assert s[0] == literal[0] && s[..|literal|] == literal && s[|literal|..] == rest;
  }

  // values

  lemma PrintStart(j: Json, style: Style, level: nat)
    requires Printable(j)
    ensures var s := Print(j, style, level);
            s != "" && !IsWhiteSpace(s[0]) && s[0] != ']' && s[0] != '}'
  {
    if j.JNumber? {
      NumberEndBefore(j.literal, "");
    }
  }

  /** What follows the first element, up to the end of the array. */
  function Tail(items: seq<Json>, style: Style, level: nat, end: string): string
    requires items != []
  {
    if |items| == 1 then end else "," + (PrintItems(items[1..], style, level) + end)
  }

  function MembersTail(members: seq<Member>, style: Style, level: nat, end: string): string
    requires members != []
  {
    if |members| == 1 then end else "," + (PrintMembers(members[1..], style, level) + end)
  }

  lemma Regrouped(a: string, b: string, c: string, end: string)
    ensures a + b + "" + end == a + (b + end)
    ensures a + b + ("," + c) + end == a + (b + ("," + (c + end)))
  {
  }

  lemma ItemsShape(items: seq<Json>, style: Style, level: nat, end: string)
    requires items != []
    ensures PrintItems(items, style, level) + end
            == Break(style, level) + (Print(items[0], style, level) + Tail(items, style, level, end))
  {
    hide Print, Break;
    var first := Print(items[0], style, level);
    if |items| == 1 {
      Regrouped(Break(style, level), first, "", end);
    } else {
      Regrouped(Break(style, level), first, PrintItems(items[1..], style, level), end);
    }
  }

  lemma MembersShape(members: seq<Member>, style: Style, level: nat, end: string)
    requires members != []
    ensures PrintMembers(members, style, level) + end
            == Break(style, level) + (PrintMember(members[0], style, level) + MembersTail(members, style, level, end))
  {
    hide PrintMember, Break;
    var first := PrintMember(members[0], style, level);
    if |members| == 1 {
      Regrouped(Break(style, level), first, "", end);
    } else {
      Regrouped(Break(style, level), first, PrintMembers(members[1..], style, level), end);
    }
  }

  lemma EndIsDelimited(style: Style, level: nat, bracket: char, rest: string)
    requires bracket in "]}"
    ensures Delimited(Break(style, level) + ([bracket] + rest))
    ensures SkipSpace(Break(style, level) + ([bracket] + rest)) == [bracket] + rest
  {
    BreakIsWhiteSpace(style, level);
    SkipSpaceOver(Break(style, level), [bracket] + rest);
  }

  lemma ItemsStart(items: seq<Json>, style: Style, level: nat, end: string)
    requires items != [] && Printable(items[0])
    ensures var u := SkipSpace(PrintItems(items, style, level) + end);
            u != "" && u[0] != ']'
  {
    hide Print, PrintItems, Printable;
    ItemsShape(items, style, level, end);
    PrintStart(items[0], style, level);
    BreakIsWhiteSpace(style, level);
    SkipSpaceOver(Break(style, level), Print(items[0], style, level) + Tail(items, style, level, end));
  }

  lemma MembersStart(members: seq<Member>, style: Style, level: nat, end: string)
    requires members != []
    ensures var u := SkipSpace(PrintMembers(members, style, level) + end);
            u != "" && u[0] != '}'
  {
    hide Print, PrintMembers;
    MembersShape(members, style, level, end);
    BreakIsWhiteSpace(style, level);
    SkipSpaceOver(Break(style, level), PrintMember(members[0], style, level) + MembersTail(members, style, level, end));
  }

  /** Reading the text of a value gives the value back and stops where the text stops. */
  lemma {:induction false} ReadPrinted(j: Json, style: Style, level: nat, rest: string)
    requires Printable(j) && Delimited(rest)
    ensures ReadValue(Print(j, style, level) + rest) == Some((j, rest))
    decreases j, 0
  {
    match j
    case JNull | JBool(_) =>
      assert Print(j, style, level) == Print(j, Style(false, 0), 0);
      ReadWord(j, rest);
    case JNumber(literal) => ReadNumber(literal, rest);
    case JString(text) => ReadQuoted(text, rest);
    case JArray(items) => ReadPrintedArray(items, style, level, rest);
    case JObject(members) => ReadPrintedObject(members, style, level, rest);
  }

  lemma {:induction false} ReadPrintedArray(items: seq<Json>, style: Style, level: nat, rest: string)
    requires forall i | 0 <= i < |items| :: Printable(items[i])
    ensures ReadValue(Print(JArray(items), style, level) + rest) == Some((JArray(items), rest))
    decreases items, 2
  {
    hide ReadValue, ReadItems, PrintItems, SkipSpace, Break, Printable;
    var body := PrintItems(items, style, level + 1);
    if items == [] {
      EmptyBody(']', rest);
      ReadArray("]" + rest, [], rest);
      assert Print(JArray(items), style, level) + rest == "[" + ("]" + rest) by { assert body == "" by { NothingPrinted(style, level + 1); } }
    } else {
      var end := Break(style, level) + ("]" + rest);
      assert Print(JArray(items), style, level) + rest == "[" + (body + end);
      ItemsStart(items, style, level + 1, end);
      ReadPrintedItems(items, style, level + 1, level, rest);
      ReadArray(body + end, items, rest);
    }
  }

  lemma {:induction false} ReadPrintedObject(members: seq<Member>, style: Style, level: nat, rest: string)
    requires forall i | 0 <= i < |members| :: Printable(members[i].value)
    ensures ReadValue(Print(JObject(members), style, level) + rest) == Some((JObject(members), rest))
    decreases members, 2
  {
    hide ReadValue, ReadMembers, PrintMembers, SkipSpace, Break, Printable;
    var body := PrintMembers(members, style, level + 1);
    if members == [] {
      EmptyBody('}', rest);
      ReadObject("}" + rest, [], rest);
      assert Print(JObject(members), style, level) + rest == "{" + ("}" + rest) by { assert body == "" by { NothingPrinted(style, level + 1); } }
    } else {
      var end := Break(style, level) + ("}" + rest);
      assert Print(JObject(members), style, level) + rest == "{" + (body + end);
      MembersStart(members, style, level + 1, end);
      ReadPrintedMembers(members, style, level + 1, level, rest);
      ReadObject(body + end, members, rest);
    }
  }

  lemma EmptyBody(bracket: char, rest: string)
    requires bracket in "]}"
    ensures var u := SkipSpace([bracket] + rest); u == [bracket] + rest && u[1..] == rest
  {
  }

  lemma NothingPrinted(style: Style, level: nat)
    ensures PrintItems([], style, level) == "" && PrintMembers([], style, level) == ""
  {
  }

  lemma {:induction false} ReadPrintedItems(items: seq<Json>, style: Style, level: nat, outer: nat, rest: string)
    requires items != [] && (forall i | 0 <= i < |items| :: Printable(items[i]))
    ensures ReadItems(PrintItems(items, style, level) + (Break(style, outer) + ("]" + rest))) == Some((items, rest))
    decreases items, 1
  {
    hide ReadValue, ReadItems, PrintItems, Print, SkipSpace, Break, Printable;
    var end := Break(style, outer) + ("]" + rest);
    var tail := Tail(items, style, level, end);
    var first := Print(items[0], style, level);
    EndIsDelimited(style, outer, ']', rest);
    BreakIsWhiteSpace(style, level);
    ItemsShape(items, style, level, end);
    ReadValueSkips(Break(style, level), first + tail);
    ReadPrinted(items[0], style, level, tail);
    if |items| == 1 {
      ReadItemsLast(PrintItems(items, style, level) + end, items[0], tail, rest);
      assert [items[0]] == items;
    } else {
      var more := PrintItems(items[1..], style, level) + end;
      ReadPrintedItems(items[1..], style, level, outer, rest);
      CommaStays(more);
      ReadItemsNext(PrintItems(items, style, level) + end, items[0], tail, more, items[1..], rest);
      assert [items[0]] + items[1..] == items;
    }
  }

  lemma CommaStays(s: string)
    ensures SkipSpace("," + s) == "," + s
  {
  }

  lemma {:induction false} ReadPrintedMembers(members: seq<Member>, style: Style, level: nat, outer: nat, rest: string)
    requires members != [] && (forall i | 0 <= i < |members| :: Printable(members[i].value))
    ensures ReadMembers(PrintMembers(members, style, level) + (Break(style, outer) + ("}" + rest))) == Some((members, rest))
    decreases members, 1
  {
    hide ReadMember, ReadMembers, PrintMembers, PrintMember, SkipSpace, Break, Printable;
    var end := Break(style, outer) + ("}" + rest);
    var tail := MembersTail(members, style, level, end);
    var first := PrintMember(members[0], style, level);
    EndIsDelimited(style, outer, '}', rest);
    BreakIsWhiteSpace(style, level);
    MembersShape(members, style, level, end);
    ReadMemberSkips(Break(style, level), first + tail);
    ReadPrintedMember(members[0], style, level, tail);
    if |members| == 1 {
      ReadMembersLast(PrintMembers(members, style, level) + end, members[0], tail, rest);
      assert [members[0]] == members;
    } else {
      var more := PrintMembers(members[1..], style, level) + end;
      ReadPrintedMembers(members[1..], style, level, outer, rest);
      CommaStays(more);
      ReadMembersNext(PrintMembers(members, style, level) + end, members[0], tail, more, members[1..], rest);
      assert [members[0]] + members[1..] == members;
    }
  }

  lemma {:induction false} ReadPrintedMember(member: Member, style: Style, level: nat, rest: string)
    requires Printable(member.value) && Delimited(rest)
    ensures ReadMember(PrintMember(member, style, level) + rest) == Some((member, rest))
    decreases member, 1
  {
    hide ReadValue, ReadMember, Print, Quote, Printable, Delimited;
    var text := Print(member.value, style, level) + rest;
    ReadValueSkips(Gap(style), text);
    ReadPrinted(member.value, style, level, rest);
    ReadMemberParts(member.name, Gap(style), member.value, text, rest);
    assert PrintMember(member, style, level) + rest == Quote(member.name) + ":" + Gap(style) + text;
  }

  lemma ReadMemberSkips(w: string, s: string)
    requires forall c | c in w :: IsWhiteSpace(c)
    ensures ReadMember(w + s) == ReadMember(s)
  {
    hide ReadValue, ReadChars;
    SkipSpaceOver(w, s);
  }

  /** Every printable document reads back as itself, in every style. */
  lemma ReadUndoesPrint(j: Json, style: Style)
    requires Printable(j)
    ensures Read(Print(j, style, 0)) == Some(j)
  {
    hide ReadValue, Print, Printable;
    ReadPrinted(j, style, 0, "");
    assert Print(j, style, 0) + "" == Print(j, style, 0);
  }
}
