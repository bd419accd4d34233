/**
 A reader for the SQL statements that queries are compiled to: a scanner, and a parser for
 single-table SELECT, SELECT COUNT and DELETE with a WHERE conjunction, ORDER BY, LIMIT and OFFSET.
 */
module SqlText {
  import opened Characters
  import opened Common
  import opened Quoting
  import opened Values

  datatype Compare = Eq | Ne | Lt | Le | Gt | Ge | Like | ILike | In | NotIn | IsNull | IsNotNull | Between

  datatype Verb = Select | Count | Delete

  datatype Condition = Condition(column: string, op: Compare)

  datatype Sort = Sort(column: string, descending: bool)

  datatype Statement = Statement(
    verb: Verb,
    table: string,
    conditions: seq<Condition>,
    orders: seq<Sort>,
    limit: Option<nat>,
    offset: nat)

  // ---------------------------------------------------------------- tokens

  datatype Keyword =
    | SELECT | COUNT | DELETE | FROM | WHERE | AND | IS | NOT | NULL | IN | BETWEEN
    | ORDER | BY | ASC | DESC | LIMIT | OFFSET

  datatype Token =
    | Name(text: string)
    | Number(value: nat)
    | Word(keyword: Keyword)
    | Comparison(op: Compare)
    | Star | Open | Close | Comma | Placeholder
    | Unknown

  function WordToken(s: string): (t: Token)
    ensures !t.Name?
  {
    match s
    case "SELECT" => Word(SELECT)
    case "COUNT" => Word(COUNT)
    case "DELETE" => Word(DELETE)
    case "FROM" => Word(FROM)
    case "WHERE" => Word(WHERE)
    case "AND" => Word(AND)
    case "IS" => Word(IS)
    case "NOT" => Word(NOT)
    case "NULL" => Word(NULL)
    case "IN" => Word(IN)
    case "BETWEEN" => Word(BETWEEN)
    case "ORDER" => Word(ORDER)
    case "BY" => Word(BY)
    case "ASC" => Word(ASC)
    case "DESC" => Word(DESC)
    case "LIMIT" => Word(LIMIT)
    case "OFFSET" => Word(OFFSET)
    case "LIKE" => Comparison(Like)
    case "ILIKE" => Comparison(ILike)
    case _ => Unknown
  }

  function Spelling(k: Keyword): (s: string)
    ensures s != ""
  {
    match k
    case SELECT => "SELECT"
    case COUNT => "COUNT"
    case DELETE => "DELETE"
    case FROM => "FROM"
    case WHERE => "WHERE"
    case AND => "AND"
    case IS => "IS"
    case NOT => "NOT"
    case NULL => "NULL"
    case IN => "IN"
    case BETWEEN => "BETWEEN"
    case ORDER => "ORDER"
    case BY => "BY"
    case ASC => "ASC"
    case DESC => "DESC"
    case LIMIT => "LIMIT"
    case OFFSET => "OFFSET"
  }

  function OperatorToken(s: string): (t: Token)
    ensures !t.Name?
  {
    match s
    case "=" => Comparison(Eq)
    case "!=" => Comparison(Ne)
    case "<>" => Comparison(Ne)
    case "<" => Comparison(Lt)
    case "<=" => Comparison(Le)
    case ">" => Comparison(Gt)
    case ">=" => Comparison(Ge)
    case _ => Unknown
  }

  function SignToken(c: char): Token {
    match c
    case '*' => Star
    case '(' => Open
    case ')' => Close
    case ',' => Comma
    case '?' => Placeholder
    case _ => Unknown
  }

  datatype Class = Letter | Digital | Operator | Sign | Blank | QuoteMark

  function ClassOf(c: char): Class {
    if 'A' <= c <= 'Z' || 'a' <= c <= 'z' || c == '_' then Letter
    else if IsDigit(c) then Digital
    else if c == '<' || c == '>' || c == '=' || c == '!' then Operator
    else if c == ' ' then Blank
    else if c == '"' then QuoteMark
    else Sign
  }

  /** How many characters at the start are of one class. */
  function RunLength(s: string, class_: Class): (n: nat)
    ensures n <= |s|
    ensures forall i | 0 <= i < n :: ClassOf(s[i]) == class_
  {
    if s == "" || ClassOf(s[0]) != class_ then 0 else 1 + RunLength(s[1..], class_)
  }

  function Prepend<T>(first: seq<T>, rest: Option<seq<T>>): Option<seq<T>> {
    if rest.Some? then Some(first + rest.value) else None
  }

  function TokenOf(s: string, class_: Class): (t: Token)
    ensures !t.Name?
  {
    match class_
    case Letter => WordToken(s)
    case Digital => Number(NatOf(s))
    case _ => OperatorToken(s)
  }

  function Scan(s: string): Option<seq<Token>>
    decreases |s|
  {
    if s == "" then Some([]) else
      match ClassOf(s[0])
      case Blank => Scan(s[1..])
      case QuoteMark =>
        var name := ReadQuoted(s[1..], '"');
        if name.None? then None else Prepend([Name(name.value.0)], Scan(name.value.1))
      case Sign => Prepend([SignToken(s[0])], Scan(s[1..]))
      case class_ =>
        var n := 1 + RunLength(s[1..], class_);
        Prepend([TokenOf(s[..n], class_)], Scan(s[n..]))
  }

  // ---------------------------------------------------------------- the parser

  predicate Starts(ts: seq<Token>, first: seq<Token>) {
    |first| <= |ts| && forall i | 0 <= i < |first| :: ts[i] == first[i]
  }

  function ParseVerb(ts: seq<Token>): Option<(Verb, seq<Token>)> {
    if Starts(ts, [Word(SELECT), Star, Word(FROM)]) then Some((Select, ts[3..]))
    else if Starts(ts, [Word(SELECT), Word(COUNT), Open, Star, Close, Word(FROM)]) then Some((Count, ts[6..]))
    else if Starts(ts, [Word(DELETE), Word(FROM)]) then Some((Delete, ts[2..]))
    else None
  }

  /** The rest of a condition, after its column. */
  function ParseTest(ts: seq<Token>): (r: Option<(Compare, seq<Token>)>)
    ensures r.Some? ==> |r.value.1| < |ts|
  {
    if ts == [] then None
    else if ts[0].Comparison? && Starts(ts[1..], [Placeholder]) then Some((ts[0].op, ts[2..]))
    else if Starts(ts, [Word(IS), Word(NULL)]) then Some((IsNull, ts[2..]))
    else if Starts(ts, [Word(IS), Word(NOT), Word(NULL)]) then Some((IsNotNull, ts[3..]))
    else if Starts(ts, [Word(IN), Open, Placeholder, Close]) then Some((In, ts[4..]))
    else if Starts(ts, [Word(NOT), Word(IN), Open, Placeholder, Close]) then Some((NotIn, ts[5..]))
    else if Starts(ts, [Word(BETWEEN), Placeholder, Word(AND), Placeholder]) then Some((Between, ts[4..]))
    else None
  }

  function ParseConditions(ts: seq<Token>): (r: Option<(seq<Condition>, seq<Token>)>)
    decreases |ts|
  {
    if ts == [] || !ts[0].Name? then None else
      var test := ParseTest(ts[1..]);
      if test.None? then None else
        var (op, rest) := test.value;
        var condition := Condition(ts[0].text, op);
        if !Starts(rest, [Word(AND)]) then Some(([condition], rest)) else
          var others := ParseConditions(rest[1..]);
          if others.None? then None else Some(([condition] + others.value.0, others.value.1))
  }

  function ParseSorts(ts: seq<Token>): (r: Option<(seq<Sort>, seq<Token>)>)
    decreases |ts|
  {
    if |ts| < 2 || !ts[0].Name? || (ts[1] != Word(ASC) && ts[1] != Word(DESC)) then None else
      var sort := Sort(ts[0].text, ts[1] == Word(DESC));
      if !Starts(ts[2..], [Comma]) then Some(([sort], ts[2..])) else
        var others := ParseSorts(ts[3..]);
        if others.None? then None else Some(([sort] + others.value.0, others.value.1))
  }

  function ParseWhere(ts: seq<Token>): Option<(seq<Condition>, seq<Token>)> {
    if Starts(ts, [Word(WHERE)]) then ParseConditions(ts[1..]) else Some(([], ts))
  }

  function ParseOrderBy(ts: seq<Token>): Option<(seq<Sort>, seq<Token>)> {
    if Starts(ts, [Word(ORDER), Word(BY)]) then ParseSorts(ts[2..]) else Some(([], ts))
  }

  /** What databases differ in: OFFSET without LIMIT, question marks as placeholders, and empty names. */
  datatype Database = Database(bareOffset: bool, questionMarks: bool, emptyNames: bool)

  const SQLITE := Database(false, true, true)
  const POSTGRESQL := Database(true, false, false)

  predicate Takes(db: Database, t: Token) {
    && (t == Placeholder ==> db.questionMarks)
    && (t == Name("") ==> db.emptyNames)
  }

  predicate TakesAll(db: Database, ts: seq<Token>) {
    forall i | 0 <= i < |ts| :: Takes(db, ts[i])
  }

  function ParseWindow(ts: seq<Token>, bareOffset: bool): Option<(Option<nat>, nat)> {
    if ts == [] then Some((None, 0))
    else if ts[0] == Word(LIMIT) then
      if |ts| == 2 && ts[1].Number? then Some((Some(ts[1].value), 0))
      else if |ts| == 4 && ts[1].Number? && ts[2] == Word(OFFSET) && ts[3].Number? then
        Some((Some(ts[1].value), ts[3].value))
      else None
    else if bareOffset && |ts| == 2 && ts[0] == Word(OFFSET) && ts[1].Number? then Some((None, ts[1].value))
    else None
  }

  function ParseTail(verb: Verb, table: string, ts: seq<Token>, bareOffset: bool): Option<Statement> {
    var conditions := ParseWhere(ts);
    if conditions.None? then None else
      var sorts := ParseOrderBy(conditions.value.1);
      if sorts.None? then None else
        var window := ParseWindow(sorts.value.1, bareOffset);
        if window.None? then None else
          Some(Statement(verb, table, conditions.value.0, sorts.value.0, window.value.0, window.value.1))
  }

  function Parse(ts: seq<Token>, bareOffset: bool): Option<Statement> {
    var verb := ParseVerb(ts);
    if verb.None? || verb.value.1 == [] || !verb.value.1[0].Name? then None else
      ParseTail(verb.value.0, verb.value.1[0].text, verb.value.1[1..], bareOffset)
  }

  /** What a database makes of a statement's text. */
  function Read(s: string, db: Database): Option<Statement> {
    var ts := Scan(s);
    if ts.None? || !TakesAll(db, ts.value) then None else Parse(ts.value, db.bareOffset)
  }

  // ---------------------------------------------------------------- scanning piece by piece

  /** What may follow a piece without changing how it is scanned. */
  predicate Apart(s: string) {
    s == "" || ClassOf(s[0]).Blank? || ClassOf(s[0]).Sign?
  }

  ghost predicate ScansAs(text: string, tokens: seq<Token>) {
    forall rest | Apart(rest) :: Scan(text + rest) == Prepend(tokens, Scan(rest))
  }

  lemma ScansApart(a: string, ta: seq<Token>, b: string, tb: seq<Token>)
    requires ScansAs(a, ta) && ScansAs(b, tb) && b != "" && Apart(b)
    ensures ScansAs(a + b, ta + tb)
  {
    hide Scan;
    forall rest | Apart(rest) ensures Scan(a + b + rest) == Prepend(ta + tb, Scan(rest)) {
      assert a + b + rest == a + (b + rest);
      assert Scan(a + (b + rest)) == Prepend(ta, Scan(b + rest));
      assert Scan(b + rest) == Prepend(tb, Scan(rest));
      if Scan(rest).Some? {
        assert ta + tb + Scan(rest).value == ta + (tb + Scan(rest).value);
      }
    }
  }

  lemma ScansWhole(text: string, tokens: seq<Token>)
    requires ScansAs(text, tokens)
    ensures Scan(text) == Some(tokens)
  {
    assert text + "" == text && Scan("") == Some([]) && tokens + [] == tokens;
    assert Apart("");
  }

  lemma ScanSkipsBlank(s: string)
    ensures Scan(" " + s) == Scan(s)
  {
    hide ReadQuoted, TokenOf, SignToken;
    assert (" " + s)[1..] == s;
  }

  lemma ScansAfterBlank(text: string, tokens: seq<Token>)
    requires ScansAs(text, tokens)
    ensures ScansAs(" " + text, tokens)
  {
    hide Scan;
    forall rest | Apart(rest) ensures Scan(" " + text + rest) == Prepend(tokens, Scan(rest)) {
      ScanSkipsBlank(text + rest);
      assert " " + text + rest == " " + (text + rest);
    }
  }

  lemma ScansSign(c: char)
    requires ClassOf(c).Sign?
    ensures ScansAs([c], [SignToken(c)])
  {
    forall rest | Apart(rest) ensures Scan([c] + rest) == Prepend([SignToken(c)], Scan(rest)) {
      assert ([c] + rest)[1..] == rest;
    }
  }

  lemma {:induction false} RunOf(s: string, rest: string, class_: Class)
    requires forall i | 0 <= i < |s| :: ClassOf(s[i]) == class_
    requires rest == "" || ClassOf(rest[0]) != class_
    ensures RunLength(s + rest, class_) == |s|
  {
    if s == "" {
      assert s + rest == rest;
    } else {
      assert (s + rest)[1..] == s[1..] + rest;
      RunOf(s[1..], rest, class_);
    }
  }

  lemma ScansRun(s: string, class_: Class)
    requires s != "" && forall i | 0 <= i < |s| :: ClassOf(s[i]) == class_
    requires class_.Letter? || class_.Digital? || class_.Operator?
    ensures ScansAs(s, [TokenOf(s, class_)])
  {
    hide TokenOf, ClassOf;
    forall rest | Apart(rest) ensures Scan(s + rest) == Prepend([TokenOf(s, class_)], Scan(rest)) {
      assert (s + rest)[1..] == s[1..] + rest;
      RunOf(s[1..], rest, class_);
      assert (s + rest)[..|s|] == s && (s + rest)[|s|..] == rest;
    }
  }

  lemma SpellingIsWord(k: Keyword)
    ensures WordToken(Spelling(k)) == Word(k)
  {
  }

  lemma ScansKeyword(k: Keyword)
    ensures ScansAs(Spelling(k), [Word(k)]) && ScansAs(" " + Spelling(k), [Word(k)])
    ensures Apart(" " + Spelling(k))
  {
    hide ScansAs, WordToken;
    SpellingIsWord(k);
    ScansRun(Spelling(k), Letter);
    ScansAfterBlank(Spelling(k), [Word(k)]);
  }

  lemma ScansName(name: string)
    requires '"' !in name
    ensures ScansAs("\"" + name + "\"", [Name(name)])
  {
    hide ReadQuoted;
    forall rest | Apart(rest) ensures Scan("\"" + name + "\"" + rest) == Prepend([Name(name)], Scan(rest)) {
      Undoubled(name, '"');
      QuotedReads(name, rest, '"');
      assert ("\"" + name + "\"" + rest)[1..] == name + (['"'] + rest);
    }
  }

  lemma ScansNumber(n: nat)
    ensures ScansAs(NatText(n), [Number(n)])
  {
    NatTextIsDecimal(n);
    forall i | 0 <= i < |NatText(n)| ensures ClassOf(NatText(n)[i]) == Digital {
      assert NatText(n)[i] in NatText(n);
    }
    ScansRun(NatText(n), Digital);
  }

  // ---------------------------------------------------------------- every quote belongs to a name

  function NameQuotes(name: string): nat {
    2 + 2 * Quoting.Count(name, '"')
  }

  function TokenQuotes(ts: seq<Token>): nat {
    if ts == [] then 0 else (if ts[0].Name? then NameQuotes(ts[0].text) else 0) + TokenQuotes(ts[1..])
  }

  function ConditionQuotes(conditions: seq<Condition>): nat {
    if conditions == [] then 0 else NameQuotes(conditions[0].column) + ConditionQuotes(conditions[1..])
  }

  function SortQuotes(sorts: seq<Sort>): nat {
    if sorts == [] then 0 else NameQuotes(sorts[0].column) + SortQuotes(sorts[1..])
  }

  function StatementQuotes(statement: Statement): nat {
    NameQuotes(statement.table) + ConditionQuotes(statement.conditions) + SortQuotes(statement.orders)
  }

  lemma {:induction false} SkipQuotes(ts: seq<Token>, k: nat)
    requires k <= |ts| && forall i | 0 <= i < k :: !ts[i].Name?
    ensures TokenQuotes(ts[k..]) == TokenQuotes(ts)
  {
    if k > 0 {
      SkipQuotes(ts[1..], k - 1);
      assert ts[1..][k - 1..] == ts[k..];
    }
  }

  lemma {:induction false} NoQuotesInRun(s: string, n: nat)
    requires n <= |s| && forall i | 0 <= i < n :: s[i] != '"'
    ensures Quoting.Count(s[n..], '"') == Quoting.Count(s, '"')
  {
    if n > 0 {
      NoQuotesInRun(s[1..], n - 1);
      assert s[1..][n - 1..] == s[n..];
    }
  }

  lemma {:induction false} ScanKeepsQuotes(s: string)
    requires Scan(s).Some?
    ensures TokenQuotes(Scan(s).value) == Quoting.Count(s, '"')
    decreases |s|
  {
    hide ReadQuoted, TokenOf;
    if s != "" {
      var class_ := ClassOf(s[0]);
      if class_.Blank? {
        ScanKeepsQuotes(s[1..]);
      } else if class_.QuoteMark? {
        var (name, rest) := ReadQuoted(s[1..], '"').value;
        ScanKeepsQuotes(rest);
        ReadQuotedCounts(s[1..], '"');
        assert Scan(s).value[1..] == Scan(rest).value;
      } else if class_.Sign? {
        ScanKeepsQuotes(s[1..]);
        assert Scan(s).value[1..] == Scan(s[1..]).value;
      } else {
        var n := 1 + RunLength(s[1..], class_);
        ScanKeepsQuotes(s[n..]);
        forall i | 0 <= i < n ensures s[i] != '"' {
          assert ClassOf(s[i]) == class_;
        }
        NoQuotesInRun(s, n);
        assert Scan(s).value[1..] == Scan(s[n..]).value;
      }
    }
  }

  lemma {:induction false} ConditionsKeepQuotes(ts: seq<Token>)
    requires ParseConditions(ts).Some?
    ensures var (conditions, rest) := ParseConditions(ts).value;
            TokenQuotes(ts) == ConditionQuotes(conditions) + TokenQuotes(rest)
    decreases |ts|
  {
    hide ParseTest;
    var (op, rest) := ParseTest(ts[1..]).value;
    TestKeepsQuotes(ts[1..]);
    if Starts(rest, [Word(AND)]) {
      ConditionsKeepQuotes(rest[1..]);
    }
  }

  lemma TestKeepsQuotes(ts: seq<Token>)
    requires ParseTest(ts).Some?
    ensures TokenQuotes(ParseTest(ts).value.1) == TokenQuotes(ts)
  {
    SkipQuotes(ts, |ts| - |ParseTest(ts).value.1|);
  }

  lemma {:induction false} SortsKeepQuotes(ts: seq<Token>)
    requires ParseSorts(ts).Some?
    ensures var (sorts, rest) := ParseSorts(ts).value;
            TokenQuotes(ts) == SortQuotes(sorts) + TokenQuotes(rest)
    decreases |ts|
  {
    SkipQuotes(ts[1..], 1);
    assert ts[1..][1..] == ts[2..];
    if Starts(ts[2..], [Comma]) {
      SkipQuotes(ts[2..], 1);
      assert ts[2..][1..] == ts[3..];
      SortsKeepQuotes(ts[3..]);
      assert ParseSorts(ts).value.0[1..] == ParseSorts(ts[3..]).value.0;
    }
  }

  lemma WhereKeepsQuotes(ts: seq<Token>)
    requires ParseWhere(ts).Some?
    ensures var (conditions, rest) := ParseWhere(ts).value;
            TokenQuotes(ts) == ConditionQuotes(conditions) + TokenQuotes(rest)
  {
    hide ParseConditions;
    if Starts(ts, [Word(WHERE)]) {
      ConditionsKeepQuotes(ts[1..]);
    }
  }

  lemma OrderByKeepsQuotes(ts: seq<Token>)
    requires ParseOrderBy(ts).Some?
    ensures var (sorts, rest) := ParseOrderBy(ts).value;
            TokenQuotes(ts) == SortQuotes(sorts) + TokenQuotes(rest)
  {
    hide ParseSorts;
    if Starts(ts, [Word(ORDER), Word(BY)]) {
      SortsKeepQuotes(ts[2..]);
      SkipQuotes(ts, 2);
    }
  }

  lemma TailKeepsQuotes(verb: Verb, table: string, ts: seq<Token>, bareOffset: bool)
    requires ParseTail(verb, table, ts, bareOffset).Some?
    ensures var r := ParseTail(verb, table, ts, bareOffset).value;
            r.table == table && TokenQuotes(ts) == ConditionQuotes(r.conditions) + SortQuotes(r.orders)
  {
    hide ParseWhere, ParseOrderBy, ConditionQuotes, SortQuotes;
    WhereKeepsQuotes(ts);
    var afterWhere := ParseWhere(ts).value.1;
    OrderByKeepsQuotes(afterWhere);
    var afterOrder := ParseOrderBy(afterWhere).value.1;
    SkipQuotes(afterOrder, |afterOrder|);
  }

  lemma VerbKeepsQuotes(ts: seq<Token>)
    requires ParseVerb(ts).Some?
    ensures TokenQuotes(ParseVerb(ts).value.1) == TokenQuotes(ts)
  {
    SkipQuotes(ts, |ts| - |ParseVerb(ts).value.1|);
  }

  /** Whatever text is read as a statement, its quotes are those of the statement's names, escaped. */
  lemma ReadKeepsQuotes(s: string, db: Database)
    requires Read(s, db).Some?
    ensures Quoting.Count(s, '"') == StatementQuotes(Read(s, db).value)
  {
    hide Scan, ParseTail, ParseVerb, NameQuotes, ConditionQuotes, SortQuotes;
    ScanKeepsQuotes(s);
    var ts := Scan(s).value;
    var (verb, rest) := ParseVerb(ts).value;
    VerbKeepsQuotes(ts);
    TailKeepsQuotes(verb, rest[0].text, rest[1..], db.bareOffset);
  }
}
