/** The query builder: filters, orders, limit and offset, and the SQL text they are compiled to. */
module QueryCompiler {
  import opened Common
  import opened Values
  import opened Quoting
  import opened SqlText

  /** The mapping of one type: its table and the columns of its properties. */
  datatype Mapper = Mapper(table: string, columns: map<string, string>)

  datatype Filter = Filter(column: string, op: Compare, value: Option<Value>)

  /** What a query asks for. */
  datatype Plan = Plan(table: string, filters: seq<Filter>, orders: seq<Sort>, limit: int, offset: int)

  // ---------------------------------------------------------------- the text of a query

  /** filter_op_to_sql() */
  function OperatorText(op: Compare): string {
    match op
    case Eq => "="
    case Ne => "!="
    case Lt => "<"
    case Le => "<="
    case Gt => ">"
    case Ge => ">="
    case Like => "LIKE"
    case In => "IN"
    case IsNull => "IS NULL"
    case IsNotNull => "IS NOT NULL"
    case _ => "="
  }

  predicate TakesValue(op: Compare) {
    op != IsNull && op != IsNotNull
  }

  function Quote(name: string): string {
    "\"" + name + "\""
  }

  function FilterText(filter: Filter): string {
    Quote(filter.column) + (" " + OperatorText(filter.op)) + (if TakesValue(filter.op) then " ?" else "")
  }

  function SortText(sort: Sort): string {
    Quote(sort.column) + (if sort.descending then " DESC" else " ASC")
  }

  function FilterTexts(filters: seq<Filter>): (r: seq<string>)
    ensures |r| == |filters| && forall i | 0 <= i < |r| :: r[i] == FilterText(filters[i])
  {
    Map(FilterText, filters)
  }

  function SortTexts(orders: seq<Sort>): (r: seq<string>)
    ensures |r| == |orders| && forall i | 0 <= i < |r| :: r[i] == SortText(orders[i])
  {
    Map(SortText, orders)
  }

  function WhereText(filters: seq<Filter>): string {
    if filters == [] then "" else " WHERE " + Join(FilterTexts(filters), " AND ")
  }

  function OrderText(orders: seq<Sort>): string {
    if orders == [] then "" else " ORDER BY " + Join(SortTexts(orders), ", ")
  }

  function WindowText(limit: int, offset: int): string {
    (if limit >= 0 then " LIMIT " + NatText(limit) else "") + (if offset > 0 then " OFFSET " + NatText(offset) else "")
  }

  function HeadText(verb: Verb): (s: string)
    ensures s != ""
  {
    match verb
    case Select => "SELECT * FROM "
    case Count => "SELECT COUNT(*) FROM "
    case Delete => "DELETE FROM "
  }

  function StatementText(verb: Verb, plan: Plan): string {
    HeadText(verb) + Quote(plan.table) + WhereText(plan.filters)
    + (if verb.Select? then OrderText(plan.orders) + WindowText(plan.limit, plan.offset) else "")
  }

  /** The parameters, in the order of their placeholders; a missing value is sent as NULL. */
  function Parameters(filters: seq<Filter>): seq<Value> {
    if filters == [] then [] else
      Parameters(filters[..|filters| - 1])
      + (var last := filters[|filters| - 1];
         if TakesValue(last.op) then [if last.value.Some? then last.value.value else Null] else [])
  }

  // ---------------------------------------------------------------- the builder

  class Query {
    var mapper: Option<Mapper>
    var filters: seq<Filter>
    var orders: seq<Sort>
    var limit: int
    var offset: int

    function Contents(table: string): Plan
      reads this
    {
      Plan(table, filters, orders, limit, offset)
    }

    constructor (mapper: Option<Mapper>)
      ensures this.mapper == mapper
      ensures forall table :: Contents(table) == Plan(table, [], [], -1, 0)
    {
      this.mapper := mapper;
      filters, orders, limit, offset := [], [], -1, 0;
    }

    function ColumnOf(property: string): string
      reads this
    {
      if mapper.Some? && property in mapper.value.columns then mapper.value.columns[property] else property
    }

    /** Without a mapper the filter is dropped, with a warning. */
    method AddFilter(property: string, op: Compare, value: Option<Value>)
      modifies this`filters
      ensures mapper.None? ==> filters == old(filters)
      ensures mapper.Some? && property in mapper.value.columns ==>
                filters == old(filters) + [Filter(mapper.value.columns[property], op, value)]
      ensures mapper.Some? && property !in mapper.value.columns ==>
                filters == old(filters) + [Filter(property, op, value)]
    {
      if mapper.None? {
        return;
      }
      filters := filters + [Filter(ColumnOf(property), op, value)];
    }

    method OrderBy(property: string, descending: bool)
      modifies this`orders
      ensures mapper.Some? && property in mapper.value.columns ==>
                orders == old(orders) + [Sort(mapper.value.columns[property], descending)]
      ensures mapper.None? || property !in mapper.value.columns ==>
                orders == old(orders) + [Sort(property, descending)]
    {
      orders := orders + [Sort(ColumnOf(property), descending)];
    }

    method SetLimit(limit: int)
      modifies this`limit
      ensures this.limit == limit
    {
      this.limit := limit;
    }

    method SetOffset(offset: int)
      modifies this`offset
      ensures this.offset == offset
    {
      this.offset := offset;
    }

    method AppendWhere(sql: string) returns (out: string, params: seq<Value>)
      ensures out == sql + WhereText(filters)
      ensures params == Parameters(filters)
    {
      hide Join, FilterText, FilterTexts;
      out, params := sql, [];
      if filters == [] {
        return;
      }
      out := out + " WHERE ";
      ghost var texts := FilterTexts(filters);
      JoinNothing(texts, " AND ");
      for i := 0 to |filters|
        invariant out == sql + " WHERE " + Join(texts[..i], " AND ")
        invariant params == Parameters(filters[..i])
      {
        JoinUpTo(texts, i, " AND ");
        var clause := filters[i];
        out := out + (if i > 0 then " AND " else "") + FilterText(clause);
        if TakesValue(clause.op) {
          params := params + [if clause.value.Some? then clause.value.value else Null];
        }
        assert filters[..i + 1][..i] == filters[..i];
      }
      assert filters[..|filters|] == filters;
    }

    method AppendOrderBy(sql: string) returns (out: string)
      ensures out == sql + OrderText(orders)
    {
      hide Join, SortText, SortTexts;
      out := sql;
      if orders == [] {
        return;
      }
      out := out + " ORDER BY ";
      ghost var texts := SortTexts(orders);
      JoinNothing(texts, ", ");
      for i := 0 to |orders|
        invariant out == sql + " ORDER BY " + Join(texts[..i], ", ")
      {
        JoinUpTo(texts, i, ", ");
        out := out + (if i > 0 then ", " else "") + SortText(orders[i]);
      }
    }

    method AppendWindow(sql: string) returns (out: string)
      ensures out == sql + WindowText(limit, offset)
    {
      hide NatText;
      out := sql;
      if limit >= 0 {
        out := out + (" LIMIT " + NatText(limit));
      }
      if offset > 0 {
        out := out + (" OFFSET " + NatText(offset));
      }
    }

    /** build_select_sql(), and the statements that count() and delete() build. */
    method Build(verb: Verb) returns (r: Option<(string, seq<Value>)>)
      ensures r == if mapper.None? then None
                   else Some((StatementText(verb, Contents(mapper.value.table)), Parameters(filters)))
    {
      hide WhereText, OrderText, WindowText, Parameters, HeadText, Quote;
      if mapper.None? {
        return None;
      }
      var sql := HeadText(verb) + Quote(mapper.value.table);
      var params;
      sql, params := AppendWhere(sql);
      if verb.Select? {
        ghost var before := sql;
        sql := AppendOrderBy(sql);
        sql := AppendWindow(sql);
        assert sql == before + (OrderText(orders) + WindowText(limit, offset));
      } else {
        assert sql + "" == sql;
      }
      return Some((sql, params));
    }

    /** first() compiles with a limit of one, whatever the limit was, and puts the limit back. */
    method BuildFirst() returns (r: Option<(string, seq<Value>)>)
      modifies this`limit
      ensures limit == old(limit)
      ensures r == if mapper.None? then None
                   else Some((StatementText(Select, Contents(mapper.value.table).(limit := 1)), Parameters(filters)))
    {
      var original := limit;
      limit := 1;
      r := Build(Select);
      limit := original;
    }
  }

  lemma JoinNothing(texts: seq<string>, delimiter: string)
    ensures Join(texts[..0], delimiter) == "" && texts[..|texts|] == texts
  {
  }

  // ---------------------------------------------------------------- what the query means to say

  function Conditions(filters: seq<Filter>): (r: seq<Condition>)
    ensures |r| == |filters| && forall i | 0 <= i < |r| :: r[i] == Condition(filters[i].column, filters[i].op)
  {
    Map((filter: Filter) => Condition(filter.column, filter.op), filters)
  }

  /** The statement that says what the query asks for. */
  function Intended(verb: Verb, plan: Plan): Statement {
    var limit := if plan.limit >= 0 then Some(plan.limit as nat) else None;
    var offset: nat := if plan.offset > 0 then plan.offset else 0;
    if verb.Select? then Statement(verb, plan.table, Conditions(plan.filters), plan.orders, limit, offset)
    else Statement(verb, plan.table, Conditions(plan.filters), [], None, 0)
  }

  /** The operator a compiled comparison is read as. */
  function Effective(op: Compare): Compare {
    if op in {ILike, NotIn, Between} then Eq else op
  }

  predicate Unquoted(name: string) {
    '"' !in name
  }

  predicate PlainNames(verb: Verb, plan: Plan) {
    && Unquoted(plan.table)
    && (forall i | 0 <= i < |plan.filters| :: Unquoted(plan.filters[i].column))
    && (verb.Select? ==> forall i | 0 <= i < |plan.orders| :: Unquoted(plan.orders[i].column))
  }

  predicate NoIn(filters: seq<Filter>) {
    forall i | 0 <= i < |filters| :: filters[i].op != In
  }

  /** No filter is compiled to a placeholder. */
  predicate NoValues(filters: seq<Filter>) {
    forall i | 0 <= i < |filters| :: !TakesValue(filters[i].op)
  }

  predicate NoEmptyName(verb: Verb, plan: Plan) {
    && plan.table != ""
    && (forall i | 0 <= i < |plan.filters| :: plan.filters[i].column != "")
    && (verb.Select? ==> forall i | 0 <= i < |plan.orders| :: plan.orders[i].column != "")
  }

  /** A database takes the text: no IN, and OFFSET, placeholders and empty names only where it has them. */
  predicate Readable(verb: Verb, plan: Plan, db: Database) {
    && NoIn(plan.filters)
    && (verb.Select? ==> plan.offset <= 0 || plan.limit >= 0 || db.bareOffset)
    && (db.questionMarks || NoValues(plan.filters))
    && (db.emptyNames || NoEmptyName(verb, plan))
  }

  /** The operators that the compiler lists, and so does not turn into "=". */
  predicate AllListed(filters: seq<Filter>) {
    forall i | 0 <= i < |filters| :: Effective(filters[i].op) == filters[i].op
  }

  /** No quote in a name, no unlisted operator, and nothing that the database does not take. */
  predicate Expressible(verb: Verb, plan: Plan, db: Database) {
    PlainNames(verb, plan) && Readable(verb, plan, db) && AllListed(plan.filters)
  }

  // ---------------------------------------------------------------- scanning the text

  function OperatorTokens(op: Compare): seq<Token> {
    match op
    case In => [Word(IN)]
    case IsNull => [Word(IS), Word(NULL)]
    case IsNotNull => [Word(IS), Word(NOT), Word(NULL)]
    case _ => [Comparison(Effective(op))]
  }

  function FilterTokens(filter: Filter): seq<Token> {
    [Name(filter.column)] + OperatorTokens(filter.op) + (if TakesValue(filter.op) then [Placeholder] else [])
  }

  function SortTokens(sort: Sort): seq<Token> {
    [Name(sort.column), Word(if sort.descending then DESC else ASC)]
  }

  function JoinTokens(groups: seq<seq<Token>>, mark: Token): seq<Token> {
    if |groups| == 0 then [] else groups[0] + (if |groups| == 1 then [] else [mark] + JoinTokens(groups[1..], mark))
  }

  function WhereTokens(filters: seq<Filter>): seq<Token> {
    if filters == [] then [] else [Word(WHERE)] + JoinTokens(Map(FilterTokens, filters), Word(AND))
  }

  function OrderTokens(orders: seq<Sort>): seq<Token> {
    if orders == [] then [] else [Word(ORDER), Word(BY)] + JoinTokens(Map(SortTokens, orders), Comma)
  }

  function WindowTokens(limit: int, offset: int): seq<Token> {
    (if limit >= 0 then [Word(LIMIT), Number(limit)] else [])
    + (if offset > 0 then [Word(OFFSET), Number(offset)] else [])
  }

  function HeadTokens(verb: Verb): seq<Token> {
    match verb
    case Select => [Word(SELECT), Star, Word(FROM)]
    case Count => [Word(SELECT), Word(COUNT), Open, Star, Close, Word(FROM)]
    case Delete => [Word(DELETE), Word(FROM)]
  }

  function StatementTokens(verb: Verb, plan: Plan): seq<Token> {
    HeadTokens(verb) + [Name(plan.table)] + WhereTokens(plan.filters)
    + (if verb.Select? then OrderTokens(plan.orders) + WindowTokens(plan.limit, plan.offset) else [])
  }

  lemma ScansTwo(a: Keyword, b: Keyword)
    ensures ScansAs(" " + Spelling(a) + (" " + Spelling(b)), [Word(a), Word(b)])
  {
    hide ScansAs, Spelling;
    ScansKeyword(a);
    ScansKeyword(b);
    ScansApart(" " + Spelling(a), [Word(a)], " " + Spelling(b), [Word(b)]);
    assert [Word(a)] + [Word(b)] == [Word(a), Word(b)];
  }

  lemma ScansNotNull()
    ensures ScansAs(" IS NOT NULL", [Word(IS), Word(NOT), Word(NULL)])
  {
    hide ScansAs;
    ScansTwo(IS, NOT);
    ScansKeyword(NULL);
    ScansApart(" " + Spelling(IS) + (" " + Spelling(NOT)), [Word(IS), Word(NOT)], " " + Spelling(NULL), [Word(NULL)]);
    assert " " + Spelling(IS) + (" " + Spelling(NOT)) + (" " + Spelling(NULL)) == " IS NOT NULL";
    assert [Word(IS), Word(NOT)] + [Word(NULL)] == [Word(IS), Word(NOT), Word(NULL)];
  }

  lemma ScansOperator(op: Compare)
    ensures ScansAs(" " + OperatorText(op), OperatorTokens(op))
  {
    hide ScansAs;
    match op {
      case Like =>
        ScansRun("LIKE", Letter);
        ScansAfterBlank("LIKE", [Comparison(Like)]);
      case In => ScansKeyword(IN);
      case IsNull =>
        ScansTwo(IS, NULL);
        assert " " + Spelling(IS) + (" " + Spelling(NULL)) == " " + OperatorText(op);
      case IsNotNull =>
        ScansNotNull();
        assert " " + OperatorText(op) == " IS NOT NULL";
      case _ =>
        ScansRun(OperatorText(op), Operator);
        ScansAfterBlank(OperatorText(op), OperatorTokens(op));
    }
  }

  lemma ScansFilter(filter: Filter)
    requires Unquoted(filter.column)
    ensures ScansAs(FilterText(filter), FilterTokens(filter))
  {
    hide ScansAs, OperatorText, OperatorTokens;
    var name, operator := Quote(filter.column), " " + OperatorText(filter.op);
    ScansName(filter.column);
    ScansOperator(filter.op);
    ScansApart(name, [Name(filter.column)], operator, OperatorTokens(filter.op));
    if TakesValue(filter.op) {
      ScansSign('?');
      ScansAfterBlank("?", [Placeholder]);
      assert " " + "?" == " ?";
      ScansApart(name + operator, [Name(filter.column)] + OperatorTokens(filter.op), " ?", [Placeholder]);
    } else {
      assert FilterText(filter) == name + operator;
      assert FilterTokens(filter) == [Name(filter.column)] + OperatorTokens(filter.op);
    }
  }

  lemma ScansSort(sort: Sort)
    requires Unquoted(sort.column)
    ensures ScansAs(SortText(sort), SortTokens(sort))
  {
    hide ScansAs;
    ScansName(sort.column);
    var direction := if sort.descending then DESC else ASC;
    ScansKeyword(direction);
    ScansApart(Quote(sort.column), [Name(sort.column)], " " + Spelling(direction), [Word(direction)]);
    assert " " + Spelling(direction) == if sort.descending then " DESC" else " ASC";
    assert SortTokens(sort) == [Name(sort.column)] + [Word(direction)];
  }

  lemma {:induction false} ScansJoin(texts: seq<string>, groups: seq<seq<Token>>, separator: string, mark: Token)
    requires |texts| == |groups| > 0 && forall i | 0 <= i < |texts| :: ScansAs(texts[i], groups[i])
    requires separator != "" && Apart(separator) && ScansAs(separator, [mark])
    ensures ScansAs(Join(texts, separator + " "), JoinTokens(groups, mark))
  {
    hide ScansAs, Apart;
    if |texts| == 1 {
      assert Join(texts, separator + " ") == texts[0] && JoinTokens(groups, mark) == groups[0];
    } else {
      var text, tokens := Join(texts[1..], separator + " "), JoinTokens(groups[1..], mark);
      ScansJoin(texts[1..], groups[1..], separator, mark);
      ScansAfterBlank(text, tokens);
      BlankIsApart(text);
      ScansApart(separator, [mark], " " + text, tokens);
      StaysApart(separator, " " + text);
      ScansApart(texts[0], groups[0], separator + (" " + text), [mark] + tokens);
      assert Join(texts, separator + " ") == texts[0] + (separator + (" " + text));
    }
  }

  lemma BlankIsApart(s: string)
    ensures Apart(" " + s)
  {
  }

  lemma StaysApart(s: string, t: string)
    requires s != "" && Apart(s)
    ensures Apart(s + t)
  {
  }

  lemma ScansWhere(filters: seq<Filter>)
    requires forall i | 0 <= i < |filters| :: Unquoted(filters[i].column)
    requires filters != []
    ensures ScansAs(WhereText(filters), WhereTokens(filters))
  {
    hide ScansAs, FilterText, FilterTokens, Join, JoinTokens;
    forall i | 0 <= i < |filters| ensures ScansAs(FilterText(filters[i]), FilterTokens(filters[i])) {
      ScansFilter(filters[i]);
    }
    ScansKeyword(AND);
    ScansKeyword(WHERE);
    assert " " + Spelling(AND) == " AND" && " " + Spelling(WHERE) == " WHERE";
    ScansJoin(FilterTexts(filters), Map(FilterTokens, filters), " AND", Word(AND));
    var text, tokens := Join(FilterTexts(filters), " AND" + " "), JoinTokens(Map(FilterTokens, filters), Word(AND));
    assert " AND" + " " == " AND ";
    ScansAfterBlank(text, tokens);
    ScansApart(" WHERE", [Word(WHERE)], " " + text, tokens);
    assert " WHERE" + (" " + text) == " WHERE " + text;
  }

  lemma ScansOrder(orders: seq<Sort>)
    requires forall i | 0 <= i < |orders| :: Unquoted(orders[i].column)
    requires orders != []
    ensures ScansAs(OrderText(orders), OrderTokens(orders))
  {
    hide ScansAs, SortText, SortTokens, Join, JoinTokens;
    forall i | 0 <= i < |orders| ensures ScansAs(SortText(orders[i]), SortTokens(orders[i])) {
      ScansSort(orders[i]);
    }
    ScansSign(',');
    ScansTwo(ORDER, BY);
    ScansJoin(SortTexts(orders), Map(SortTokens, orders), ",", Comma);
    var text, tokens := Join(SortTexts(orders), "," + " "), JoinTokens(Map(SortTokens, orders), Comma);
    assert "," + " " == ", ";
    ScansAfterBlank(text, tokens);
    assert " " + Spelling(ORDER) + (" " + Spelling(BY)) == " ORDER BY";
    ScansApart(" ORDER BY", [Word(ORDER), Word(BY)], " " + text, tokens);
    assert " ORDER BY" + (" " + text) == " ORDER BY " + text;
  }

  lemma ScansCount(k: Keyword, n: nat)
    ensures ScansAs(" " + Spelling(k) + (" " + NatText(n)), [Word(k), Number(n)])
  {
    hide ScansAs, NatText, Spelling;
    ScansKeyword(k);
    ScansNumber(n);
    ScansAfterBlank(NatText(n), [Number(n)]);
    ScansApart(" " + Spelling(k), [Word(k)], " " + NatText(n), [Number(n)]);
    assert [Word(k)] + [Number(n)] == [Word(k), Number(n)];
  }

  lemma ScansSelect()
    ensures ScansAs(Spelling(SELECT) + " *" + (" " + Spelling(FROM)), [Word(SELECT), Star, Word(FROM)])
  {
    hide ScansAs;
    ScansKeyword(SELECT);
    ScansKeyword(FROM);
    ScansSign('*');
    ScansAfterBlank("*", [Star]);
    assert " " + "*" == " *";
    ScansApart(Spelling(SELECT), [Word(SELECT)], " *", [Star]);
    ScansApart(Spelling(SELECT) + " *", [Word(SELECT)] + [Star], " " + Spelling(FROM), [Word(FROM)]);
    assert [Word(SELECT)] + [Star] + [Word(FROM)] == [Word(SELECT), Star, Word(FROM)];
  }

  lemma ScansStarred()
    ensures ScansAs("(" + "*" + ")", [Open, Star, Close])
  {
    hide ScansAs;
    ScansSign('(');
    ScansSign('*');
    ScansSign(')');
    ScansApart("(", [Open], "*", [Star]);
    ScansApart("(" + "*", [Open] + [Star], ")", [Close]);
    assert [Open] + [Star] + [Close] == [Open, Star, Close];
  }

  lemma ScansCountAll()
    ensures ScansAs(Spelling(SELECT) + (" " + Spelling(COUNT)) + ("(" + "*" + ")") + (" " + Spelling(FROM)),
                    [Word(SELECT), Word(COUNT), Open, Star, Close, Word(FROM)])
  {
    hide ScansAs;
    ScansKeyword(SELECT);
    ScansKeyword(COUNT);
    ScansKeyword(FROM);
    ScansStarred();
    ScansApart(Spelling(SELECT), [Word(SELECT)], " " + Spelling(COUNT), [Word(COUNT)]);
    ScansApart(Spelling(SELECT) + (" " + Spelling(COUNT)), [Word(SELECT)] + [Word(COUNT)], "(" + "*" + ")", [Open, Star, Close]);
    ScansApart(Spelling(SELECT) + (" " + Spelling(COUNT)) + ("(" + "*" + ")"), [Word(SELECT)] + [Word(COUNT)] + [Open, Star, Close],
               " " + Spelling(FROM), [Word(FROM)]);
    assert [Word(SELECT)] + [Word(COUNT)] + [Open, Star, Close] + [Word(FROM)]
        == [Word(SELECT), Word(COUNT), Open, Star, Close, Word(FROM)];
  }

  lemma ScansDelete()
    ensures ScansAs(Spelling(DELETE) + (" " + Spelling(FROM)), [Word(DELETE), Word(FROM)])
  {
    hide ScansAs;
    ScansKeyword(DELETE);
    ScansKeyword(FROM);
    ScansApart(Spelling(DELETE), [Word(DELETE)], " " + Spelling(FROM), [Word(FROM)]);
    assert [Word(DELETE)] + [Word(FROM)] == [Word(DELETE), Word(FROM)];
  }

  /** The head of a statement without its last blank. */
  lemma ScansHead(verb: Verb)
    ensures HeadText(verb) == HeadText(verb)[..|HeadText(verb)| - 1] + " "
    ensures ScansAs(HeadText(verb)[..|HeadText(verb)| - 1], HeadTokens(verb))
  {
    hide ScansAs;
    match verb
    case Select =>
      ScansSelect();
      assert HeadText(verb)[..|HeadText(verb)| - 1] == Spelling(SELECT) + " *" + (" " + Spelling(FROM));
    case Count =>
      ScansCountAll();
      assert HeadText(verb)[..|HeadText(verb)| - 1] == Spelling(SELECT) + (" " + Spelling(COUNT)) + ("(" + "*" + ")") + (" " + Spelling(FROM));
    case Delete =>
      ScansDelete();
      assert HeadText(verb)[..|HeadText(verb)| - 1] == Spelling(DELETE) + (" " + Spelling(FROM));
  }

  lemma ScansOptional(a: string, ta: seq<Token>, b: string, tb: seq<Token>)
    requires ScansAs(a, ta)
    requires if b == "" then tb == [] else Apart(b) && ScansAs(b, tb)
    ensures ScansAs(a + b, ta + tb)
  {
    hide ScansAs, Apart;
    if b == "" {
      assert a + b == a && ta + tb == ta;
    } else {
      ScansApart(a, ta, b, tb);
    }
  }

  lemma ScansWindow(limit: int, offset: int)
    requires limit >= 0 || offset > 0
    ensures Apart(WindowText(limit, offset)) && ScansAs(WindowText(limit, offset), WindowTokens(limit, offset))
  {
    hide ScansAs, NatText;
    assert " " + Spelling(LIMIT) + " " == " LIMIT " && " " + Spelling(OFFSET) + " " == " OFFSET ";
    if offset > 0 {
      ScansCount(OFFSET, offset);
      assert " " + Spelling(OFFSET) + (" " + NatText(offset)) == " OFFSET " + NatText(offset);
      assert "" + (" OFFSET " + NatText(offset)) == " OFFSET " + NatText(offset);
      assert [] + [Word(OFFSET), Number(offset)] == [Word(OFFSET), Number(offset)];
    }
    if limit >= 0 {
      ScansCount(LIMIT, limit);
      assert " " + Spelling(LIMIT) + (" " + NatText(limit)) == " LIMIT " + NatText(limit);
      ScansOptional(" LIMIT " + NatText(limit), [Word(LIMIT), Number(limit)],
                    if offset > 0 then " OFFSET " + NatText(offset) else "",
                    if offset > 0 then [Word(OFFSET), Number(offset)] else []);
    }
  }

  lemma ScansTail(verb: Verb, plan: Plan, text: string, tokens: seq<Token>)
    requires PlainNames(verb, plan) && ScansAs(text, tokens)
    ensures ScansAs(text + WhereText(plan.filters)
                    + (if verb.Select? then OrderText(plan.orders) + WindowText(plan.limit, plan.offset) else ""),
                    tokens + WhereTokens(plan.filters)
                    + (if verb.Select? then OrderTokens(plan.orders) + WindowTokens(plan.limit, plan.offset) else []))
  {
    hide ScansAs, Join, JoinTokens, NatText, FilterTexts, SortTexts, ClassOf;
    assert Apart(" WHERE ") && Apart(" ORDER BY ") by {
      BlankIsApart("WHERE ");
      BlankIsApart("ORDER BY ");
    }
    var where, order := WhereText(plan.filters), OrderText(plan.orders);
    var window := WindowText(plan.limit, plan.offset);
    if plan.filters != [] {
      ScansWhere(plan.filters);
    }
    ScansOptional(text, tokens, where, WhereTokens(plan.filters));
    if verb.Select? {
      if plan.orders != [] {
        ScansOrder(plan.orders);
      }
      ScansOptional(text + where, tokens + WhereTokens(plan.filters), order, OrderTokens(plan.orders));
      if window != "" {
        ScansWindow(plan.limit, plan.offset);
      }
      ScansOptional(text + where + order, tokens + WhereTokens(plan.filters) + OrderTokens(plan.orders),
                    window, WindowTokens(plan.limit, plan.offset));
      assert text + where + order + window == text + where + (order + window);
      assert tokens + WhereTokens(plan.filters) + OrderTokens(plan.orders) + WindowTokens(plan.limit, plan.offset)
          == tokens + WhereTokens(plan.filters) + (OrderTokens(plan.orders) + WindowTokens(plan.limit, plan.offset));
    } else {
      assert text + where + "" == text + where;
      assert tokens + WhereTokens(plan.filters) + [] == tokens + WhereTokens(plan.filters);
    }
  }

  lemma ScansStatement(verb: Verb, plan: Plan)
    requires PlainNames(verb, plan)
    ensures Scan(StatementText(verb, plan)) == Some(StatementTokens(verb, plan))
  {
    hide ScansAs, WhereText, OrderText, WindowText, WhereTokens, OrderTokens, WindowTokens, HeadText, HeadTokens;
    var head := HeadText(verb)[..|HeadText(verb)| - 1];
    ScansHead(verb);
    ScansName(plan.table);
    ScansAfterBlank(Quote(plan.table), [Name(plan.table)]);
    BlankIsApart(Quote(plan.table));
    ScansApart(head, HeadTokens(verb), " " + Quote(plan.table), [Name(plan.table)]);
    assert head + (" " + Quote(plan.table)) == HeadText(verb) + Quote(plan.table);
    ScansTail(verb, plan, HeadText(verb) + Quote(plan.table), HeadTokens(verb) + [Name(plan.table)]);
    ScansWhole(StatementText(verb, plan), StatementTokens(verb, plan));
  }

  // ---------------------------------------------------------------- parsing the tokens

  function Effectives(filters: seq<Filter>): (r: seq<Condition>)
    ensures |r| == |filters|
    ensures forall i | 0 <= i < |r| :: r[i] == Condition(filters[i].column, Effective(filters[i].op))
  {
    Map((filter: Filter) => Condition(filter.column, Effective(filter.op)), filters)
  }

  /** The statement that the compiled text is read as. */
  function Actual(verb: Verb, plan: Plan): Statement {
    Intended(verb, plan).(conditions := Effectives(plan.filters))
  }

  lemma ParsesTest(filter: Filter, rest: seq<Token>)
    ensures var ts := FilterTokens(filter) + rest;
            ts != [] && ts[0] == Name(filter.column)
            && ParseTest(ts[1..]) == if filter.op == In then None else Some((Effective(filter.op), rest))
  {
    var ts := (FilterTokens(filter) + rest)[1..];
    match filter.op {
      case IsNull =>
        assert ts == [Word(IS), Word(NULL)] + rest && ts[2..] == rest;
        assert ts[0] == Word(IS) && ts[1] == Word(NULL);
      case IsNotNull =>
        assert ts == [Word(IS), Word(NOT), Word(NULL)] + rest && ts[3..] == rest;
        assert ts[0] == Word(IS) && ts[1] == Word(NOT) && ts[2] == Word(NULL);
      case In => assert ts == [Word(IN), Placeholder] + rest && ts[0] == Word(IN) && ts[1] == Placeholder;
      case op =>
        assert ts == [Comparison(Effective(op)), Placeholder] + rest && ts[2..] == rest;
        assert ts[0] == Comparison(Effective(op)) && ts[1] == Placeholder;
    }
  }

  lemma {:induction false} ParsesConditions(filters: seq<Filter>, rest: seq<Token>)
    requires filters != [] && !Starts(rest, [Word(AND)])
    ensures ParseConditions(JoinTokens(Map(FilterTokens, filters), Word(AND)) + rest)
            == if NoIn(filters) then Some((Effectives(filters), rest)) else None
  {
    hide ParseTest, FilterTokens, Effective;
    var first, groups := filters[0], Map(FilterTokens, filters);
    var ts := JoinTokens(groups, Word(AND)) + rest;
    if |filters| == 1 {
      assert ts == FilterTokens(first) + rest;
      ParsesTest(first, rest);
      assert Effectives(filters) == [Condition(first.column, Effective(first.op))];
      assert NoIn(filters) <==> first.op != In;
    } else {
      var others := JoinTokens(groups[1..], Word(AND)) + rest;
      assert ts == FilterTokens(first) + ([Word(AND)] + others);
      ParsesTest(first, [Word(AND)] + others);
      assert ([Word(AND)] + others)[1..] == others;
      assert groups[1..] == Map(FilterTokens, filters[1..]);
      ParsesConditions(filters[1..], rest);
      assert Effectives(filters) == [Condition(first.column, Effective(first.op))] + Effectives(filters[1..]);
      assert NoIn(filters) <==> first.op != In && NoIn(filters[1..]) by {
        assert filters == [first] + filters[1..];
      }
    }
  }

  lemma {:induction false} ParsesSorts(orders: seq<Sort>, rest: seq<Token>)
    requires orders != [] && !Starts(rest, [Comma])
    ensures ParseSorts(JoinTokens(Map(SortTokens, orders), Comma) + rest) == Some((orders, rest))
  {
    var first, groups := orders[0], Map(SortTokens, orders);
    var ts := JoinTokens(groups, Comma) + rest;
    if |orders| == 1 {
      assert ts == SortTokens(first) + rest && ts[2..] == rest;
      assert orders == [first];
    } else {
      var others := JoinTokens(groups[1..], Comma) + rest;
      assert ts == SortTokens(first) + ([Comma] + others);
      assert ts[2..] == [Comma] + others && ts[3..] == others;
      assert groups[1..] == Map(SortTokens, orders[1..]);
      ParsesSorts(orders[1..], rest);
      assert orders == [first] + orders[1..];
    }
  }

  lemma ParsesWhere(filters: seq<Filter>, rest: seq<Token>)
    requires !Starts(rest, [Word(AND)]) && !Starts(rest, [Word(WHERE)])
    ensures ParseWhere(WhereTokens(filters) + rest)
            == if NoIn(filters) then Some((Effectives(filters), rest)) else None
  {
    hide ParseConditions, JoinTokens;
    if filters == [] {
      assert WhereTokens(filters) + rest == rest;
    } else {
      var joined := JoinTokens(Map(FilterTokens, filters), Word(AND)) + rest;
      assert WhereTokens(filters) + rest == [Word(WHERE)] + joined;
      assert ([Word(WHERE)] + joined)[1..] == joined;
      ParsesConditions(filters, rest);
    }
  }

  lemma ParsesOrderBy(orders: seq<Sort>, rest: seq<Token>)
    requires !Starts(rest, [Comma]) && !Starts(rest, [Word(ORDER), Word(BY)])
    ensures ParseOrderBy(OrderTokens(orders) + rest) == Some((orders, rest))
  {
    hide ParseSorts, JoinTokens;
    if orders == [] {
      assert OrderTokens(orders) + rest == rest;
    } else {
      var joined := JoinTokens(Map(SortTokens, orders), Comma) + rest;
      assert OrderTokens(orders) + rest == [Word(ORDER), Word(BY)] + joined;
      assert ([Word(ORDER), Word(BY)] + joined)[2..] == joined;
      ParsesSorts(orders, rest);
    }
  }

  lemma ParsesWindow(limit: int, offset: int, bareOffset: bool)
    ensures ParseWindow(WindowTokens(limit, offset), bareOffset)
            == if offset <= 0 || limit >= 0 || bareOffset
               then Some((if limit >= 0 then Some(limit as nat) else None, if offset > 0 then offset else 0))
               else None
  {
  }

  /** What follows WHERE can be told from it. */
  lemma TailStarts(orders: seq<Sort>, limit: int, offset: int)
    ensures var window := WindowTokens(limit, offset);
            !Starts(window, [Comma]) && !Starts(window, [Word(ORDER), Word(BY)])
    ensures forall window | window == WindowTokens(limit, offset) || window == [] ::
              var order := OrderTokens(orders) + window;
              !Starts(order, [Word(AND)]) && !Starts(order, [Word(WHERE)])
  {
    var tokens := WindowTokens(limit, offset);
    assert tokens == [] || tokens[0] == Word(LIMIT) || tokens[0] == Word(OFFSET);
    forall window | window == tokens || window == []
      ensures var order := OrderTokens(orders) + window;
              !Starts(order, [Word(AND)]) && !Starts(order, [Word(WHERE)])
    {
      var order := OrderTokens(orders) + window;
      assert order == [] || order[0] in {Word(ORDER), Word(LIMIT), Word(OFFSET)};
    }
  }

  lemma ParsesStatement(verb: Verb, plan: Plan, bareOffset: bool)
    ensures Parse(StatementTokens(verb, plan), bareOffset)
            == if NoIn(plan.filters) && (verb.Select? ==> plan.offset <= 0 || plan.limit >= 0 || bareOffset)
               then Some(Actual(verb, plan))
               else None
  {
    hide ParseVerb, ParseWhere, ParseOrderBy, ParseWindow, WhereTokens, OrderTokens, WindowTokens, HeadTokens, Effectives, Starts;
    var window := if verb.Select? then WindowTokens(plan.limit, plan.offset) else [];
    var orders := if verb.Select? then plan.orders else [];
    var order := OrderTokens(orders) + window;
    var where := WhereTokens(plan.filters) + order;
    StatementGroups(verb, plan);
    ParsesVerb(verb, [Name(plan.table)] + where);
    assert ([Name(plan.table)] + where)[1..] == where;
    TailStarts(orders, plan.limit, plan.offset);
    TailStarts(orders, -1, 0);
    ParsesWhere(plan.filters, order);
    NoWindow();
    ParsesOrderBy(orders, window);
    ParsesWindow(plan.limit, plan.offset, bareOffset);
    ParsesWindow(-1, 0, bareOffset);
  }

  lemma NoWindow()
    ensures WindowTokens(-1, 0) == []
  {
  }

  lemma StatementGroups(verb: Verb, plan: Plan)
    ensures var window := if verb.Select? then WindowTokens(plan.limit, plan.offset) else [];
            var orders := if verb.Select? then plan.orders else [];
            StatementTokens(verb, plan)
            == HeadTokens(verb) + ([Name(plan.table)] + (WhereTokens(plan.filters) + (OrderTokens(orders) + window)))
  {
    hide WhereTokens, WindowTokens, HeadTokens;
  }

  lemma ParsesVerb(verb: Verb, rest: seq<Token>)
    ensures ParseVerb(HeadTokens(verb) + rest) == Some((verb, rest))
  {
    var ts := HeadTokens(verb) + rest;
    assert ts[|HeadTokens(verb)|..] == rest;
    assert ts[1] == HeadTokens(verb)[1];
  }

  // ---------------------------------------------------------------- which tokens there are

  lemma TakesBoth(db: Database, a: seq<Token>, b: seq<Token>)
    ensures TakesAll(db, a + b) <==> TakesAll(db, a) && TakesAll(db, b)
  {
    hide Takes;
    assert forall i | 0 <= i < |a| :: (a + b)[i] == a[i];
    assert forall i | 0 <= i < |b| :: (a + b)[|a| + i] == b[i];
  }

  lemma {:induction false} TakesJoin(db: Database, groups: seq<seq<Token>>, mark: Token)
    requires Takes(db, mark)
    ensures TakesAll(db, JoinTokens(groups, mark)) <==> forall i | 0 <= i < |groups| :: TakesAll(db, groups[i])
  {
    hide Takes, TakesAll;
    if groups == [] {
      TakesNothing(db);
    } else {
      var rest := JoinTokens(groups[1..], mark);
      TakesJoin(db, groups[1..], mark);
      TakesBoth(db, [mark], rest);
      TakesOne(db, mark);
      TakesBoth(db, groups[0], if |groups| == 1 then [] else [mark] + rest);
      TakesNothing(db);
      assert groups == [groups[0]] + groups[1..];
    }
  }

  lemma TakesNothing(db: Database)
    ensures TakesAll(db, [])
  {
  }

  lemma TakesOne(db: Database, t: Token)
    ensures TakesAll(db, [t]) <==> Takes(db, t)
  {
    assert [t][0] == t;
  }

  lemma TakesFilter(db: Database, filter: Filter)
    ensures TakesAll(db, FilterTokens(filter))
            <==> (db.emptyNames || filter.column != "") && (db.questionMarks || !TakesValue(filter.op))
  {
    hide TakesAll;
    var placeholder := if TakesValue(filter.op) then [Placeholder] else [];
    TakesOne(db, Name(filter.column));
    TakesOne(db, Placeholder);
    TakesNothing(db);
    TakesOperator(db, filter.op);
    TakesBoth(db, [Name(filter.column)], OperatorTokens(filter.op));
    TakesBoth(db, [Name(filter.column)] + OperatorTokens(filter.op), placeholder);
  }

  lemma TakesOperator(db: Database, op: Compare)
    ensures TakesAll(db, OperatorTokens(op))
  {
  }

  lemma TakesWhere(db: Database, filters: seq<Filter>)
    ensures TakesAll(db, WhereTokens(filters))
            <==> (db.questionMarks || NoValues(filters))
                 && (db.emptyNames || forall i | 0 <= i < |filters| :: filters[i].column != "")
  {
    hide TakesAll, FilterTokens, JoinTokens, TakesValue;
    var groups := Map(FilterTokens, filters);
    TakesNothing(db);
    TakesJoin(db, groups, Word(AND));
    TakesOne(db, Word(WHERE));
    TakesBoth(db, [Word(WHERE)], JoinTokens(groups, Word(AND)));
    forall i | 0 <= i < |filters|
      ensures TakesAll(db, groups[i])
              <==> (db.emptyNames || filters[i].column != "") && (db.questionMarks || !TakesValue(filters[i].op))
    {
      TakesFilter(db, filters[i]);
    }
  }

  lemma TakesOrder(db: Database, orders: seq<Sort>)
    ensures TakesAll(db, OrderTokens(orders)) <==> db.emptyNames || forall i | 0 <= i < |orders| :: orders[i].column != ""
  {
    hide TakesAll, JoinTokens;
    var groups := Map(SortTokens, orders);
    TakesNothing(db);
    TakesJoin(db, groups, Comma);
    TakesBoth(db, [Word(ORDER)], [Word(BY)]);
    TakesOne(db, Word(ORDER));
    TakesOne(db, Word(BY));
    assert [Word(ORDER)] + [Word(BY)] == [Word(ORDER), Word(BY)];
    TakesBoth(db, [Word(ORDER), Word(BY)], JoinTokens(groups, Comma));
    forall i | 0 <= i < |orders| ensures TakesAll(db, groups[i]) <==> db.emptyNames || orders[i].column != "" {
      var direction := Word(if orders[i].descending then DESC else ASC);
      TakesOne(db, Name(orders[i].column));
      TakesOne(db, direction);
      TakesBoth(db, [Name(orders[i].column)], [direction]);
      assert groups[i] == [Name(orders[i].column)] + [direction];
    }
  }

  lemma TakesRest(db: Database, verb: Verb, limit: int, offset: int)
    ensures TakesAll(db, HeadTokens(verb)) && TakesAll(db, WindowTokens(limit, offset))
  {
  }

  /** A database has every token of the text if and only if it has what the plan needs. */
  lemma TakesStatement(db: Database, verb: Verb, plan: Plan)
    ensures TakesAll(db, StatementTokens(verb, plan))
            <==> (db.questionMarks || NoValues(plan.filters)) && (db.emptyNames || NoEmptyName(verb, plan))
  {
    hide TakesAll, WhereTokens, OrderTokens, WindowTokens, HeadTokens, NoValues;
    var orders := if verb.Select? then plan.orders else [];
    var window := if verb.Select? then WindowTokens(plan.limit, plan.offset) else [];
    var tail := OrderTokens(orders) + window;
    StatementGroups(verb, plan);
    TakesRest(db, verb, plan.limit, plan.offset);
    TakesNothing(db);
    TakesOrder(db, orders);
    TakesBoth(db, OrderTokens(orders), window);
    TakesWhere(db, plan.filters);
    TakesBoth(db, WhereTokens(plan.filters), tail);
    TakesOne(db, Name(plan.table));
    TakesBoth(db, [Name(plan.table)], WhereTokens(plan.filters) + tail);
    TakesBoth(db, HeadTokens(verb), [Name(plan.table)] + (WhereTokens(plan.filters) + tail));
  }

  // ---------------------------------------------------------------- when the text says what was meant

  /** With quote-free names the text is refused, or read as the plan with unlisted operators made "=". */
  lemma ReadsAs(verb: Verb, plan: Plan, db: Database)
    requires PlainNames(verb, plan)
    ensures Read(StatementText(verb, plan), db)
            == if Readable(verb, plan, db) then Some(Actual(verb, plan)) else None
  {
    hide Scan, Parse, StatementText, StatementTokens, Actual, TakesAll, NoIn, NoValues, NoEmptyName;
    ScansStatement(verb, plan);
    TakesStatement(db, verb, plan);
    ParsesStatement(verb, plan, db.bareOffset);
  }

  function FilterNameQuotes(filters: seq<Filter>): nat {
    if filters == [] then 0 else Quoting.Count(filters[0].column, '"') + FilterNameQuotes(filters[1..])
  }

  function SortNameQuotes(orders: seq<Sort>): nat {
    if orders == [] then 0 else Quoting.Count(orders[0].column, '"') + SortNameQuotes(orders[1..])
  }

  lemma QuotesOfName(name: string, rest: string)
    requires Quoting.Count(rest, '"') == 0
    ensures Quoting.Count(Quote(name) + rest, '"') + Quoting.Count(name, '"') == NameQuotes(name)
  {
    CountAppend("\"" + name, "\"", '"');
    CountAppend("\"", name, '"');
    CountAppend(Quote(name), rest, '"');
    assert Quoting.Count("\"", '"') == 1;
  }

  lemma NoQuotes(s: string)
    requires '"' !in s
    ensures Quoting.Count(s, '"') == 0
  {
    CountZero(s, '"');
  }

  lemma QuotesOfFilter(filter: Filter)
    ensures Quoting.Count(FilterText(filter), '"') + Quoting.Count(filter.column, '"') == NameQuotes(filter.column)
  {
    var rest := " " + OperatorText(filter.op) + (if TakesValue(filter.op) then " ?" else "");
    NoQuotes(rest);
    QuotesOfName(filter.column, rest);
    assert FilterText(filter) == Quote(filter.column) + rest;
  }

  lemma {:induction false} QuotesOfFilters(filters: seq<Filter>)
    ensures Quoting.Count(Join(FilterTexts(filters), " AND "), '"') + FilterNameQuotes(filters)
            == ConditionQuotes(Conditions(filters))
  {
    hide FilterText, NameQuotes;
    if filters != [] {
      var first, rest := FilterText(filters[0]), Join(FilterTexts(filters[1..]), " AND ");
      QuotesOfFilter(filters[0]);
      QuotesOfFilters(filters[1..]);
      assert FilterTexts(filters)[1..] == FilterTexts(filters[1..]);
      assert Conditions(filters)[1..] == Conditions(filters[1..]);
      NoQuotes(" AND ");
      CountAppend(" AND ", rest, '"');
      CountAppend(first, if |filters| == 1 then "" else " AND " + rest, '"');
    }
  }

  lemma {:induction false} QuotesOfSorts(orders: seq<Sort>)
    ensures Quoting.Count(Join(SortTexts(orders), ", "), '"') + SortNameQuotes(orders) == SortQuotes(orders)
  {
    hide NameQuotes;
    if orders != [] {
      var first, rest := SortText(orders[0]), Join(SortTexts(orders[1..]), ", ");
      var direction := if orders[0].descending then " DESC" else " ASC";
      NoQuotes(direction);
      QuotesOfName(orders[0].column, direction);
      QuotesOfSorts(orders[1..]);
      assert SortTexts(orders)[1..] == SortTexts(orders[1..]);
      NoQuotes(", ");
      CountAppend(", ", rest, '"');
      CountAppend(first, if |orders| == 1 then "" else ", " + rest, '"');
    }
  }

  lemma QuotesOfWindow(limit: int, offset: int)
    ensures Quoting.Count(WindowText(limit, offset), '"') == 0
  {
    if limit >= 0 {
      NatTextIsDecimal(limit);
    }
    if offset > 0 {
      NatTextIsDecimal(offset);
    }
    NoQuotes(WindowText(limit, offset));
  }

  lemma QuotesOfWhere(filters: seq<Filter>)
    ensures Quoting.Count(WhereText(filters), '"') + FilterNameQuotes(filters) == ConditionQuotes(Conditions(filters))
  {
    hide Join;
    if filters != [] {
      NoQuotes(" WHERE ");
      CountAppend(" WHERE ", Join(FilterTexts(filters), " AND "), '"');
      QuotesOfFilters(filters);
    }
  }

  lemma QuotesOfOrder(orders: seq<Sort>)
    ensures Quoting.Count(OrderText(orders), '"') + SortNameQuotes(orders) == SortQuotes(orders)
  {
    hide Join;
    if orders != [] {
      NoQuotes(" ORDER BY ");
      CountAppend(" ORDER BY ", Join(SortTexts(orders), ", "), '"');
      QuotesOfSorts(orders);
    }
  }

  /** The text has one quote too few for every quote inside a name. */
  lemma QuotesOfStatement(verb: Verb, plan: Plan)
    ensures var orders := if verb.Select? then plan.orders else [];
            Quoting.Count(StatementText(verb, plan), '"')
            + Quoting.Count(plan.table, '"') + FilterNameQuotes(plan.filters) + SortNameQuotes(orders)
            == StatementQuotes(Intended(verb, plan))
  {
    hide WhereText, WindowText, NameQuotes, ConditionQuotes, SortQuotes, Quote, Quoting.Count, Join;
    var head, name, where := HeadText(verb), Quote(plan.table), WhereText(plan.filters);
    var order := if verb.Select? then OrderText(plan.orders) else "";
    var window := if verb.Select? then WindowText(plan.limit, plan.offset) else "";
    NoQuotes(head);
    NoQuotes("");
    QuotesOfName(plan.table, "");
    assert name + "" == name;
    QuotesOfWhere(plan.filters);
    QuotesOfOrder(if verb.Select? then plan.orders else []);
    QuotesOfWindow(plan.limit, plan.offset);
    CountAppend(head, name, '"');
    CountAppend(head + name, where, '"');
    CountAppend(head + name + where, order + window, '"');
    CountAppend(order, window, '"');
    assert StatementText(verb, plan) == head + name + where + (order + window);
  }

  lemma {:induction false} NoFilterNameQuotes(filters: seq<Filter>)
    requires FilterNameQuotes(filters) == 0
    ensures forall i | 0 <= i < |filters| :: Unquoted(filters[i].column)
  {
    if filters != [] {
      CountZero(filters[0].column, '"');
      NoFilterNameQuotes(filters[1..]);
      assert filters == [filters[0]] + filters[1..];
    }
  }

  lemma {:induction false} NoSortNameQuotes(orders: seq<Sort>)
    requires SortNameQuotes(orders) == 0
    ensures forall i | 0 <= i < |orders| :: Unquoted(orders[i].column)
  {
    if orders != [] {
      CountZero(orders[0].column, '"');
      NoSortNameQuotes(orders[1..]);
      assert orders == [orders[0]] + orders[1..];
    }
  }

  lemma UnreadQuotes(verb: Verb, plan: Plan, db: Database)
    requires Read(StatementText(verb, plan), db) == Some(Intended(verb, plan))
    ensures PlainNames(verb, plan)
  {
    hide Read, StatementText, StatementQuotes, Intended, FilterNameQuotes, SortNameQuotes, Unquoted;
    ReadKeepsQuotes(StatementText(verb, plan), db);
    QuotesOfStatement(verb, plan);
    CountZero(plan.table, '"');
    assert Unquoted(plan.table) by {
      TableUnquoted(plan.table);
    }
    NoFilterNameQuotes(plan.filters);
    if verb.Select? {
      NoSortNameQuotes(plan.orders);
    }
  }

  lemma TableUnquoted(name: string)
    requires Quoting.Count(name, '"') == 0
    ensures Unquoted(name)
  {
    CountZero(name, '"');
  }

  /**
   The compiled text says what the query asks for if and only if no name has a quote in it, no
   filter uses IN or an operator that the compiler does not list, and whatever the database does
   not have is not needed: OFFSET without LIMIT, a placeholder for the value of a filter, or an
   empty name.
   */
  lemma SaysWhatIsMeant(verb: Verb, plan: Plan, db: Database)
    ensures Read(StatementText(verb, plan), db) == Some(Intended(verb, plan))
            <==> Expressible(verb, plan, db)
  {
    hide Read, StatementText, PlainNames, Readable;
    if Read(StatementText(verb, plan), db) == Some(Intended(verb, plan)) {
      UnreadQuotes(verb, plan, db);
    }
    if PlainNames(verb, plan) {
      ReadsAs(verb, plan, db);
      if Readable(verb, plan, db) {
        SameConditions(plan.filters);
      }
    }
  }

  lemma SameConditions(filters: seq<Filter>)
    ensures Effectives(filters) == Conditions(filters) <==> AllListed(filters)
  {
    if Effectives(filters) == Conditions(filters) {
      forall i | 0 <= i < |filters| ensures Effective(filters[i].op) == filters[i].op {
        assert Effectives(filters)[i] == Conditions(filters)[i];
      }
    }
  }

  /**
   What is filtered last is tested last: whichever statement is built, if a database reads it, its last
   condition is on the column that the property is mapped to, or on the property's own name, with the
   operator that it is read as, and its value is the last parameter.
   */
  lemma LastFilterIsRead(verb: Verb, plan: Plan, mapper: Mapper, property: string, op: Compare, value: Option<Value>,
                         db: Database)
    ensures var column := if property in mapper.columns then mapper.columns[property] else property;
            var more := plan.(filters := plan.filters + [Filter(column, op, value)]);
            PlainNames(verb, more) && Readable(verb, more, db) ==>
              var statement := Read(StatementText(verb, more), db);
              && statement.Some? && |statement.value.conditions| == |plan.filters| + 1
              && statement.value.conditions[|plan.filters|] == Condition(column, if op in {ILike, NotIn, Between} then Eq else op)
              && (TakesValue(op) ==>
                    Parameters(more.filters)
                    == Parameters(plan.filters) + [if value.Some? then value.value else Null])
  {
    hide Read, StatementText, PlainNames, Readable;
    var column := if property in mapper.columns then mapper.columns[property] else property;
    var more := plan.(filters := plan.filters + [Filter(column, op, value)]);
    assert more.filters[..|plan.filters|] == plan.filters;
    if PlainNames(verb, more) && Readable(verb, more, db) {
      ReadsAs(verb, more, db);
    }
  }

  /** And what is ordered by last is sorted by last. */
  lemma LastOrderIsRead(plan: Plan, mapper: Mapper, property: string, descending: bool, db: Database)
    ensures var column := if property in mapper.columns then mapper.columns[property] else property;
            var more := plan.(orders := plan.orders + [Sort(column, descending)]);
            PlainNames(Select, more) && Readable(Select, more, db) ==>
              var statement := Read(StatementText(Select, more), db);
              && statement.Some? && |statement.value.orders| == |plan.orders| + 1
              && statement.value.orders[|plan.orders|] == Sort(column, descending)
  {
    hide Read, StatementText, PlainNames, Readable;
    var column := if property in mapper.columns then mapper.columns[property] else property;
    var more := plan.(orders := plan.orders + [Sort(column, descending)]);
    if PlainNames(Select, more) && Readable(Select, more, db) {
      ReadsAs(Select, more, db);
    }
  }

  /** SELECT of the rows of one table that have one value in one column. */
  const BY_ID := Plan("users", [Filter("id", Eq, Some(Integer(1)))], [], -1, 0)

  /** SQLite reads it as it is meant; PostgreSQL, which numbers its placeholders, refuses it. */
  lemma PostgresRefusesQuestionMarks()
    ensures Read(StatementText(Select, BY_ID), SQLITE) == Some(Intended(Select, BY_ID))
    ensures Read(StatementText(Select, BY_ID), POSTGRESQL) == None
  {
    hide Read, StatementText, Actual;
    assert TakesValue(BY_ID.filters[0].op);
    SaysWhatIsMeant(Select, BY_ID, SQLITE);
    ReadsAs(Select, BY_ID, POSTGRESQL);
  }
}
