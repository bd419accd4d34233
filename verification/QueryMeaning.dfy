/** What statements and queries mean on a table, and that compiling one to the other keeps it. */
module QueryMeaning {
  import opened Common
  import opened Values
  import opened SqlText
  import opened QueryCompiler

  type Record = map<string, Value>

  /** How a database compares values.  Nothing is asked of it: the results hold for any. */
  datatype Engine = Engine(compare: (Value, Value) -> int, like: (Value, Value) -> bool, ilike: (Value, Value) -> bool)

  datatype Truth = True | False | Unknown

  /** What a statement does: the rows it delivers, the number it delivers, or the rows it leaves. */
  datatype Outcome = Rows(rows: seq<Record>) | Total(n: nat) | Left(rows: seq<Record>)

  function Cell(row: Record, column: string): Value {
    if column in row then row[column] else Null
  }

  function TruthOf(b: bool): Truth {
    if b then True else False
  }

  function And(a: Truth, b: Truth): Truth {
    if a.False? || b.False? then False else if a.True? then b else Truth.Unknown
  }

  function Kept<T(!new)>(p: T -> bool, s: seq<T>): (r: seq<T>)
    ensures forall x :: x in r <==> x in s && p(x)
  {
    if s == [] then [] else (if p(s[0]) then [s[0]] else []) + Kept(p, s[1..])
  }

  function Drop<T>(s: seq<T>, n: nat): seq<T> {
    if n <= |s| then s[n..] else []
  }

  function Take<T>(s: seq<T>, n: nat): seq<T> {
    if n <= |s| then s[..n] else s
  }

  // ---------------------------------------------------------------- statements, as SQL has them

  function Placeholders(op: Compare): nat {
    match op
    case IsNull => 0
    case IsNotNull => 0
    case Between => 2
    case _ => 1
  }

  /** A comparison with NULL on either side is neither true nor false. */
  function Test(engine: Engine, op: Compare, cell: Value, args: seq<Value>): Truth
    requires |args| == Placeholders(op)
  {
    if op.IsNull? then TruthOf(cell.Null?)
    else if op.IsNotNull? then TruthOf(!cell.Null?)
    else if cell.Null? || Null in args then Truth.Unknown
    else
      match op
      case Eq => TruthOf(engine.compare(cell, args[0]) == 0)
      case Ne => TruthOf(engine.compare(cell, args[0]) != 0)
      case Lt => TruthOf(engine.compare(cell, args[0]) < 0)
      case Le => TruthOf(engine.compare(cell, args[0]) <= 0)
      case Gt => TruthOf(engine.compare(cell, args[0]) > 0)
      case Ge => TruthOf(engine.compare(cell, args[0]) >= 0)
      case Like => TruthOf(engine.like(cell, args[0]))
      case ILike => TruthOf(engine.ilike(cell, args[0]))
      case In => TruthOf(engine.compare(cell, args[0]) == 0)
      case NotIn => TruthOf(engine.compare(cell, args[0]) != 0)
      case Between => TruthOf(engine.compare(args[0], cell) <= 0 && engine.compare(cell, args[1]) <= 0)
  }

  function Arity(conditions: seq<Condition>): nat {
    if conditions == [] then 0 else Placeholders(conditions[0].op) + Arity(conditions[1..])
  }

  /** The conjunction, its placeholders bound from left to right. */
  function Where(engine: Engine, conditions: seq<Condition>, args: seq<Value>, row: Record): Truth
    requires |args| == Arity(conditions)
  {
    if conditions == [] then True else
      var k := Placeholders(conditions[0].op);
      And(Test(engine, conditions[0].op, Cell(row, conditions[0].column), args[..k]),
          Where(engine, conditions[1..], args[k..], row))
  }

  /** No later row belongs before an earlier one, column by column. */
  predicate Before(engine: Engine, orders: seq<Sort>, a: Record, b: Record) {
    orders != [] &&
    var c := engine.compare(Cell(a, orders[0].column), Cell(b, orders[0].column));
    (if orders[0].descending then c > 0 else c < 0) || (c == 0 && Before(engine, orders[1..], a, b))
  }

  predicate Sorted(engine: Engine, orders: seq<Sort>, rows: seq<Record>) {
    forall i, j | 0 <= i < j < |rows| :: !Before(engine, orders, rows[j], rows[i])
  }

  /** Rows in an order that the statement asks for; rows that tie may come in any order. */
  ghost predicate Arranged(engine: Engine, orders: seq<Sort>, chosen: seq<Record>, rows: seq<Record>) {
    multiset(rows) == multiset(chosen) && Sorted(engine, orders, rows)
  }

  ghost predicate Delivers(engine: Engine, orders: seq<Sort>, limit: Option<nat>, offset: nat, chosen: seq<Record>, rows: seq<Record>) {
    exists all ::
      Arranged(engine, orders, chosen, all)
      && rows == if limit.Some? then Take(Drop(all, offset), limit.value) else Drop(all, offset)
  }

  /** Executing a statement with parameters on a table may have this outcome. */
  ghost predicate Executes(engine: Engine, s: Statement, args: seq<Value>, table: seq<Record>, outcome: Outcome) {
    |args| == Arity(s.conditions)
    && var chosen := Kept(row => Where(engine, s.conditions, args, row).True?, table);
       match s.verb
       case Select => outcome.Rows? && Delivers(engine, s.orders, s.limit, s.offset, chosen, outcome.rows)
       case Count => outcome == Total(|chosen|)
       case Delete => outcome == Left(Kept(row => !Where(engine, s.conditions, args, row).True?, table))
  }

  // ---------------------------------------------------------------- queries, as a caller has them

  /** What the operators are documented to test, of the one value that a filter has. */
  predicate Relates(engine: Engine, op: Compare, cell: Value, value: Value)
    requires TakesValue(op)
  {
    match op
    case Eq => engine.compare(cell, value) == 0
    case Ne => engine.compare(cell, value) != 0
    case Lt => engine.compare(cell, value) < 0
    case Le => engine.compare(cell, value) <= 0
    case Gt => engine.compare(cell, value) > 0
    case Ge => engine.compare(cell, value) >= 0
    case Like => engine.like(cell, value)
    case ILike => engine.ilike(cell, value)
    case In => engine.compare(cell, value) == 0
    case NotIn => engine.compare(cell, value) != 0
    case Between => engine.compare(value, cell) <= 0 && engine.compare(cell, value) <= 0
  }

  /** One filter, with one value; a NULL is never equal to, or less than, anything. */
  predicate Holds(engine: Engine, filter: Filter, row: Record) {
    var cell := Cell(row, filter.column);
    if filter.op == IsNull then cell == Null
    else if filter.op == IsNotNull then cell != Null
    else
      && cell != Null && filter.value.Some? && filter.value.value != Null
      && Relates(engine, filter.op, cell, filter.value.value)
  }

  predicate Matches(engine: Engine, filters: seq<Filter>, row: Record) {
    forall i | 0 <= i < |filters| :: Holds(engine, filters[i], row)
  }

  function Matching(engine: Engine, plan: Plan, table: seq<Record>): seq<Record> {
    Kept(row => Matches(engine, plan.filters, row), table)
  }

  /** What all(), count() and delete() owe their caller. */
  ghost predicate Answers(engine: Engine, verb: Verb, plan: Plan, table: seq<Record>, outcome: Outcome) {
    match verb
    case Select =>
      outcome.Rows?
      && Delivers(engine, plan.orders, if plan.limit >= 0 then Some(plan.limit as nat) else None,
                  if plan.offset > 0 then plan.offset else 0, Matching(engine, plan, table), outcome.rows)
    case Count => outcome == Total(|Matching(engine, plan, table)|)
    case Delete => outcome == Left(Kept(row => !Matches(engine, plan.filters, row), table))
  }

  // ---------------------------------------------------------------- compiling keeps the meaning

  function ParameterOf(filter: Filter): seq<Value> {
    if TakesValue(filter.op) then [if filter.value.Some? then filter.value.value else Null] else []
  }

  lemma {:induction false} ParametersFront(filters: seq<Filter>)
    requires filters != []
    ensures Parameters(filters) == ParameterOf(filters[0]) + Parameters(filters[1..])
  {
    hide ParameterOf, Parameters;
    var n := |filters| - 1;
    ParametersBack(filters);
    if n == 0 {
      assert filters[..0] == [] && filters[1..] == [];
      NoParameters();
    } else {
      ParametersFront(filters[..n]);
      assert filters[..n][1..] == filters[1..][..n - 1] && filters[1..][n - 1] == filters[n];
      ParametersBack(filters[1..]);
    }
  }

  lemma ParametersBack(filters: seq<Filter>)
    requires filters != []
    ensures var n := |filters| - 1; Parameters(filters) == Parameters(filters[..n]) + ParameterOf(filters[n])
  {
  }

  /** The filter with the operator that its compiled comparison is read as. */
  function EffectiveFilter(filter: Filter): Filter {
    filter.(op := Effective(filter.op))
  }

  function EffectiveFilters(filters: seq<Filter>): (r: seq<Filter>)
    ensures |r| == |filters| && forall i | 0 <= i < |r| :: r[i] == EffectiveFilter(filters[i])
  {
    Map(EffectiveFilter, filters)
  }

  function EffectivePlan(plan: Plan): Plan {
    plan.(filters := EffectiveFilters(plan.filters))
  }

  lemma ListedIsEffective(plan: Plan)
    requires AllListed(plan.filters)
    ensures EffectivePlan(plan) == plan
  {
    assert EffectiveFilters(plan.filters) == plan.filters;
  }

  lemma EffectiveTest(engine: Engine, filter: Filter, row: Record)
    ensures |ParameterOf(filter)| == Placeholders(Effective(filter.op))
    ensures Test(engine, Effective(filter.op), Cell(row, filter.column), ParameterOf(filter)).True?
            <==> Holds(engine, EffectiveFilter(filter), row)
  {
  }

  /** With its placeholders bound by position, WHERE is true of a row exactly when the filters it is read as hold. */
  lemma {:induction false} WhereMeans(engine: Engine, filters: seq<Filter>, row: Record)
    ensures |Parameters(filters)| == Arity(Effectives(filters))
    ensures Where(engine, Effectives(filters), Parameters(filters), row).True?
            <==> Matches(engine, EffectiveFilters(filters), row)
  {
    hide Test, Holds, Parameters, ParameterOf, EffectiveFilter, Effective;
    if filters == [] {
      NoParameters();
    } else {
      var first, rest := EffectiveFilter(filters[0]), filters[1..];
      var k := Placeholders(Effective(filters[0].op));
      ParametersFront(filters);
      EffectiveTest(engine, filters[0], row);
      WhereMeans(engine, rest, row);
      assert Effectives(filters)[1..] == Effectives(rest);
      assert Parameters(filters)[..k] == ParameterOf(filters[0]) && Parameters(filters)[k..] == Parameters(rest);
      assert EffectiveFilters(filters) == [first] + EffectiveFilters(rest);
      MatchesFront(engine, first, EffectiveFilters(rest), row);
    }
  }

  lemma MatchesFront(engine: Engine, first: Filter, rest: seq<Filter>, row: Record)
    ensures Matches(engine, [first] + rest, row) <==> Holds(engine, first, row) && Matches(engine, rest, row)
  {
    hide Holds;
    var filters := [first] + rest;
    assert filters[0] == first;
    assert forall i | 0 <= i < |rest| :: rest[i] == filters[i + 1];
  }

  /**
   A filter means what it is compiled to, for every row and however a database compares values, if
   and only if the compiler lists its operator, or it has no value and so can never hold.
   */
  lemma OperatorKeepsMeaning(filter: Filter)
    ensures (forall engine, row :: Holds(engine, filter, row) == Holds(engine, EffectiveFilter(filter), row))
            <==> Effective(filter.op) == filter.op || filter.value.None? || filter.value.value.Null?
  {
    if Effective(filter.op) != filter.op && filter.value.Some? && !filter.value.value.Null? {
      var row: Record := map[filter.column := Boolean(true)];
      var order := if filter.op.Between? then -1 else 0;
      var engine := Engine((a, b) => order, (a, b) => false, (a, b) => false);
      assert Holds(engine, filter, row) != Holds(engine, EffectiveFilter(filter), row);
    }
  }

  lemma NoParameters()
    ensures Parameters([]) == []
  {
  }

  lemma {:induction false} KeptAlike<T(!new)>(p: T -> bool, q: T -> bool, s: seq<T>)
    requires forall x :: p(x) == q(x)
    ensures Kept(p, s) == Kept(q, s)
  {
    if s != [] {
      KeptAlike(p, q, s[1..]);
    }
  }

  /** Running what was compiled, with its parameters, is answering the query that it is read as. */
  lemma ExecutingAnswers(engine: Engine, verb: Verb, plan: Plan, table: seq<Record>, outcome: Outcome)
    ensures Executes(engine, Actual(verb, plan), Parameters(plan.filters), table, outcome)
            <==> Answers(engine, verb, EffectivePlan(plan), table, outcome)
  {
    hide Where, Delivers, Matches, Parameters, Effectives, Kept, EffectiveFilters;
    var args, conditions, filters := Parameters(plan.filters), Effectives(plan.filters), EffectiveFilters(plan.filters);
    WhereMeans(engine, plan.filters, map[]);
    forall row ensures Where(engine, conditions, args, row).True? <==> Matches(engine, filters, row) {
      WhereMeans(engine, plan.filters, row);
    }
    KeptAlike(row => Where(engine, conditions, args, row).True?, row => Matches(engine, filters, row), table);
    KeptAlike(row => !Where(engine, conditions, args, row).True?, row => !Matches(engine, filters, row), table);
  }

  /** What any query with quote-free names does: it is refused, or answered as the query that it is read as. */
  lemma CompiledMeaning(engine: Engine, verb: Verb, plan: Plan, db: Database, table: seq<Record>)
    requires PlainNames(verb, plan)
    ensures var statement := Read(StatementText(verb, plan), db);
            && (statement.Some? <==> Readable(verb, plan, db))
            && (statement.Some? ==>
                  forall outcome ::
                    Executes(engine, statement.value, Parameters(plan.filters), table, outcome)
                    <==> Answers(engine, verb, EffectivePlan(plan), table, outcome))
  {
    hide Read, Executes, Answers, Readable, StatementText, EffectivePlan;
    ReadsAs(verb, plan, db);
    forall outcome
      ensures Executes(engine, Actual(verb, plan), Parameters(plan.filters), table, outcome)
              <==> Answers(engine, verb, EffectivePlan(plan), table, outcome)
    {
      ExecutingAnswers(engine, verb, plan, table, outcome);
    }
  }

  /**
   Compiling keeps the meaning: with quote-free names and listed operators the text that the
   builder emits is refused by the database, or running it with the emitted parameters has exactly
   the outcomes that filtering, sorting, dropping and taking directly on the table have.
   */
  lemma CompilingKeepsMeaning(engine: Engine, verb: Verb, plan: Plan, db: Database, table: seq<Record>)
    requires PlainNames(verb, plan) && AllListed(plan.filters)
    ensures var statement := Read(StatementText(verb, plan), db);
            && (statement.Some? <==> Readable(verb, plan, db))
            && (statement.Some? ==>
                  forall outcome ::
                    Executes(engine, statement.value, Parameters(plan.filters), table, outcome)
                    <==> Answers(engine, verb, plan, table, outcome))
  {
    hide Read, Executes, Answers, Readable, StatementText, EffectivePlan, AllListed;
    CompiledMeaning(engine, verb, plan, db, table);
    ListedIsEffective(plan);
  }

  // ---------------------------------------------------------------- what callers may rely on

  /** How many rows come: the matches, less the offset, up to the limit; and only matching rows. */
  lemma RowsDelivered(engine: Engine, plan: Plan, table: seq<Record>, rows: seq<Record>)
    requires Answers(engine, Select, plan, table, Rows(rows))
    ensures var n := |Matching(engine, plan, table)| - if plan.offset > 0 then plan.offset else 0;
            |rows| == if plan.limit >= 0 && plan.limit < n then plan.limit else if n > 0 then n else 0
    ensures multiset(rows) <= multiset(Matching(engine, plan, table))
    ensures forall row | row in rows :: row in table && Matches(engine, plan.filters, row)
    ensures Sorted(engine, plan.orders, rows)
  {
    hide Sorted, Matches, Take, Drop, Kept;
    var chosen := Matching(engine, plan, table);
    var offset: nat := if plan.offset > 0 then plan.offset else 0;
    var limit := if plan.limit >= 0 then Some(plan.limit as nat) else None;
    var all :| Arranged(engine, plan.orders, chosen, all)
               && rows == if limit.Some? then Take(Drop(all, offset), limit.value) else Drop(all, offset);
    SameSize(all, chosen);
    WindowOf(engine, plan.orders, all, offset, limit);
    forall row | row in rows ensures row in chosen {
      assert row in multiset(rows);
    }
  }

  /** They are the rows from the offset on, of all the matches as sorted. */
  lemma RowsAreTheWindow(engine: Engine, plan: Plan, table: seq<Record>, rows: seq<Record>)
    requires Answers(engine, Select, plan, table, Rows(rows))
    ensures exists all ::
              && Arranged(engine, plan.orders, Matching(engine, plan, table), all)
              && var from := if plan.offset <= 0 then 0 else if plan.offset < |all| then plan.offset else |all|;
                 from + |rows| <= |all| && rows == all[from..from + |rows|]
  {
    hide Arranged, Matching, Take, Drop;
    var offset: nat := if plan.offset > 0 then plan.offset else 0;
    var limit := if plan.limit >= 0 then Some(plan.limit as nat) else None;
    var all :| Arranged(engine, plan.orders, Matching(engine, plan, table), all)
               && rows == if limit.Some? then Take(Drop(all, offset), limit.value) else Drop(all, offset);
    WindowIsSlice(all, offset, limit);
  }

  lemma WindowIsSlice<T>(all: seq<T>, offset: nat, limit: Option<nat>)
    ensures var rows := if limit.Some? then Take(Drop(all, offset), limit.value) else Drop(all, offset);
            var from := if offset < |all| then offset else |all|;
            from + |rows| <= |all| && rows == all[from..from + |rows|]
  {
  }

  /** Sorted by one column: no later row has a smaller cell in it, or none a greater one in descending order. */
  lemma SortedByOne(engine: Engine, sort: Sort, rows: seq<Record>)
    ensures Sorted(engine, [sort], rows)
            <==> forall i, j | 0 <= i < j < |rows| ::
                   var c := engine.compare(Cell(rows[j], sort.column), Cell(rows[i], sort.column));
                   if sort.descending then c <= 0 else c >= 0
  {
    var orders := [sort];
    assert orders[1..] == [];
    forall a, b
      ensures Before(engine, orders, a, b)
              <==> var c := engine.compare(Cell(a, sort.column), Cell(b, sort.column)); if sort.descending then c > 0 else c < 0
    {
      assert !Before(engine, orders[1..], a, b);
    }
  }

  lemma WindowOf(engine: Engine, orders: seq<Sort>, all: seq<Record>, offset: nat, limit: Option<nat>)
    requires Sorted(engine, orders, all)
    ensures var rows := if limit.Some? then Take(Drop(all, offset), limit.value) else Drop(all, offset);
            var n := |all| - offset;
            && |rows| == (if limit.Some? && limit.value < n then limit.value else if n > 0 then n else 0)
            && multiset(rows) <= multiset(all) && Sorted(engine, orders, rows)
  {
    hide Sorted;
    var tail := Drop(all, offset);
    PartOf(engine, orders, all, tail, offset);
    PartOf(engine, orders, tail, if limit.Some? then Take(tail, limit.value) else tail, 0);
  }

  lemma PartOf(engine: Engine, orders: seq<Sort>, s: seq<Record>, part: seq<Record>, from: nat)
    requires Sorted(engine, orders, s)
    requires (from >= |s| && part == []) || (from + |part| <= |s| && part == s[from..from + |part|])
    ensures multiset(part) <= multiset(s) && Sorted(engine, orders, part)
  {
    hide Before;
    SliceIsPart(s, part, from);
    forall i, j | 0 <= i < j < |part| ensures !Before(engine, orders, part[j], part[i]) {
      assert part[i] == s[from + i] && part[j] == s[from + j];
    }
  }

  lemma SliceIsPart<T>(s: seq<T>, part: seq<T>, from: nat)
    requires (from >= |s| && part == []) || (from + |part| <= |s| && part == s[from..from + |part|])
    ensures multiset(part) <= multiset(s)
  {
    if part != [] {
      assert s == s[..from] + part + s[from + |part|..];
    }
  }

  lemma SameSize<T>(a: seq<T>, b: seq<T>)
    requires multiset(a) == multiset(b)
    ensures |a| == |b|
  {
    assert |multiset(a)| == |a| && |multiset(b)| == |b|;
  }

  lemma CountAnswersRows(engine: Engine, plan: Plan, table: seq<Record>, rows: seq<Record>, n: nat)
    requires plan.limit < 0 && plan.offset <= 0
    requires Answers(engine, Select, plan, table, Rows(rows)) && Answers(engine, Count, plan, table, Total(n))
    ensures n == |rows|
  {
    RowsDelivered(engine, plan, table, rows);
  }

  lemma DeleteAnswersTheRest(engine: Engine, plan: Plan, table: seq<Record>, left: seq<Record>, rows: seq<Record>)
    requires Answers(engine, Delete, plan, table, Left(left))
    ensures multiset(table) == multiset(left) + multiset(Matching(engine, plan, table))
    ensures Answers(engine, Select, plan, left, Rows(rows)) <==> rows == []
  {
    hide Matches, Sorted;
    Splits(row => Matches(engine, plan.filters, row), row => !Matches(engine, plan.filters, row), table);
    var found := Matching(engine, plan, left);
    KeptNothing(row => Matches(engine, plan.filters, row), left);
    if Answers(engine, Select, plan, left, Rows(rows)) {
      RowsDelivered(engine, plan, left, rows);
      assert |rows| == 0;
    }
    NothingArranged(engine, plan.orders);
  }

  lemma {:induction false} KeptNothing<T(!new)>(p: T -> bool, s: seq<T>)
    requires forall i | 0 <= i < |s| :: !p(s[i])
    ensures Kept(p, s) == []
  {
    if s != [] {
      KeptNothing(p, s[1..]);
    }
  }

  lemma NothingArranged(engine: Engine, orders: seq<Sort>)
    ensures Arranged(engine, orders, [], [])
  {
  }

  lemma {:induction false} Splits<T(!new)>(p: T -> bool, q: T -> bool, s: seq<T>)
    requires forall x :: p(x) == !q(x)
    ensures multiset(s) == multiset(Kept(q, s)) + multiset(Kept(p, s))
  {
    if s != [] {
      Splits(p, q, s[1..]);
      assert s == [s[0]] + s[1..];
    }
  }

  lemma FirstAnswersAHead(engine: Engine, plan: Plan, table: seq<Record>, first: seq<Record>)
    requires Answers(engine, Select, plan.(limit := 1), table, Rows(first))
    ensures exists rows ::
              Answers(engine, Select, plan.(limit := -1), table, Rows(rows)) && first == if rows == [] then [] else [rows[0]]
  {
    hide Arranged;
    var chosen := Matching(engine, plan, table);
    var offset: nat := if plan.offset > 0 then plan.offset else 0;
    assert Matching(engine, plan.(limit := 1), table) == chosen;
    var all :| Arranged(engine, plan.orders, chosen, all) && first == Take(Drop(all, offset), 1);
    assert Answers(engine, Select, plan.(limit := -1), table, Rows(Drop(all, offset)));
  }

  // ---------------------------------------------------------------- the same, of the emitted text

  /** The text that a query is compiled to is read, and running it with the emitted parameters may have this outcome. */
  ghost predicate Runs(engine: Engine, verb: Verb, plan: Plan, db: Database, table: seq<Record>, outcome: Outcome) {
    var statement := Read(StatementText(verb, plan), db);
    statement.Some? && Executes(engine, statement.value, Parameters(plan.filters), table, outcome)
  }

  lemma RunningAnswers(engine: Engine, verb: Verb, plan: Plan, db: Database, table: seq<Record>, outcome: Outcome)
    requires PlainNames(verb, plan)
    ensures Runs(engine, verb, plan, db, table, outcome)
            <==> Readable(verb, plan, db) && Answers(engine, verb, EffectivePlan(plan), table, outcome)
  {
    hide Read, Executes, Answers, Readable, StatementText, EffectivePlan;
    CompiledMeaning(engine, verb, plan, db, table);
  }

  /** Without limit and offset, the number that the text of count() delivers is that of the rows that the text of all() delivers. */
  lemma CountIsRows(engine: Engine, plan: Plan, db: Database, table: seq<Record>, rows: seq<Record>, n: nat)
    requires PlainNames(Select, plan) && plan.limit < 0 && plan.offset <= 0
    requires Runs(engine, Select, plan, db, table, Rows(rows)) && Runs(engine, Count, plan, db, table, Total(n))
    ensures n == |rows|
  {
    hide Runs, Answers, Readable;
    RunningAnswers(engine, Select, plan, db, table, Rows(rows));
    RunningAnswers(engine, Count, plan, db, table, Total(n));
    CountAnswersRows(engine, EffectivePlan(plan), table, rows, n);
  }

  /** The text of delete() leaves exactly the rows that do not match, and nothing for the text of all() to find. */
  lemma DeleteLeavesTheRest(engine: Engine, plan: Plan, db: Database, table: seq<Record>, left: seq<Record>, rows: seq<Record>)
    requires PlainNames(Select, plan) && Readable(Select, plan, db)
    requires Runs(engine, Delete, plan, db, table, Left(left))
    ensures multiset(table) == multiset(left) + multiset(Matching(engine, EffectivePlan(plan), table))
    ensures Runs(engine, Select, plan, db, left, Rows(rows)) <==> rows == []
  {
    hide Runs, Answers, Readable, Matching;
    RunningAnswers(engine, Delete, plan, db, table, Left(left));
    RunningAnswers(engine, Select, plan, db, left, Rows(rows));
    DeleteAnswersTheRest(engine, EffectivePlan(plan), table, left, rows);
  }

  /**
   The text of first() delivers the head of what the text without a limit may deliver, where the
   database takes that; and of an unlimited answer in any case, even when the query's own limit is zero.
   */
  lemma FirstIsAHead(engine: Engine, plan: Plan, db: Database, table: seq<Record>, first: seq<Record>)
    requires PlainNames(Select, plan)
    requires Runs(engine, Select, plan.(limit := 1), db, table, Rows(first))
    ensures exists rows ::
              && Answers(engine, Select, EffectivePlan(plan).(limit := -1), table, Rows(rows))
              && (Readable(Select, plan.(limit := -1), db) ==> Runs(engine, Select, plan.(limit := -1), db, table, Rows(rows)))
              && first == if rows == [] then [] else [rows[0]]
  {
    hide Runs, Answers, Readable;
    var one, all := plan.(limit := 1), plan.(limit := -1);
    assert EffectivePlan(one) == EffectivePlan(plan).(limit := 1) && EffectivePlan(all) == EffectivePlan(plan).(limit := -1);
    RunningAnswers(engine, Select, one, db, table, Rows(first));
    FirstAnswersAHead(engine, EffectivePlan(plan), table, first);
    var rows :| Answers(engine, Select, EffectivePlan(plan).(limit := -1), table, Rows(rows))
                && first == if rows == [] then [] else [rows[0]];
    RunningAnswers(engine, Select, all, db, table, Rows(rows));
  }
}
