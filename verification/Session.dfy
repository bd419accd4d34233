/** The unit of work: pending, dirty, deleted and attached objects, and what flushing does to them. */
module Session {
  import opened Common
  import opened Values
  import IM = IdentityMap

  type Object = IM.Object

  datatype Mapper = Mapper(hasPrimaryKey: bool)

  /** The statements that a flush executes; only the successful ones are on record. */
  datatype Statement = Insert(item: Object) | Delete(item: Object)

  /** An INSERT, and the row id that the connection reports for it. */
  datatype Insertion = Insertion(item: Object, rowId: int64)

  datatype ObjectState = TRANSIENT | PENDING | PERSISTENT | DIRTY | DELETED

  /**
   A session.  `executed` is what its connection has done, and `asked` what its identity map has
   been asked to do.  There is no transaction: the code never assigns one.
   */
  datatype State = State(
    mappers: map<nat, Mapper>,
    pending: set<Object>,
    dirty: set<Object>,
    deleted: set<Object>,
    attached: set<Object>,
    closed: bool,
    executed: seq<Statement>,
    asked: seq<IM.Operation>)

  const OPENED := State(map[], {}, {}, {}, {}, false, [], [])

  // ---------------------------------------------------------------- what the operations do

  function Registered(s: State, gtype: nat, mapper: Mapper): State {
    if gtype in s.mappers then s else s.(mappers := s.mappers[gtype := mapper])
  }

  /** `mapper` is what the type's own description makes, if the type has none yet. */
  function Added(s: State, item: Object, mapper: Mapper): State {
    if s.closed then s else
      Registered(s, item.gtype, mapper).(pending := s.pending + {item}, attached := s.attached + {item})
  }

  function Deleted(s: State, item: Object): State {
    if s.closed then s
    else if item in s.pending then s.(pending := s.pending - {item}, attached := s.attached - {item})
    else s.(dirty := s.dirty - {item}, deleted := s.deleted + {item})
  }

  function Expunged(s: State, item: Object): State {
    s.(pending := s.pending - {item}, dirty := s.dirty - {item}, deleted := s.deleted - {item},
       attached := s.attached - {item}, asked := s.asked + [IM.RemoveObject(item)])
  }

  function RolledBack(s: State): State {
    s.(pending := {}, dirty := {}, deleted := {})
  }

  function Closed(s: State): State {
    if s.closed then s else RolledBack(s).(attached := {}, closed := true, asked := s.asked + [IM.Clear])
  }

  function StateOf(s: State, item: Object): ObjectState {
    if item in s.deleted then DELETED
    else if item in s.pending then PENDING
    else if item in s.dirty then DIRTY
    else if item in s.attached then PERSISTENT
    else TRANSIENT
  }

  // ---------------------------------------------------------------- what a flush does

  predicate Mapped(s: State, item: Object) {
    item.gtype in s.mappers
  }

  predicate Keyed(s: State, item: Object) {
    item.gtype in s.mappers && s.mappers[item.gtype].hasPrimaryKey
  }

  function Items(insertions: seq<Insertion>): (r: seq<Object>)
    ensures |r| == |insertions| && forall i | 0 <= i < |r| :: r[i] == insertions[i].item
  {
    Map((x: Insertion) => x.item, insertions)
  }

  function Elements<T>(s: seq<T>): set<T> {
    set x | x in s
  }

  predicate NoRepeats<T(==)>(s: seq<T>) {
    forall i, j | 0 <= i < j < |s| :: s[i] != s[j]
  }

  function Inserts(insertions: seq<Insertion>): seq<Statement> {
    if insertions == [] then [] else
      Inserts(insertions[..|insertions| - 1]) + [Insert(insertions[|insertions| - 1].item)]
  }

  /** An object whose type has a primary key is remembered under the row id it got. */
  function Remembered(s: State, insertions: seq<Insertion>): seq<IM.Operation> {
    if insertions == [] then [] else
      var last := insertions[|insertions| - 1];
      Remembered(s, insertions[..|insertions| - 1])
      + if Keyed(s, last.item) && last.rowId > 0 then
          [IM.Add(IM.Key(last.item.gtype, Integer(last.rowId)), last.item)]
        else []
  }

  /** Without a primary key there is nothing to execute, and the object is only forgotten. */
  function Deletes(s: State, removals: seq<Object>): seq<Statement> {
    if removals == [] then [] else
      var last := removals[|removals| - 1];
      Deletes(s, removals[..|removals| - 1]) + if Keyed(s, last) then [Delete(last)] else []
  }

  function Forgotten(s: State, removals: seq<Object>): seq<IM.Operation> {
    if removals == [] then [] else
      var last := removals[|removals| - 1];
      Forgotten(s, removals[..|removals| - 1]) + if Keyed(s, last) then [IM.RemoveObject(last)] else []
  }

  /** Some of the pending objects inserted, each once. */
  predicate InsertsOf(s: State, insertions: seq<Insertion>) {
    var items := Items(insertions);
    NoRepeats(items) && forall item | item in items :: item in s.pending && Mapped(s, item)
  }

  predicate RemovalsOf(s: State, removals: seq<Object>) {
    NoRepeats(removals) && forall item | item in removals :: item in s.deleted && Mapped(s, item)
  }

  /** What is left after these insertions and removals. */
  function After(s: State, insertions: seq<Insertion>, removals: seq<Object>): State {
    s.(pending := s.pending - Elements(Items(insertions)),
       deleted := s.deleted - Elements(removals),
       attached := s.attached - Elements(removals),
       executed := s.executed + Inserts(insertions) + Deletes(s, removals),
       asked := s.asked + Remembered(s, insertions) + Forgotten(s, removals))
  }

  predicate AllInserted(s: State, insertions: seq<Insertion>) {
    forall item | item in s.pending && Mapped(s, item) :: item in Items(insertions)
  }

  predicate AllRemoved(s: State, removals: seq<Object>) {
    forall item | item in s.deleted && Mapped(s, item) :: item in removals
  }

  /**
   A flush inserts pending objects one by one, and then deletes.  The first statement that fails
   ends it, and what was done before stays done.
   */
  ghost predicate FlushedBy(s: State, ok: bool, insertions: seq<Insertion>, removals: seq<Object>, t: State) {
    && InsertsOf(s, insertions) && RemovalsOf(s, removals)
    && (removals != [] ==> AllInserted(s, insertions))
    && (ok <==> AllInserted(s, insertions) && AllRemoved(s, removals))
    && t == if ok then After(s, insertions, removals).(dirty := {}) else After(s, insertions, removals)
  }

  ghost predicate Flushed(s: State, ok: bool, t: State) {
    if s.closed then !ok && t == s else
      exists insertions, removals :: FlushedBy(s, ok, insertions, removals, t)
  }

  // ---------------------------------------------------------------- the session object

  class Session {
    var mappers: map<nat, Mapper>
    var pending: set<Object>
    var dirty: set<Object>
    var deleted: set<Object>
    var attached: set<Object>
    var closed: bool
    // the connection and the identity map, as records of what was asked of them
    var executed: seq<Statement>
    var asked: seq<IM.Operation>

    function Contents(): State
      reads this
    {
      State(mappers, pending, dirty, deleted, attached, closed, executed, asked)
    }

    constructor ()
      ensures Contents() == OPENED
    {
      mappers, pending, dirty, deleted, attached := map[], {}, {}, {}, {};
      closed, executed, asked := false, [], [];
    }

    method Add(item: Object, mapper: Mapper)
      modifies this
      ensures Contents() == Added(old(Contents()), item, mapper)
    {
      if closed {
        return;
      }
      if item.gtype !in mappers {
        mappers := mappers[item.gtype := mapper];
      }
      pending := pending + {item};
      attached := attached + {item};
    }

    method Remove(item: Object)
      modifies this
      ensures Contents() == Deleted(old(Contents()), item)
    {
      if closed {
        return;
      }
      if item in pending {
        pending := pending - {item};
        attached := attached - {item};
        return;
      }
      dirty := dirty - {item};
      deleted := deleted + {item};
    }

    method Expunge(item: Object)
      modifies this
      ensures Contents() == Expunged(old(Contents()), item)
    {
      pending, dirty, deleted := pending - {item}, dirty - {item}, deleted - {item};
      attached := attached - {item};
      asked := asked + [IM.RemoveObject(item)];
    }

    method Rollback()
      modifies this
      ensures Contents() == RolledBack(old(Contents()))
    {
      pending, dirty, deleted := {}, {}, {};
    }

    method Close()
      modifies this
      ensures Contents() == Closed(old(Contents()))
    {
      if closed {
        return;
      }
      Rollback();
      asked := asked + [IM.Clear];
      attached := {};
      closed := true;
    }

    /** The connection may fail any statement, and then nothing has happened. */
    method Execute(statement: Statement) returns (ok: bool, rowId: int64)
      modifies this`executed
      ensures executed == old(executed) + if ok then [statement] else []
    {
      ok, rowId := *, *;
      if ok {
        executed := executed + [statement];
      }
    }

    method FlushInserts() returns (ok: bool, ghost insertions: seq<Insertion>)
      modifies this`pending, this`executed, this`asked
      ensures InsertsOf(old(Contents()), insertions)
      ensures ok <==> AllInserted(old(Contents()), insertions)
      ensures Contents() == After(old(Contents()), insertions, [])
    {
      hide InsertsOf, AllInserted, After;
      ghost var s := Contents();
      insertions := [];
      NothingDone(s);
      var todo := pending;
      while todo != {}
        invariant InsertsOf(s, insertions)
        invariant Contents() == After(s, insertions, [])
        invariant todo <= pending
        invariant forall item | item in pending - todo :: !Mapped(s, item)
        decreases |todo|
      {
        var item :| item in todo;
        todo := todo - {item};
        if item.gtype !in mappers {
          continue;
        }
        var rowId;
        ok, rowId := Execute(Insert(item));
        if !ok {
          StillToInsert(s, insertions, item);
          return;
        }
        if mappers[item.gtype].hasPrimaryKey && rowId > 0 {
          asked := asked + [IM.Add(IM.Key(item.gtype, Integer(rowId)), item)];
        }
        pending := pending - {item};
        OneMoreInsert(s, insertions, Insertion(item, rowId));
        insertions := insertions + [Insertion(item, rowId)];
      }
      NoneToInsert(s, insertions);
      ok := true;
    }

    method FlushDeletes() returns (ok: bool, ghost removals: seq<Object>)
      modifies this`deleted, this`attached, this`executed, this`asked
      ensures RemovalsOf(old(Contents()), removals)
      ensures ok <==> AllRemoved(old(Contents()), removals)
      ensures Contents() == After(old(Contents()), [], removals)
    {
      hide RemovalsOf, AllRemoved, After;
      ghost var s := Contents();
      removals := [];
      NothingDone(s);
      var todo := deleted;
      while todo != {}
        invariant RemovalsOf(s, removals)
        invariant Contents() == After(s, [], removals)
        invariant todo <= deleted
        invariant forall item | item in deleted - todo :: !Mapped(s, item)
        decreases |todo|
      {
        var item :| item in todo;
        todo := todo - {item};
        if item.gtype !in mappers {
          continue;
        }
        if mappers[item.gtype].hasPrimaryKey {
          var rowId;
          ok, rowId := Execute(Delete(item));
          if !ok {
            StillToRemove(s, removals, item);
            return;
          }
          asked := asked + [IM.RemoveObject(item)];
        }
        deleted := deleted - {item};
        attached := attached - {item};
        OneMoreRemoval(s, removals, item);
        removals := removals + [item];
      }
      NoneToRemove(s, removals);
      ok := true;
    }

    method Flush() returns (ok: bool)
      modifies this
      ensures Flushed(old(Contents()), ok, Contents())
    {
      hide InsertsOf, RemovalsOf, AllInserted, AllRemoved, After;
      if closed {
        return false;
      }
      ghost var s := Contents();
      ghost var insertions, removals;
      ok, insertions := FlushInserts();
      NothingDone(s);
      if !ok {
        assert FlushedBy(s, false, insertions, [], Contents());
        return;
      }
      InsertsThenDeletes(s, insertions);
      ok, removals := FlushDeletes();
      InsertsAndDeletes(s, insertions, removals);
      if !ok {
        assert FlushedBy(s, false, insertions, removals, Contents());
        return;
      }
      dirty := {};
      assert FlushedBy(s, true, insertions, removals, Contents());
    }
  }

  lemma InsertsThenDeletes(s: State, insertions: seq<Insertion>)
    ensures var middle := After(s, insertions, []);
            (forall removals :: RemovalsOf(middle, removals) <==> RemovalsOf(s, removals))
            && (forall removals :: AllRemoved(middle, removals) <==> AllRemoved(s, removals))
  {
  }

  lemma InsertsAndDeletes(s: State, insertions: seq<Insertion>, removals: seq<Object>)
    ensures After(After(s, insertions, []), [], removals) == After(s, insertions, removals)
  {
    SameDeletes(s, After(s, insertions, []), removals);
  }

  lemma {:induction false} SameDeletes(s: State, t: State, removals: seq<Object>)
    requires s.mappers == t.mappers
    ensures Deletes(s, removals) == Deletes(t, removals) && Forgotten(s, removals) == Forgotten(t, removals)
  {
    if removals != [] {
      SameDeletes(s, t, removals[..|removals| - 1]);
    }
  }

  lemma StillToRemove(s: State, removals: seq<Object>, item: Object)
    requires item in After(s, [], removals).deleted && Mapped(s, item)
    ensures !AllRemoved(s, removals)
  {
  }

  lemma NoneToRemove(s: State, removals: seq<Object>)
    requires forall item | item in After(s, [], removals).deleted :: !Mapped(s, item)
    ensures AllRemoved(s, removals)
  {
    assert forall item | item in s.deleted && item !in removals :: item in After(s, [], removals).deleted;
  }

  lemma OneMoreRemoval(s: State, removals: seq<Object>, item: Object)
    requires RemovalsOf(s, removals)
    requires item in After(s, [], removals).deleted && Mapped(s, item)
    ensures RemovalsOf(s, removals + [item])
    ensures var before := After(s, [], removals);
            After(s, [], removals + [item])
            == before.(deleted := before.deleted - {item},
                       attached := before.attached - {item},
                       executed := before.executed + if Keyed(s, item) then [Delete(item)] else [],
                       asked := before.asked + if Keyed(s, item) then [IM.RemoveObject(item)] else [])
  {
    var more := removals + [item];
    assert more[..|more| - 1] == removals;
  }

  lemma NothingDone(s: State)
    ensures InsertsOf(s, []) && RemovalsOf(s, []) && After(s, [], []) == s
  {
  }

  lemma StillToInsert(s: State, insertions: seq<Insertion>, item: Object)
    requires item in After(s, insertions, []).pending && Mapped(s, item)
    ensures !AllInserted(s, insertions)
  {
  }

  lemma NoneToInsert(s: State, insertions: seq<Insertion>)
    requires forall item | item in After(s, insertions, []).pending :: !Mapped(s, item)
    ensures AllInserted(s, insertions)
  {
    assert forall item | item in s.pending && item !in Items(insertions) :: item in After(s, insertions, []).pending;
  }

  lemma OneMoreInsert(s: State, insertions: seq<Insertion>, next: Insertion)
    requires InsertsOf(s, insertions)
    requires next.item in After(s, insertions, []).pending && Mapped(s, next.item)
    ensures InsertsOf(s, insertions + [next])
    ensures var before := After(s, insertions, []);
            After(s, insertions + [next], [])
            == before.(pending := before.pending - {next.item},
                       executed := before.executed + [Insert(next.item)],
                       asked := before.asked
                         + if Keyed(s, next.item) && next.rowId > 0 then
                             [IM.Add(IM.Key(next.item.gtype, Integer(next.rowId)), next.item)]
                           else [])
  {
    var more := insertions + [next];
    assert more[..|more| - 1] == insertions;
    assert Items(more) == Items(insertions) + [next.item];
  }

  // ---------------------------------------------------------------- runs

  datatype Event =
    | Register(gtype: nat, mapper: Mapper)
    | AddObject(item: Object, mapper: Mapper)
    | DeleteObject(item: Object)
    | Expunge(item: Object)
    | Flush(ok: bool)
    | Rollback
    | Close
    | Load(key: IM.Key, mapper: Mapper, item: Object)

  /** What the identity map holds, unless it has been made to look at a freed key. */
  ghost function Held(s: State): Option<IM.Tables> {
    IM.Run(IM.Tables(map[], map[], 0), s.asked)
  }

  /** What the identity map should hold. */
  ghost function Identities(s: State): map<IM.Key, Object> {
    IM.PlainRun(map[], s.asked)
  }

  /** The object is new to the session: get() has just made it. */
  ghost predicate New(s: State, item: Object) {
    item !in s.pending + s.dirty + s.deleted + s.attached && item !in Identities(s).Values
  }

  ghost predicate Next(s: State, e: Event, t: State) {
    match e
    case Register(gtype, mapper) => t == s.(mappers := s.mappers[gtype := mapper])
    case AddObject(item, mapper) => t == Added(s, item, mapper)
    case DeleteObject(item) => t == Deleted(s, item)
    case Expunge(item) => t == Expunged(s, item)
    case Flush(ok) => Flushed(s, ok, t)
    case Rollback => t == RolledBack(s)
    case Close => t == Closed(s)
    case Load(key, mapper, item) =>
      // get() of what the identity map does not hold and the database does; a closed connection has nothing
      && !s.closed && New(s, item) && item.gtype == key.gtype
      && Held(s).Some? && !IM.Has(Held(s).value, key)
      && t == Registered(s, key.gtype, mapper).(attached := s.attached + {item}, asked := s.asked + [IM.Add(key, item)])
  }

  datatype Move = Move(event: Event, after: State)

  ghost predicate Run(s: State, moves: seq<Move>)
    decreases |moves|
  {
    moves == [] || (Next(s, moves[0].event, moves[0].after) && Run(moves[0].after, moves[1..]))
  }

  function Final(s: State, moves: seq<Move>): State {
    if moves == [] then s else moves[|moves| - 1].after
  }

  // ---------------------------------------------------------------- what every run keeps

  predicate Ok(s: State) {
    && s.pending <= s.attached
    && (forall item | item in s.pending :: Mapped(s, item))
    && s.dirty == {}
    && (s.closed ==> s.pending == {} && s.deleted == {} && s.attached == {})
  }

  lemma StepKeepsOk(s: State, e: Event, t: State)
    requires Ok(s) && Next(s, e, t)
    ensures Ok(t)
  {
    if e.Flush? && !s.closed {
      var insertions, removals :| FlushedBy(s, e.ok, insertions, removals, t);
    }
  }

  /** Pending objects are attached and have mappers, nothing is dirty, and a closed session is empty. */
  lemma {:induction false} RunKeepsOk(s: State, moves: seq<Move>)
    requires Ok(s) && Run(s, moves)
    ensures Ok(Final(s, moves))
    decreases |moves|
  {
    hide Ok, Next;
    if moves != [] {
      StepKeepsOk(s, moves[0].event, moves[0].after);
      RunKeepsOk(moves[0].after, moves[1..]);
    }
  }

  function InsertCount(item: Object, executed: seq<Statement>): nat {
    if executed == [] then 0 else
      InsertCount(item, executed[..|executed| - 1]) + if executed[|executed| - 1] == Insert(item) then 1 else 0
  }

  function One(b: bool): nat {
    if b then 1 else 0
  }

  lemma {:induction false} InsertCountAppend(item: Object, a: seq<Statement>, b: seq<Statement>)
    ensures InsertCount(item, a + b) == InsertCount(item, a) + InsertCount(item, b)
  {
    if b == [] {
      assert a + b == a;
    } else {
      var front := b[..|b| - 1];
      assert (a + b)[..|a + b| - 1] == a + front;
      InsertCountAppend(item, a, front);
    }
  }

  lemma {:induction false} InsertsOnce(item: Object, insertions: seq<Insertion>)
    requires NoRepeats(Items(insertions))
    ensures InsertCount(item, Inserts(insertions)) == One(item in Items(insertions))
  {
    if insertions != [] {
      var front, last := insertions[..|insertions| - 1], insertions[|insertions| - 1];
      assert Items(insertions) == Items(front) + [last.item];
      assert last.item !in Items(front) by {
        assert forall i | 0 <= i < |front| :: Items(insertions)[i] != Items(insertions)[|front|];
      }
      InsertsOnce(item, front);
      assert Inserts(insertions)[..|insertions| - 1] == Inserts(front) by {
        InsertsLength(front);
      }
      InsertsLength(insertions);
    }
  }

  lemma {:induction false} InsertsLength(insertions: seq<Insertion>)
    ensures |Inserts(insertions)| == |insertions|
  {
    if insertions != [] {
      InsertsLength(insertions[..|insertions| - 1]);
    }
  }

  lemma {:induction false} DeletesInsertNothing(item: Object, s: State, removals: seq<Object>)
    ensures InsertCount(item, Deletes(s, removals)) == 0
  {
    if removals != [] {
      var front, last := removals[..|removals| - 1], removals[|removals| - 1];
      DeletesInsertNothing(item, s, front);
      InsertCountAppend(item, Deletes(s, front), if Keyed(s, last) then [Delete(last)] else []);
    }
  }

  /**
   A flush splits what was pending into what it inserted, once each, and what is still pending.
   It succeeds exactly when nothing is left to insert and no mapped object is left to delete.
   */
  lemma FlushSplitsPending(s: State, ok: bool, t: State)
    requires Ok(s) && !s.closed && Flushed(s, ok, t)
    ensures t.pending <= s.pending
    ensures forall item ::
              InsertCount(item, t.executed) == InsertCount(item, s.executed) + One(item in s.pending && item !in t.pending)
    ensures ok <==> t.pending == {} && forall item | item in t.deleted :: !Mapped(t, item)
  {
    hide Inserts, Deletes, Remembered, Forgotten;
    var insertions, removals :| FlushedBy(s, ok, insertions, removals, t);
    forall item
      ensures InsertCount(item, t.executed)
              == InsertCount(item, s.executed) + One(item in s.pending && item !in t.pending)
    {
      InsertCountAppend(item, s.executed + Inserts(insertions), Deletes(s, removals));
      InsertCountAppend(item, s.executed, Inserts(insertions));
      InsertsOnce(item, insertions);
      DeletesInsertNothing(item, s, removals);
    }
    assert forall item :: Mapped(t, item) <==> Mapped(s, item);
    assert forall item | item in s.pending :: item in t.pending || item in Items(insertions);
    assert forall item | item in s.deleted :: item in t.deleted || item in removals;
  }

  function DeleteCount(item: Object, executed: seq<Statement>): nat {
    if executed == [] then 0 else
      DeleteCount(item, executed[..|executed| - 1]) + if executed[|executed| - 1] == Delete(item) then 1 else 0
  }

  lemma {:induction false} DeleteCountAppend(item: Object, a: seq<Statement>, b: seq<Statement>)
    ensures DeleteCount(item, a + b) == DeleteCount(item, a) + DeleteCount(item, b)
  {
    if b == [] {
      assert a + b == a;
    } else {
      var front := b[..|b| - 1];
      assert (a + b)[..|a + b| - 1] == a + front;
      DeleteCountAppend(item, a, front);
    }
  }

  lemma {:induction false} InsertsDeleteNothing(item: Object, insertions: seq<Insertion>)
    ensures DeleteCount(item, Inserts(insertions)) == 0
  {
    if insertions != [] {
      InsertsDeleteNothing(item, insertions[..|insertions| - 1]);
    }
  }

  lemma {:induction false} DeletesOnce(item: Object, s: State, removals: seq<Object>)
    requires NoRepeats(removals)
    ensures DeleteCount(item, Deletes(s, removals)) == One(item in removals && Keyed(s, item))
  {
    if removals != [] {
      var front, last := removals[..|removals| - 1], removals[|removals| - 1];
      assert removals == front + [last];
      assert forall i | 0 <= i < |front| :: removals[i] != removals[|front|];
      DeletesOnce(item, s, front);
      DeleteCountAppend(item, Deletes(s, front), if Keyed(s, last) then [Delete(last)] else []);
      OneDelete(item, last);
    }
  }

  lemma OneDelete(item: Object, last: Object)
    ensures DeleteCount(item, [Delete(last)]) == One(item == last) && DeleteCount(item, []) == 0
  {
    assert [Delete(last)][..0] == [];
  }

  /**
   A flush splits what was marked for deletion into what is gone and what is still marked.  Of what is
   gone each object whose type has a primary key was deleted by one statement, and no other statement was
   a DELETE; nothing that is gone is attached.
   */
  lemma FlushSplitsDeleted(s: State, ok: bool, t: State)
    requires !s.closed && Flushed(s, ok, t)
    ensures t.deleted <= s.deleted
    ensures forall item ::
              DeleteCount(item, t.executed)
              == DeleteCount(item, s.executed) + One(item in s.deleted && item !in t.deleted && Keyed(s, item))
    ensures forall item | item in s.deleted && item !in t.deleted :: Mapped(s, item) && item !in t.attached
    ensures forall item | item in s.attached && item !in t.attached :: item in s.deleted && item !in t.deleted
  {
    hide Inserts, Deletes, Remembered, Forgotten, DeleteCount;
    var insertions, removals :| FlushedBy(s, ok, insertions, removals, t);
    forall item
      ensures DeleteCount(item, t.executed)
              == DeleteCount(item, s.executed) + One(item in s.deleted && item !in t.deleted && Keyed(s, item))
    {
      DeleteCountAppend(item, s.executed + Inserts(insertions), Deletes(s, removals));
      DeleteCountAppend(item, s.executed, Inserts(insertions));
      InsertsDeleteNothing(item, insertions);
      DeletesOnce(item, s, removals);
    }
  }

  /** Calls of add() that made the object pending. */
  function Adds(item: Object, s: State, moves: seq<Move>): nat
    decreases |moves|
  {
    if moves == [] then 0 else
      One(item !in s.pending && item in moves[0].after.pending) + Adds(item, moves[0].after, moves[1..])
  }

  /** Times that the object stopped being pending without a flush. */
  function Withdrawals(item: Object, s: State, moves: seq<Move>): nat
    decreases |moves|
  {
    if moves == [] then 0 else
      One(!moves[0].event.Flush? && item in s.pending && item !in moves[0].after.pending)
      + Withdrawals(item, moves[0].after, moves[1..])
  }

  lemma StepInserts(item: Object, s: State, e: Event, t: State)
    requires Ok(s) && Next(s, e, t)
    ensures InsertCount(item, t.executed) + One(item in t.pending)
            + One(!e.Flush? && item in s.pending && item !in t.pending)
            == InsertCount(item, s.executed) + One(item in s.pending) + One(item !in s.pending && item in t.pending)
    ensures item !in s.pending && item in t.pending ==> e.AddObject? && e.item == item
  {
    hide InsertCount, Inserts, Deletes, Remembered, Forgotten;
    if e.Flush? && !s.closed {
      FlushSplitsPending(s, e.ok, t);
    }
  }

  /**
   Over any run, whatever statements fail, each call of add() that made an object pending has led
   to one INSERT of it, or to none because it was withdrawn, or is still pending.  In particular a
   retried flush never inserts the same entry twice.
   */
  lemma {:induction false} InsertsAreAdds(item: Object, s: State, moves: seq<Move>)
    requires Ok(s) && Run(s, moves)
    ensures var t := Final(s, moves);
            InsertCount(item, t.executed) + One(item in t.pending) + Withdrawals(item, s, moves)
            == InsertCount(item, s.executed) + One(item in s.pending) + Adds(item, s, moves)
    decreases |moves|
  {
    hide Ok, Next, InsertCount;
    if moves != [] {
      StepInserts(item, s, moves[0].event, moves[0].after);
      StepKeepsOk(s, moves[0].event, moves[0].after);
      InsertsAreAdds(item, moves[0].after, moves[1..]);
    }
  }

  // ---------------------------------------------------------------- what an object's state says

  /** What each operation makes of the object it is given, and that other objects keep their states. */
  lemma StatesAfterOperations(s: State, item: Object, other: Object, mapper: Mapper)
    requires Ok(s) && item != other
    ensures !s.closed ==> StateOf(Added(s, item, mapper), item) == if item in s.deleted then DELETED else PENDING
    ensures !s.closed ==> StateOf(Deleted(s, item), item)
                          == if StateOf(s, item) == PENDING then TRANSIENT else DELETED
    ensures StateOf(Expunged(s, item), item) == TRANSIENT
    ensures StateOf(Added(s, item, mapper), other) == StateOf(s, other)
    ensures StateOf(Deleted(s, item), other) == StateOf(s, other)
    ensures StateOf(Expunged(s, item), other) == StateOf(s, other)
    ensures StateOf(RolledBack(s), item) == if item in s.attached then PERSISTENT else TRANSIENT
    ensures StateOf(Closed(s), item) == TRANSIENT
    // a type keeps the mapper it has, and gets one if it has none
    ensures !s.closed ==> Added(s, item, mapper).mappers
                          == if item.gtype in s.mappers then s.mappers else s.mappers[item.gtype := mapper]
    ensures Added(s, item, mapper).asked == Deleted(s, item).asked == RolledBack(s).asked == s.asked
    ensures Deleted(s, item).mappers == Expunged(s, item).mappers == RolledBack(s).mappers == Closed(s).mappers == s.mappers
  {
  }

  /** After a flush that succeeded what was pending is persistent, unless it was to be deleted too. */
  lemma StatesAfterFlush(s: State, t: State, item: Object)
    requires Ok(s) && !s.closed && Flushed(s, true, t)
    ensures item in s.pending && item !in s.deleted ==> StateOf(t, item) == PERSISTENT
    ensures item in s.deleted && Mapped(s, item) ==> StateOf(t, item) == TRANSIENT
  {
    FlushSplitsPending(s, true, t);
    var insertions, removals :| FlushedBy(s, true, insertions, removals, t);
  }

  /**
   Rolling back undoes no statement, since no transaction is ever begun; and an object that was
   only pending is then called persistent although it was never inserted.
   */
  lemma RollbackLeavesAttached(s: State, item: Object)
    requires Ok(s)
    ensures RolledBack(s).executed == s.executed
    ensures item in s.pending ==> StateOf(RolledBack(s), item) == PERSISTENT
  {
  }

  lemma StepOnlyAppends(s: State, e: Event, t: State)
    requires Next(s, e, t)
    ensures s.executed <= t.executed
    ensures !e.Flush? ==> t.executed == s.executed
  {
    hide Inserts, Deletes, Remembered, Forgotten;
    if e.Flush? && !s.closed {
      var insertions, removals :| FlushedBy(s, e.ok, insertions, removals, t);
    }
  }

  /** Over any run, rollbacks included, no statement that was executed is ever retracted. */
  lemma {:induction false} NothingIsRetracted(s: State, moves: seq<Move>)
    requires Run(s, moves)
    ensures s.executed <= Final(s, moves).executed
    ensures forall item :: InsertCount(item, s.executed) <= InsertCount(item, Final(s, moves).executed)
    decreases |moves|
  {
    hide Next, InsertCount;
    if moves != [] {
      StepOnlyAppends(s, moves[0].event, moves[0].after);
      NothingIsRetracted(moves[0].after, moves[1..]);
    }
    var t := Final(s, moves);
    forall item ensures InsertCount(item, s.executed) <= InsertCount(item, t.executed) {
      assert t.executed == s.executed + t.executed[|s.executed|..];
      InsertCountAppend(item, s.executed, t.executed[|s.executed|..]);
    }
  }

  // ---------------------------------------------------------------- the identity map stays sound

  ghost predicate KeyFree(view: map<IM.Key, Object>, op: IM.Operation) {
    op.Add? ==> IM.Comparable(op.key) && op.key !in view
  }

  ghost predicate KeysFree(asked: seq<IM.Operation>, from: nat) {
    forall i | from <= i < |asked| :: KeyFree(IM.PlainRun(map[], asked[..i]), asked[i])
  }

  /** The identity map is asked only for what keeps it sound, and holds nothing that is pending. */
  ghost predicate Safe(s: State) {
    IM.Careful(map[], s.asked) && s.pending !! Identities(s).Values
  }

  /**
   What the session's user and the database owe it: no object is added that the identity map
   holds, no row id is reported under which it holds an object, and keys are comparable.
   */
  ghost predicate Prudent(s: State, move: Move) {
    match move.event
    case AddObject(item, mapper) => item !in Identities(s).Values
    case Flush(ok) => KeysFree(move.after.asked, |s.asked|)
    case Load(key, mapper, item) => IM.Comparable(key)
    case _ => true
  }

  ghost predicate AllPrudent(s: State, moves: seq<Move>)
    decreases |moves|
  {
    moves == [] || (Prudent(s, moves[0]) && AllPrudent(moves[0].after, moves[1..]))
  }

  lemma {:induction false} CarefulAppend(view: map<IM.Key, Object>, ops: seq<IM.Operation>, op: IM.Operation)
    ensures IM.PlainRun(view, ops + [op]) == IM.PlainApply(IM.PlainRun(view, ops), op)
    ensures IM.Careful(view, ops + [op]) <==>
              IM.Careful(view, ops)
              && (op.Add? ==> IM.Comparable(op.key) && IM.Fresh(IM.PlainRun(view, ops), op.key, op.item))
    decreases |ops|
  {
    hide IM.PlainApply, IM.Comparable, IM.Fresh;
    if ops == [] {
      assert ops + [op] == [op] && [op][1..] == [];
      assert IM.PlainRun(view, [op]) == IM.PlainRun(IM.PlainApply(view, op), []);
    } else {
      assert (ops + [op])[1..] == ops[1..] + [op];
      CarefulAppend(IM.PlainApply(view, ops[0]), ops[1..], op);
    }
  }

  /** One more request: after it the map holds at most the object it was asked to add. */
  lemma AskOne(s: State, op: IM.Operation, t: State)
    requires Safe(s) && t.asked == s.asked + [op] && t.pending <= s.pending
    requires op.Add? ==> KeyFree(Identities(s), op) && op.item !in Identities(s).Values && op.item !in t.pending
    ensures Safe(t)
  {
    hide IM.Comparable, IM.Careful, IM.PlainRun;
    CarefulAppend(map[], s.asked, op);
    forall key | key in Identities(t) ensures Identities(t)[key] !in t.pending {
      if key !in Identities(s) || Identities(t)[key] != Identities(s)[key] {
        assert op.Add? && Identities(t)[key] == op.item;
      } else {
        assert Identities(s)[key] in Identities(s).Values;
      }
    }
  }

  lemma {:induction false} InsertsKeepSafe(s: State, insertions: seq<Insertion>)
    requires Safe(s) && InsertsOf(s, insertions)
    requires KeysFree(After(s, insertions, []).asked, |s.asked|)
    ensures Safe(After(s, insertions, []))
    decreases |insertions|
  {
    hide Safe, After, InsertsOf, KeyFree, KeysFree;
    if insertions == [] {
      NothingDone(s);
    } else {
      var front, last := insertions[..|insertions| - 1], insertions[|insertions| - 1];
      assert insertions == front + [last];
      FrontInserts(s, front, last);
      OneMoreInsert(s, front, last);
      var before, after := After(s, front, []), After(s, insertions, []);
      FreePrefix(before.asked, after.asked, |s.asked|);
      InsertsKeepSafe(s, front);
      SafeInsert(before, last, after);
    }
  }

  lemma FrontInserts(s: State, front: seq<Insertion>, last: Insertion)
    requires InsertsOf(s, front + [last])
    ensures InsertsOf(s, front)
    ensures last.item in After(s, front, []).pending && Mapped(s, last.item)
    ensures After(s, front, []).asked == s.asked + Remembered(s, front)
    ensures After(s, front, []).mappers == s.mappers
  {
    hide Inserts, Remembered;
    var items := Items(front + [last]);
    assert items == Items(front) + [last.item];
    assert forall i | 0 <= i < |front| :: items[i] != items[|front|] && items[i] == Items(front)[i];
    assert forall item | item in items :: item in s.pending && Mapped(s, item);
    assert items[|front|] in items;
  }

  lemma FreePrefix(before: seq<IM.Operation>, after: seq<IM.Operation>, from: nat)
    requires from <= |before| <= |after| && before == after[..|before|]
    requires KeysFree(after, from)
    ensures KeysFree(before, from)
    ensures |before| < |after| ==> KeyFree(IM.PlainRun(map[], before), after[|before|])
  {
    hide KeyFree;
    assert forall i | 0 <= i < |before| :: before[..i] == after[..i];
  }

  lemma SafeInsert(before: State, x: Insertion, after: State)
    requires Safe(before) && x.item in before.pending
    requires after.pending == before.pending - {x.item}
    requires after.asked == before.asked
             || (after.asked == before.asked + [IM.Add(IM.Key(x.item.gtype, Integer(x.rowId)), x.item)]
                 && KeyFree(Identities(before), after.asked[|before.asked|]))
    ensures Safe(after)
  {
    hide IM.Careful, IM.PlainRun;
    if after.asked != before.asked {
      AskOne(before, after.asked[|before.asked|], after);
    }
  }

  lemma {:induction false} RemovalsKeepSafe(s: State, removals: seq<Object>)
    requires Safe(s) && RemovalsOf(s, removals)
    ensures Safe(After(s, [], removals))
    decreases |removals|
  {
    hide Safe, After;
    NothingDone(s);
    if removals != [] {
      var front, last := removals[..|removals| - 1], removals[|removals| - 1];
      assert removals == front + [last];
      FrontRemovals(s, front, last);
      OneMoreRemoval(s, front, last);
      RemovalsKeepSafe(s, front);
      SafeRemoval(After(s, [], front), last, After(s, [], removals));
    }
  }

  lemma FrontRemovals(s: State, front: seq<Object>, last: Object)
    requires RemovalsOf(s, front + [last])
    ensures RemovalsOf(s, front)
    ensures last in After(s, [], front).deleted && Mapped(s, last)
  {
    assert forall i | 0 <= i < |front| :: (front + [last])[i] != (front + [last])[|front|];
    assert (front + [last])[..|front|] == front;
  }

  lemma SafeRemoval(before: State, item: Object, after: State)
    requires Safe(before) && after.pending == before.pending
    requires after.asked == before.asked || after.asked == before.asked + [IM.RemoveObject(item)]
    ensures Safe(after)
  {
    if after.asked != before.asked {
      AskOne(before, IM.RemoveObject(item), after);
    }
  }

  lemma FlushKeepsSafe(s: State, ok: bool, t: State)
    requires Safe(s) && Flushed(s, ok, t) && KeysFree(t.asked, |s.asked|)
    ensures Safe(t)
  {
    hide After, InsertsOf, RemovalsOf, AllInserted, AllRemoved;
    if !s.closed {
      var insertions, removals :| FlushedBy(s, ok, insertions, removals, t);
      var middle := After(s, insertions, []);
      InsertsThenDeletes(s, insertions);
      InsertsAndDeletes(s, insertions, removals);
      AskedInOrder(s, insertions, removals);
      FreePrefix(middle.asked, t.asked, |s.asked|);
      InsertsKeepSafe(s, insertions);
      RemovalsKeepSafe(middle, removals);
    }
  }

  lemma AskedInOrder(s: State, insertions: seq<Insertion>, removals: seq<Object>)
    ensures var first, all := After(s, insertions, []).asked, After(s, insertions, removals).asked;
            |s.asked| <= |first| <= |all| && first == all[..|first|]
  {
    hide Inserts, Deletes;
    assert Forgotten(s, []) == [];
  }

  /** What the identity map holds is what a plain map would, if it was only asked careful things. */
  lemma CarefulIsSound(asked: seq<IM.Operation>)
    requires IM.Careful(map[], asked)
    ensures var held := IM.Run(IM.Tables(map[], map[], 0), asked);
            held.Some? && IM.Valid(held.value) && IM.View(held.value) == IM.PlainRun(map[], asked)
  {
    IM.EmptyView(0);
    IM.RunRefines(IM.Tables(map[], map[], 0), asked);
  }

  lemma StepKeepsSafe(s: State, e: Event, t: State)
    requires Safe(s) && Next(s, e, t) && Prudent(s, Move(e, t))
    ensures Safe(t)
  {
    hide IM.Careful, IM.PlainRun, Flushed, KeysFree, IM.Valid, IM.View, IM.Has;
    match e {
      case Flush(ok) => FlushKeepsSafe(s, ok, t);
      case Expunge(item) => AskOne(s, IM.RemoveObject(item), t);
      case Close =>
        if !s.closed {
          AskOne(s, IM.Clear, t);
        }
      case Load(key, mapper, item) =>
        CarefulIsSound(s.asked);
        IM.LookupAgrees(Held(s).value, key);
        AskOne(s, IM.Add(key, item), t);
      case _ =>
    }
  }

  /**
   Under prudent use the identity map is never made to look at a freed key, its two tables stay
   inverse, and it holds what a plain map would, over every run of the session.
   */
  lemma {:induction false} IdentityMapStaysSound(s: State, moves: seq<Move>)
    requires Safe(s) && Run(s, moves) && AllPrudent(s, moves)
    ensures var t := Final(s, moves);
            Held(t).Some? && IM.Valid(Held(t).value) && IM.View(Held(t).value) == Identities(t)
    decreases |moves|
  {
    hide Safe, Next, Prudent, IM.Valid, IM.View, Identities, Held;
    if moves == [] {
      SafeIsSound(s);
    } else {
      StepKeepsSafe(s, moves[0].event, moves[0].after);
      IdentityMapStaysSound(moves[0].after, moves[1..]);
    }
  }

  lemma SafeIsSound(s: State)
    requires Safe(s)
    ensures Held(s).Some? && IM.Valid(Held(s).value) && IM.View(Held(s).value) == Identities(s)
  {
    CarefulIsSound(s.asked);
  }

  // ---------------------------------------------------------------- what the identity map holds, and no longer holds

  lemma {:induction false} RunFront(s: State, moves: seq<Move>)
    requires Run(s, moves) && moves != []
    ensures var (front, last) := (moves[..|moves| - 1], moves[|moves| - 1]);
            && Run(s, front) && Next(Final(s, front), last.event, last.after)
            && (AllPrudent(s, moves) ==> AllPrudent(s, front))
    decreases |moves|
  {
    hide Next, Prudent;
    if |moves| > 1 {
      RunFront(moves[0].after, moves[1..]);
      assert moves[1..][..|moves| - 2] == moves[..|moves| - 1][1..];
    }
  }

  lemma IdentitiesAfter(s: State, op: IM.Operation, t: State)
    requires t.asked == s.asked + [op]
    ensures Identities(t) == IM.PlainApply(Identities(s), op)
  {
    hide IM.PlainRun, IM.PlainApply, IM.Careful;
    CarefulAppend(map[], s.asked, op);
  }

  /** What a sound identity map holds is what a lookup finds. */
  lemma HeldIsFound(s: State, key: IM.Key)
    requires Held(s).Some? && IM.Valid(Held(s).value) && IM.View(Held(s).value) == Identities(s)
    ensures IM.Has(Held(s).value, key) <==> key in Identities(s)
    ensures key in Identities(s) ==> Held(s).value.entries[IM.IdOf(Held(s).value, key)].item == Identities(s)[key]
  {
    hide Held, Identities, IM.Valid, IM.View, IM.Has;
    IM.LookupAgrees(Held(s).value, key);
  }

  /**
   Over any run that ends with expunging an object: it is in none of the session's sets, nothing else
   has changed in them, and the identity map has forgotten it and no other object.  Under prudent use a
   lookup of a key that it had finds nothing.
   */
  lemma ExpungedIsForgotten(moves: seq<Move>, item: Object, key: IM.Key)
    requires Run(OPENED, moves) && moves != [] && moves[|moves| - 1].event == Expunge(item)
    ensures var (s, t) := (Final(OPENED, moves[..|moves| - 1]), Final(OPENED, moves));
            && (forall o :: o in t.pending <==> o in s.pending && o != item)
            && (forall o :: o in t.dirty <==> o in s.dirty && o != item)
            && (forall o :: o in t.deleted <==> o in s.deleted && o != item)
            && (forall o :: o in t.attached <==> o in s.attached && o != item)
            && item !in Identities(t).Values
            && (key in Identities(t) <==> key in Identities(s) && Identities(s)[key] != item)
            && (AllPrudent(OPENED, moves) && key in Identities(s) && Identities(s)[key] == item ==>
                  Held(t).Some? && !IM.Has(Held(t).value, key))
  {
    hide Run, AllPrudent, IM.PlainRun, IM.Careful, IM.Run, IM.Valid, IM.View, IM.Has;
    var (s, t) := (Final(OPENED, moves[..|moves| - 1]), Final(OPENED, moves));
    RunFront(OPENED, moves);
    IdentitiesAfter(s, IM.RemoveObject(item), t);
    if AllPrudent(OPENED, moves) {
      OpenedIsSafe();
      IdentityMapStaysSound(OPENED, moves);
      HeldIsFound(t, key);
    }
  }

  lemma {:induction false} ClosedMapIsEmpty(s: State, moves: seq<Move>)
    requires Run(s, moves) && (s.closed ==> Identities(s) == map[])
    ensures var t := Final(s, moves); (s.closed ==> t.closed) && (t.closed ==> Identities(t) == map[])
    decreases |moves|
  {
    hide Next, Identities;
    if moves != [] {
      StepKeepsEmpty(s, moves[0].event, moves[0].after);
      ClosedMapIsEmpty(moves[0].after, moves[1..]);
    }
  }

  lemma StepKeepsEmpty(s: State, e: Event, t: State)
    requires Next(s, e, t) && (s.closed ==> Identities(s) == map[])
    ensures (s.closed ==> t.closed) && (t.closed ==> Identities(t) == map[])
  {
    hide IM.PlainRun, IM.Run, IM.Has, After, InsertsOf, RemovalsOf, AllInserted, AllRemoved;
    match e {
      case Expunge(item) => IdentitiesAfter(s, IM.RemoveObject(item), t);
      case Close =>
        if !s.closed {
          IdentitiesAfter(s, IM.Clear, t);
        }
      case Flush(ok) =>
        if !s.closed {
          FlushKeepsOpen(s, ok, t);
        }
      case _ =>
    }
  }

  lemma FlushKeepsOpen(s: State, ok: bool, t: State)
    requires !s.closed && Flushed(s, ok, t)
    ensures !t.closed && t.mappers == s.mappers
  {
    var insertions, removals :| FlushedBy(s, ok, insertions, removals, t);
  }

  /** A closed session stays closed and empty, whatever is called, and its identity map holds nothing. */
  lemma ClosedHoldsNothing(moves: seq<Move>, key: IM.Key)
    requires Run(OPENED, moves) && (exists i | 0 <= i < |moves| :: moves[i].event.Close?)
    ensures var t := Final(OPENED, moves);
            && t.closed && t.pending == t.dirty == t.deleted == t.attached == {} && Identities(t) == map[]
            && (AllPrudent(OPENED, moves) ==> Held(t).Some? && !IM.Has(Held(t).value, key))
  {
    hide Next, Ok, AllPrudent, Identities, IM.Run, IM.Valid, IM.View, IM.Has;
    OpenedIsSafe();
    RunKeepsOk(OPENED, moves);
    CloseCloses(OPENED, moves);
    NothingHeld();
    ClosedMapIsEmpty(OPENED, moves);
    ClosedIsEmpty(Final(OPENED, moves));
    if AllPrudent(OPENED, moves) {
      IdentityMapStaysSound(OPENED, moves);
      HeldIsFound(Final(OPENED, moves), key);
    }
  }

  lemma NothingHeld()
    ensures Identities(OPENED) == map[]
  {
  }

  lemma ClosedIsEmpty(s: State)
    requires Ok(s) && s.closed
    ensures s.pending == s.dirty == s.deleted == s.attached == {}
  {
  }

  lemma {:induction false} CloseCloses(s: State, moves: seq<Move>)
    requires Run(s, moves) && (s.closed || exists i | 0 <= i < |moves| :: moves[i].event.Close?)
    ensures Final(s, moves).closed
    decreases |moves|
  {
    hide Next;
    if moves != [] {
      CloseStays(s, moves[0].event, moves[0].after);
      if !moves[0].after.closed {
        var i :| 0 <= i < |moves| && moves[i].event.Close?;
        assert moves[1..][i - 1] == moves[i];
      }
      CloseCloses(moves[0].after, moves[1..]);
    }
  }

  lemma CloseStays(s: State, e: Event, t: State)
    requires Next(s, e, t)
    ensures s.closed || e.Close? ==> t.closed
  {
  }

  /** What get() has read is attached, and found under its key from then on. */
  lemma LoadedIsFound(s: State, key: IM.Key, mapper: Mapper, item: Object, t: State)
    requires Next(s, Load(key, mapper, item), t)
    ensures key in Identities(t) && Identities(t)[key] == item && item in t.attached
    ensures forall other | other in Identities(s) && other != key ::
              other in Identities(t) && Identities(t)[other] == Identities(s)[other]
  {
    hide IM.PlainRun, IM.Run, IM.Has;
    IdentitiesAfter(s, IM.Add(key, item), t);
  }

  lemma {:induction false} ForgottenIsGone(s: State, asked: seq<IM.Operation>, removals: seq<Object>, item: Object)
    requires item in removals && Keyed(s, item)
    ensures item !in IM.PlainRun(map[], asked + Forgotten(s, removals)).Values
  {
    hide IM.PlainRun, IM.Careful, Keyed;
    var front, last := removals[..|removals| - 1], removals[|removals| - 1];
    assert removals == front + [last];
    assert Forgotten(s, removals) == Forgotten(s, front) + if Keyed(s, last) then [IM.RemoveObject(last)] else [];
    var before := asked + Forgotten(s, front);
    if last != item {
      ForgottenIsGone(s, asked, front, item);
    }
    if Keyed(s, last) {
      assert asked + Forgotten(s, removals) == before + [IM.RemoveObject(last)];
      CarefulAppend(map[], before, IM.RemoveObject(last));
    } else {
      assert asked + Forgotten(s, removals) == before;
    }
  }

  /** After a flush nothing that it deleted by its key is in the identity map, whatever else was done and failed. */
  lemma FlushForgets(s: State, ok: bool, t: State, item: Object)
    requires !s.closed && Flushed(s, ok, t)
    requires item in s.deleted && item !in t.deleted && Keyed(s, item)
    ensures item !in Identities(t).Values
  {
    hide Inserts, Deletes, Remembered, Forgotten, IM.PlainRun, InsertsOf, AllInserted, AllRemoved;
    var insertions, removals :| FlushedBy(s, ok, insertions, removals, t);
    ForgottenIsGone(s, s.asked + Remembered(s, insertions), removals, item);
  }

  lemma {:induction false} RememberedIsHeld(s: State, insertions: seq<Insertion>, i: nat)
    requires i < |insertions| && Keyed(s, insertions[i].item) && insertions[i].rowId > 0
    requires KeysFree(s.asked + Remembered(s, insertions), |s.asked|)
    ensures var (view, x) := (IM.PlainRun(map[], s.asked + Remembered(s, insertions)), insertions[i]);
            var key := IM.Key(x.item.gtype, Integer(x.rowId));
            key in view && view[key] == x.item
  {
    hide IM.PlainRun, IM.Careful, Keyed, KeyFree, IM.Comparable;
    var front, last := insertions[..|insertions| - 1], insertions[|insertions| - 1];
    var (before, all) := (s.asked + Remembered(s, front), s.asked + Remembered(s, insertions));
    var op := IM.Add(IM.Key(last.item.gtype, Integer(last.rowId)), last.item);
    if Keyed(s, last.item) && last.rowId > 0 {
      assert all == before + [op] && all[|before|] == op;
      CarefulAppend(map[], before, op);
    } else {
      assert all == before;
    }
    FreePrefix(before, all, |s.asked|);
    if i < |front| {
      RememberedIsHeld(s, front, i);
      if all != before {
        FreeKeyIsNew(IM.PlainRun(map[], before), op);
      }
    }
  }

  lemma FreeKeyIsNew(view: map<IM.Key, Object>, op: IM.Operation)
    requires KeyFree(view, op) && op.Add?
    ensures op.key !in view
  {
  }

  lemma {:induction false} OthersStay(s: State, asked: seq<IM.Operation>, removals: seq<Object>, key: IM.Key)
    requires key in IM.PlainRun(map[], asked) && IM.PlainRun(map[], asked)[key] !in removals
    ensures var view := IM.PlainRun(map[], asked + Forgotten(s, removals));
            key in view && view[key] == IM.PlainRun(map[], asked)[key]
  {
    hide IM.PlainRun, IM.Careful, Keyed;
    if removals == [] {
      assert asked + Forgotten(s, []) == asked;
    } else {
      var front, last := removals[..|removals| - 1], removals[|removals| - 1];
      assert removals == front + [last];
      OthersStay(s, asked, front, key);
      var before := asked + Forgotten(s, front);
      if Keyed(s, last) {
        assert asked + Forgotten(s, removals) == before + [IM.RemoveObject(last)];
        CarefulAppend(map[], before, IM.RemoveObject(last));
      } else {
        assert asked + Forgotten(s, removals) == before;
      }
    }
  }

  /**
   After a flush an inserted object whose type has a primary key is found under the row id it got, if it
   got one, unless it was to be deleted too; its keys have to be new.
   */
  lemma FlushRemembers(s: State, ok: bool, insertions: seq<Insertion>, removals: seq<Object>, t: State, i: nat)
    requires FlushedBy(s, ok, insertions, removals, t) && KeysFree(t.asked, |s.asked|)
    requires i < |insertions| && Keyed(s, insertions[i].item) && insertions[i].rowId > 0
    requires insertions[i].item !in s.deleted
    ensures var key := IM.Key(insertions[i].item.gtype, Integer(insertions[i].rowId));
            key in Identities(t) && Identities(t)[key] == insertions[i].item
  {
    hide Inserts, Deletes, Remembered, Forgotten, IM.PlainRun, InsertsOf, AllInserted, AllRemoved, KeyFree, KeysFree;
    var asked := s.asked + Remembered(s, insertions);
    assert t.asked == asked + Forgotten(s, removals);
    FreePrefix(asked, t.asked, |s.asked|);
    RememberedIsHeld(s, insertions, i);
    OthersStay(s, asked, removals, IM.Key(insertions[i].item.gtype, Integer(insertions[i].rowId)));
  }

  lemma OpenedIsSafe()
    ensures Ok(OPENED) && Safe(OPENED)
  {
  }

  /**
   The whole life of a session: its sets stay in order, every INSERT of an object goes back to one
   call of add(), and under prudent use its identity map holds what a plain map would.
   */
  lemma SessionIsSound(moves: seq<Move>, item: Object)
    requires Run(OPENED, moves)
    ensures var t := Final(OPENED, moves);
            && Ok(t)
            && InsertCount(item, t.executed) + One(item in t.pending) + Withdrawals(item, OPENED, moves)
               == Adds(item, OPENED, moves)
            && (AllPrudent(OPENED, moves) ==>
                  Held(t).Some? && IM.Valid(Held(t).value) && IM.View(Held(t).value) == Identities(t))
  {
    hide Ok, Safe, IM.Valid, IM.View, Identities, Held, Withdrawals, Adds, Run, AllPrudent;
    OpenedIsSafe();
    RunKeepsOk(OPENED, moves);
    InsertsAreAdds(item, OPENED, moves);
    if AllPrudent(OPENED, moves) {
      IdentityMapStaysSound(OPENED, moves);
    }
  }
}
