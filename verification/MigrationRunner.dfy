/**
 The migrator object: what one call of status, up or down does to the database, to the
 connection, to its locks and to its listeners, whichever statements fail.
 */
module MigrationRunner {
  import opened Common
  import opened MigrationHistory
  import opened MigrationServer
  import opened MigrationSteps
  import MP = MigrationProcesses

  datatype Signal = Applied(entry: Entry, down: bool) | Failed(entry: Entry)

  datatype Error = InvalidOperation | StatementFailed | IntegrityError | NotSupported

  function Announce(ops: seq<Operation>): (signals: seq<Signal>)
    ensures |signals| == |ops|
  {
    seq(|ops|, i requires 0 <= i < |ops| => Applied(ops[i].entry, ops[i].Down?))
  }

  /** Where a call found the history, how far it announced moving it, and where it left it. */
  datatype Move = Move(first: nat, told: nat, last: nat)

  /** A COMMIT of this call that took effect but was reported as failed moves the history one unannounced step. */
  ghost predicate Faithful(move: Move, list: seq<Migration>, direction: int, limit: nat, failing: Option<Migration>,
                           unreported: bool)
    requires limit <= |list|
  {
    && move.first <= |list| && move.told <= |list| && move.last <= |list|
    && (direction == 0 ==> move.told == move.first)
    && (direction > 0 ==> move.first <= move.told && (move.first < move.told ==> move.told <= limit))
    && (direction < 0 ==> move.told <= move.first && (move.told < move.first ==> limit <= move.told))
    && (direction < 0 ==> forall k | move.last <= k < move.first :: list[k].reversible)
    && (move.told != move.last ==>
          && unreported && failing.Some?
          && Decide(list, direction, limit, move.told) == Perform(failing.value)
          && move.last == if direction > 0 then move.told + 1 else move.told - 1)
  }

  /** orm_migrator_new(): a list with a hole or with versions out of order is refused. */
  method CheckMigrations(given: seq<Option<Migration>>) returns (accepted: bool)
    ensures accepted <==>
            && (forall i | 0 <= i < |given| :: given[i].Some?)
            && (forall i, j | 0 <= i < j < |given| && given[i].Some? && given[j].Some? ::
                  given[i].value.entry.version < given[j].value.entry.version)
  {
    for i := 0 to |given|
      invariant forall k | 0 <= k < i :: given[k].Some?
      invariant forall k, l | 0 <= k < l < i :: given[k].value.entry.version < given[l].value.entry.version
    {
      if given[i].None? || (i > 0 && given[i].value.entry.version <= given[i - 1].value.entry.version) {
        return false;
      }
    }
    accepted := true;
  }

  // ---------------------------------------------------------------- what the pieces of the loop do to the server

  /** The first half of a turn: nothing is committed, and the choice is made from the history that was read. */
  ghost predicate Chose(dialect: Dialect, task: MP.Task, before: Server, after: Server,
                        error: Option<Error>, count: nat, turn: Turn, transaction: bool)
    requires task.limit <= |task.list|
  {
    && after.committed == before.committed && SameSession(before, after)
    && (transaction ==> dialect != Mysql) && (!transaction ==> after.transaction.None?)
    && (error.None? ==>
          && IsPrefix(after.committed.history, task.list, count)
          && turn == Decide(task.list, task.direction, task.limit, count)
          && (if turn.Reached? then !transaction
              else transaction == (dialect != Mysql)
                   && after.transaction == if dialect == Mysql then None else Some(after.committed)))
    && (error == Some(IntegrityError) ==> AppliedCount(after.committed.history, task.list).None?)
    && Follows(dialect, task, before, MP.Outside(true), after, AfterChoice(error.Some?, transaction, turn))
  }

  /** The second half: the step and its record are committed together, or neither, except for a COMMIT unseen. */
  ghost predicate StepEnded(dialect: Dialect, task: MP.Task, m: Migration, before: Server, after: Server, ok: bool) {
    var stepped := Stepped(before.committed, m, task.direction < 0);
    && SameSession(before, after)
    && (dialect == Mysql ==> after.transaction.None?)
    && (ok ==> after.committed == stepped && after.transaction.None?)
    && (!ok && dialect != Mysql ==>
          || after.committed == before.committed
          || (after.unreported == before.unreported + 1 && after.committed == stepped))
    && (!ok && dialect == Mysql ==> after.committed.history == before.committed.history)
    && Follows(dialect, task, before, MP.Chosen(m), after, if ok then MP.Outside(true) else MP.Failing)
  }

  /** The migration at which a call fails: the next one in its direction, short of its limit. */
  predicate FailsAt(m: Migration, list: seq<Migration>, direction: int, limit: nat, told: nat, error: Error) {
    && (if direction > 0 then told < limit && told < |list| && m == list[told]
        else direction < 0 && limit < told <= |list| && m == list[told - 1])
    && error == if direction < 0 && !m.reversible then NotSupported else StatementFailed
  }

  /** The whole loop. */
  ghost predicate LoopEnded(dialect: Dialect, task: MP.Task, before: Server, after: Server, error: Option<Error>,
                            count: nat, failing: Option<Migration>, transaction: bool, move: Move)
    requires task.limit <= |task.list|
  {
    var list := task.list;
    && SameSession(before, after)
    // the flags that the cleanup relies on
    && (dialect == Mysql ==> !transaction) && (!transaction ==> after.transaction.None?)
    // what is committed
    && Faithful(move, list, task.direction, task.limit, failing, after.unreported > before.unreported)
    && move.first == CountOr0(before.committed.history, list)
    && (move.last == move.first || IsPrefix(before.committed.history, list, move.first))
    && var moved := Advance(before.committed, list, move.first, move.last);
    && (dialect != Mysql || error.None? ==> after.committed == moved)
    && (dialect == Mysql ==> after.committed.history == moved.history)
    // when it succeeds, and why it fails
    && (error.None? ==>
          && failing.None? && !transaction
          && IsPrefix(after.committed.history, list, count)
          && IsPrefix(before.committed.history, list, move.first)
          && count == move.last == move.told == Destination(task.direction, task.limit, move.first))
    && (failing.Some? ==>
          && error.Some?
          && FailsAt(failing.value, list, task.direction, task.limit, move.told, error.value))
    && (error == Some(IntegrityError) ==> AppliedCount(before.committed.history, list).None?)
    // and it is a run of one process of the concurrent system
    && Follows(dialect, task, before, MP.Outside(true), after, AfterLoop(error.Some?, transaction))
  }

  /** The head of the loop, with `at` migrations applied. */
  ghost predicate AtHead(dialect: Dialect, task: MP.Task, start: Server, now: Server, first: nat, at: nat) {
    && On(start.committed, task.list, task.direction, task.limit, first, at, now.committed)
    && SameSession(start, now) && now.transaction.None?
    && (at == first || IsPrefix(start.committed.history, task.list, first))
    && Follows(dialect, task, start, MP.Outside(true), now, MP.Outside(true))
  }

  lemma LoopStarts(dialect: Dialect, task: MP.Task, start: Server, first: nat)
    requires task.limit <= |task.list| && start.transaction.None?
    requires first == CountOr0(start.committed.history, task.list)
    ensures first <= |task.list| && AtHead(dialect, task, start, start, first, first)
    ensures Announce(Steps(task.list, first, first)) == []
  {
    hide Follows, On;
    OnStart(start.committed, task.list, task.direction, task.limit, first);
    FollowsNothing(dialect, task, start, start, MP.Outside(true));
  }

  /** After the first half of a turn the loop has ended, or goes on to a step. */
  lemma TurnIsChosen(dialect: Dialect, task: MP.Task, start: Server, head: Server, after: Server, first: nat, at: nat,
                     error: Option<Error>, count: nat, turn: Turn, transaction: bool)
    requires MP.TaskOk(task) && AtHead(dialect, task, start, head, first, at)
    requires Chose(dialect, task, head, after, error, count, turn, transaction)
    ensures first <= |task.list| && at <= |task.list|
    ensures var move := Move(first, at, at);
            && (error.Some? ==> LoopEnded(dialect, task, start, after, error, count, None, transaction, move))
            && (error.None? && turn.Reached? ==>
                  !transaction && LoopEnded(dialect, task, start, after, None, count, None, transaction, move))
            && (error.None? && turn.Irreversible? ==>
                  LoopEnded(dialect, task, start, after, Some(NotSupported), count, Some(turn.migration), transaction, move))
            && (error.None? && turn.Perform? ==>
                  && transaction == (dialect != Mysql)
                  && after.transaction == (if dialect == Mysql then None else Some(after.committed))
                  && if task.direction > 0 then at < task.limit else task.direction < 0 && at > task.limit)
  {
    hide Follows, On, Faithful, Advance, IsPrefix, Increasing, CountOr0, AppliedCount, Decide, Destination, FailsAt;
    var start', list := start.committed, task.list;
    OnMeans(start', list, task.direction, task.limit, first, at, head.committed);
    FollowsThen(dialect, task, start, MP.Outside(true), head, MP.Outside(true), after, AfterChoice(error.Some?, transaction, turn));
    FollowsOnMysql(task, start, MP.Outside(true), after, MP.Releasing(false));
    if error.None? {
      TurnFinds(start', list, task.direction, task.limit, first, at, head.committed, count);
    }
  }

  /** After the second half the loop is at its head again, one step further, or has ended. */
  lemma StepIsTaken(dialect: Dialect, task: MP.Task, start: Server, head: Server, chosen: Server, m: Migration, after: Server,
                    first: nat, at: nat, count: nat, transaction: bool, ok: bool) returns (move: Move)
    requires MP.TaskOk(task) && AtHead(dialect, task, start, head, first, at)
    requires Chose(dialect, task, head, chosen, None, count, Perform(m), transaction)
    requires StepEnded(dialect, task, m, chosen, after, ok)
    requires first <= |task.list| && at <= |task.list|
    requires if task.direction > 0 then at < task.limit else task.direction < 0 && at > task.limit
    ensures var next := if task.direction > 0 then at + 1 else at - 1;
            if ok then
              && next <= |task.list| && move == Move(first, next, next) && after.transaction.None?
              && AtHead(dialect, task, start, after, first, next)
              && Steps(task.list, first, next)
                 == Steps(task.list, first, at) + [if task.direction < 0 then Down(m.entry) else Up(m.entry)]
            else
              && move.first == first && move.told == at
              && LoopEnded(dialect, task, start, after, Some(StatementFailed), count, Some(m), transaction, move)
  {
    hide Follows, On, Stepped, Steps, Faithful, Advance, IsPrefix, Increasing, CountOr0, AppliedCount, Decide, Destination, FailsAt;
    var start', list := start.committed, task.list;
    var next := if task.direction > 0 then at + 1 else at - 1;
    OnMeans(start', list, task.direction, task.limit, first, at, head.committed);
    TurnFinds(start', list, task.direction, task.limit, first, at, head.committed, count);
    TurnMoves(start', list, task.direction, task.limit, first, at, head.committed);
    FollowsThen(dialect, task, start, MP.Outside(true), head, MP.Outside(true), chosen, MP.Chosen(m));
    FollowsThen(dialect, task, start, MP.Outside(true), chosen, MP.Chosen(m), after, if ok then MP.Outside(true) else MP.Failing);
    FollowsOnMysql(task, start, MP.Outside(true), after, MP.Releasing(false));
    if ok {
      move := Move(first, next, next);
    } else if dialect != Mysql && after.committed != chosen.committed {
      move := Move(first, at, next);
      LostAnswer(start', list, task.direction, task.limit, move, m);
    } else {
      move := Move(first, at, at);
    }
  }

  /** Each row is the one that the list has at its place. */
  predicate RowsMatch(rows: seq<HistoryRow>, list: seq<Migration>) {
    |rows| <= |list| && forall k | 0 <= k < |rows| :: RowMatches(rows[k], list[k].entry)
  }

  lemma Mismatch(history: map<int64, Record>, list: seq<Migration>, i: nat)
    requires i < |Ordered(history)| && (i < |list| ==> !RowMatches(Ordered(history)[i], list[i].entry))
    ensures AppliedCount(history, list).None?
  {
    hide RowMatches;
    forall c: nat ensures !IsPrefix(history, list, c) {
      if i < c <= |list| { assert Entries(list[..c])[i] == list[i].entry; }
    }
  }

  class Migrator {
    const connection: Connection
    const dialect: Dialect
    const migrations: seq<Migration>
    var running: bool
    var signals: seq<Signal>
    var tableLock: bool  // LOCK TABLES, held by a second session for as long as that is open

    constructor (connection: Connection, dialect: Dialect, migrations: seq<Migration>)
      requires Increasing(migrations)
      ensures this.connection == connection && this.dialect == dialect && this.migrations == migrations
      ensures !running && signals == [] && !tableLock
    {
      this.connection := connection;
      this.dialect := dialect;
      this.migrations := migrations;
      running := false;
      signals := [];
      tableLock := false;
    }

    /** The task of the concurrent system that a call carries out. */
    function Task(direction: int, limit: nat): MP.Task {
      MP.Task(migrations, direction, limit)
    }

    /**
     read_history(): counts the rows while they match the list, row by row.  `delivered` are the
     rows that the fetches delivered: all of them, unless a fetch failed.
     */
    method ReadHistory() returns (error: Option<Error>, count: nat, ghost delivered: seq<HistoryRow>)
      ensures delivered <= Ordered(Current(connection.server).history)
      ensures error == Some(IntegrityError) <==> !RowsMatch(delivered, migrations)
      ensures error.None? ==> connection.isOpen && delivered == Ordered(Current(connection.server).history)
      ensures error.None? ==> IsPrefix(Current(connection.server).history, migrations, count)
      ensures error == Some(IntegrityError) ==> AppliedCount(Current(connection.server).history, migrations).None?
    {
      count := 0;
      var ok, rows, broken := connection.QueryHistory();
      if !ok {
        return Some(StatementFailed), 0, [];
      }
      delivered := rows;
      ghost var all := Ordered(Current(connection.server).history);
      for i := 0 to |rows|
        invariant count == i <= |migrations|
        invariant forall k | 0 <= k < i :: RowMatches(all[k], migrations[k].entry)
      {
        assert rows[i] == all[i];
        if count >= |migrations| || !RowMatches(rows[i], migrations[count].entry) {
          Mismatch(Current(connection.server).history, migrations, i);
          return Some(IntegrityError), count, delivered;
        }
        count := count + 1;
      }
      if broken {
        return Some(StatementFailed), count, delivered;
      }
      error := None;
    }

    /** begin_migration() */
    method BeginMigration() returns (ok: bool)
      modifies connection
      ensures connection.isOpen == old(connection.isOpen)
      ensures dialect == Mysql ==> ok && connection.server == old(connection.server)
      ensures dialect != Mysql && ok ==> connection.isOpen && connection.inTransaction
                                         && Succeeds(old(connection.server), Begin, connection.server)
      ensures !ok ==> connection.server == old(connection.server)
      ensures dialect == Mysql || !ok ==> connection.inTransaction == old(connection.inTransaction)
    {
      if dialect == Mysql {
        return true;
      }
      ok := connection.Execute(Begin);
      if ok {
        connection.inTransaction := true;
      }
    }

    /** end_migration() */
    method EndMigration(commit: bool) returns (ok: bool)
      modifies connection
      ensures connection.isOpen == old(connection.isOpen)
      ensures dialect == Mysql ==> ok && connection.server == old(connection.server)
      ensures dialect != Mysql && ok ==>
                !connection.inTransaction
                && Succeeds(old(connection.server), if commit then Commit else Rollback, connection.server)
      ensures !ok ==> Fails(old(connection.server), if commit then Commit else Rollback, connection.server)
      ensures dialect == Mysql || !ok ==> connection.inTransaction == old(connection.inTransaction)
    {
      if dialect == Mysql {
        return true;
      }
      ok := connection.Execute(if commit then Commit else Rollback);
      if ok {
        connection.inTransaction := false;
      }
    }

    /** The first half of a loop turn: open a transaction, read the history, and stop there when nothing is left to do. */
    method ChooseStep(direction: int, limit: nat) returns (error: Option<Error>, count: nat, turn: Turn, transaction: bool)
      requires Increasing(migrations) && limit <= |migrations|
      requires connection.server.transaction.None? && !connection.inTransaction
      modifies connection
      ensures connection.isOpen == old(connection.isOpen)
      ensures !transaction ==> !connection.inTransaction
      ensures Chose(dialect, Task(direction, limit), old(connection.server), connection.server, error, count, turn, transaction)
    {
      hide Follows, Decide, Increasing;
      ghost var task, start := Task(direction, limit), connection.server;
      error, count, turn, transaction := None, 0, Reached, false;
      var begun := BeginMigration();
      BeginFollows(dialect, task, start, true, connection.server, begun);
      if !begun {
        error := Some(StatementFailed);
        return;
      }
      transaction := dialect != Mysql;
      ghost var open := connection.server;
      ghost var delivered;
      error, count, delivered := ReadHistory();
      if error.Some? {
        FailureFollows(dialect, task, open, MP.Reading);
        FollowsThen(dialect, task, start, MP.Outside(true), open, MP.Reading, open, MP.Failing);
        FollowsOnMysql(task, start, MP.Outside(true), open, MP.Releasing(false));
        return;
      }
      turn := Decide(migrations, direction, limit, count);
      ReadFollows(dialect, task, open, count);
      FollowsThen(dialect, task, start, MP.Outside(true), open, MP.Reading, open, Chosen(turn));
      if turn.Reached? {
        var ended := EndMigration(true);
        CommitFollows(dialect, task, open, MP.Done, connection.server, ended);
        FollowsThen(dialect, task, start, MP.Outside(true), open, MP.Done, connection.server,
                    if ended then MP.Releasing(true) else MP.Failing);
        if ended {
          transaction := false;
        } else {
          error := Some(StatementFailed);
        }
      }
    }

    /** One step of the loop, its record and its commit. */
    method PerformStep(m: Migration, down: bool, ghost task: MP.Task) returns (ok: bool)
      requires MP.TaskOk(task) && down == (task.direction < 0)
      requires connection.server.transaction == if dialect == Mysql then None else Some(connection.server.committed)
      modifies connection
      ensures connection.isOpen == old(connection.isOpen)
      ensures dialect == Mysql ==> connection.inTransaction == old(connection.inTransaction)
      ensures ok && dialect != Mysql ==> !connection.inTransaction
      ensures StepEnded(dialect, task, m, old(connection.server), connection.server, ok)
    {
      hide Follows, MP.TaskOk;
      ghost var start := connection.server;
      ok := connection.Execute(RunStep(m, down));
      ghost var ran := connection.server;
      StepFollows(dialect, task, start, m, ran, ok);
      if ok {
        ok := connection.Execute(RecordStep(m, down));
        RecordFollows(dialect, task, ran, m, connection.server, ok);
        FollowsThen(dialect, task, start, MP.Chosen(m), ran, MP.Ran(m), connection.server,
                    if ok then MP.Noted(m) else MP.Failing);
      }
      if ok {
        ghost var noted := connection.server;
        ok := EndMigration(true);
        CommitFollows(dialect, task, noted, MP.Noted(m), connection.server, ok);
        FollowsThen(dialect, task, start, MP.Chosen(m), noted, MP.Noted(m), connection.server,
                    if ok then MP.Outside(true) else MP.Failing);
      }
    }

    /** The loop of run(): one transaction for each step, until the limit is reached or something fails. */
    method RunSteps(direction: int, limit: nat)
      returns (error: Option<Error>, count: nat, failing: Option<Migration>, transaction: bool, ghost move: Move)
      requires Increasing(migrations) && limit <= |migrations|
      requires connection.server.transaction.None? && !connection.inTransaction
      modifies connection, this`signals
      ensures connection.isOpen == old(connection.isOpen)
      ensures !transaction ==> !connection.inTransaction
      ensures LoopEnded(dialect, Task(direction, limit), old(connection.server), connection.server,
                        error, count, failing, transaction, move)
      ensures signals == old(signals) + Announce(Steps(migrations, move.first, move.told))
    {
      hide AtHead, Chose, StepEnded, LoopEnded, Steps, Increasing, CountOr0;
      ghost var task, start := Task(direction, limit), connection.server;
      error, count, failing, transaction := None, 0, None, false;
      ghost var first: nat := CountOr0(start.committed.history, migrations);
      ghost var at: nat := first;
      move := Move(first, first, first);
      LoopStarts(dialect, task, start, first);
      while true
        invariant connection.isOpen == old(connection.isOpen)
        invariant !transaction && failing.None? && error.None?
        invariant connection.server.transaction.None? && !connection.inTransaction
        invariant first <= |migrations| && at <= |migrations| && move == Move(first, at, at)
        invariant AtHead(dialect, task, start, connection.server, first, at)
        invariant signals == old(signals) + Announce(Steps(migrations, first, at))
        decreases if at < limit then limit - at else at - limit
      {
        ghost var head := connection.server;
        var turn;
        error, count, turn, transaction := ChooseStep(direction, limit);
        TurnIsChosen(dialect, task, start, head, connection.server, first, at, error, count, turn, transaction);
        if error.Some? {
          return;
        }
        match turn
        case Reached =>
          return;
        case Irreversible(m) =>
          failing := Some(m);
          error := Some(NotSupported);
          return;
        case Perform(m) =>
          failing := Some(m);
          ghost var next: nat := if direction > 0 then at + 1 else at - 1;
          ghost var chosen := connection.server;
          var performed := PerformStep(m, direction < 0, task);
          move := StepIsTaken(dialect, task, start, head, chosen, m, connection.server, first, at, count, transaction, performed);
          if !performed {
            error := Some(StatementFailed);
            return;
          }
          transaction := false;
          signals := signals + [Applied(m.entry, direction < 0)];
          AnnounceMore(Steps(migrations, first, at), if direction < 0 then Down(m.entry) else Up(m.entry));
          failing := None;
          at := next;
      }
    }

    /** Takes the lock of the dialect; SQLite only lengthens its timeout, since BEGIN IMMEDIATE is its lock. */
    method AcquireLock(ghost task: MP.Task)
      returns (error: Option<Error>, locked: bool, locker: bool, restore: Option<int>)
      requires !tableLock && connection.server.transaction.None? && MP.TaskOk(task)
      modifies connection`server, this`tableLock
      ensures connection.server == old(connection.server).(
                advisoryLock := connection.server.advisoryLock, busyTimeout := connection.server.busyTimeout)
      ensures error.None? ==> dialect in {Sqlite, Postgres, Mysql} && (dialect != Sqlite ==> locked)
      ensures error != Some(IntegrityError)
      ensures dialect == Postgres ==> (locked <==> error.None?)
      ensures dialect == Postgres ==> connection.server.advisoryLock == (old(connection.server.advisoryLock) || locked)
      ensures dialect != Postgres ==> connection.server.advisoryLock == old(connection.server.advisoryLock)
      ensures tableLock ==> locker
      ensures dialect == Mysql ==> tableLock == locked
      ensures dialect == Sqlite && error.None? ==> connection.server.busyTimeout == SQLITE_BUSY_MS && restore.Some?
      ensures restore.Some? ==> dialect == Sqlite
      ensures if restore.Some? then restore.value == old(connection.server.busyTimeout)
              else connection.server.busyTimeout == old(connection.server.busyTimeout)
      ensures Follows(dialect, task, old(connection.server), MP.Starting, connection.server,
                      if error.None? then MP.Outside(false) else MP.Finished(false))
    {
      hide Follows, MP.TaskOk;
      error, locked, locker, restore := None, false, false, None;
      match dialect {
      case Postgres =>
        locked := connection.Execute(Lock);
        error := if locked then None else Some(StatementFailed);
      case Mysql =>
        locker := *;
        var created: bool, taken: bool := *, *;
        locked := locker && created && taken;
        tableLock := locked;
        error := if locked then None else Some(StatementFailed);
      case Sqlite =>
        restore := connection.QueryBusyTimeout();
        var ok := false;
        if restore.Some? {
          ok := connection.Execute(SetBusyTimeout(SQLITE_BUSY_MS));
        }
        error := if ok then None else Some(StatementFailed);
      case OtherDialect =>
        error := Some(NotSupported);
      }
      LockFollows(dialect, task, old(connection.server), connection.server, error.None?);
    }

    /** CREATE TABLE IF NOT EXISTS schema_migrations, in a transaction of its own. */
    method EnsureTable(ghost task: MP.Task) returns (ok: bool, transaction: bool)
      requires connection.server.transaction.None? && !connection.inTransaction && MP.TaskOk(task)
      modifies connection
      ensures connection.isOpen == old(connection.isOpen)
      ensures connection.server.committed == old(connection.server.committed)
      ensures SameSession(old(connection.server), connection.server)
      ensures transaction ==> dialect != Mysql
      ensures !transaction ==> connection.server.transaction.None? && !connection.inTransaction
      ensures ok ==> !transaction
      ensures Follows(dialect, task, old(connection.server), MP.Outside(false), connection.server,
                      if ok then MP.Outside(true) else AfterLoop(true, transaction))
    {
      hide Follows, MP.TaskOk;
      ghost var start := connection.server;
      transaction := false;
      ok := BeginMigration();
      BeginFollows(dialect, task, start, false, connection.server, ok);
      if ok {
        ghost var open := connection.server;
        transaction := dialect != Mysql;
        ok := connection.Execute(CreateHistory);
        if ok {
          ok := EndMigration(true);
          transaction := transaction && !ok;
          CommitFollows(dialect, task, open, MP.Creating, connection.server, ok);
          FollowsThen(dialect, task, start, MP.Outside(false), open, MP.Creating, connection.server,
                      if ok then MP.Outside(true) else MP.Failing);
        } else {
          FailureFollows(dialect, task, open, MP.Creating);
          FollowsThen(dialect, task, start, MP.Outside(false), open, MP.Creating, open, MP.Failing);
          FollowsOnMysql(task, start, MP.Outside(false), open, MP.Releasing(false));
        }
      }
    }

    /** The cleanup at the end of run(). */
    method CleanUp(transaction: bool, locked: bool, locker: bool, restore: Option<int>,
                   ghost task: MP.Task, ghost from: MP.Phase) returns (ok: bool)
      requires MP.TaskOk(task) && (transaction <==> from.Failing?)
      requires from.Failing? || from.Releasing? || from == MP.Finished(false)
      requires transaction ==> dialect != Mysql
      requires !transaction ==> connection.server.transaction.None? && !connection.inTransaction
      requires connection.server.advisoryLock ==> dialect == Postgres && locked && !from.Finished?
      requires restore.Some? ==> dialect == Sqlite
      requires tableLock ==> locker
      modifies connection, this`tableLock
      ensures connection.server.committed == old(connection.server.committed)
      ensures connection.server.unreported == old(connection.server.unreported)
      ensures connection.isOpen ==> old(connection.isOpen)
      ensures connection.server.transaction.None? && !connection.inTransaction
      ensures !connection.server.advisoryLock && !tableLock
      ensures connection.isOpen && ok ==>
                connection.server.busyTimeout
                == if restore.Some? then restore.value else old(connection.server.busyTimeout)
      ensures Follows(dialect, task, old(connection.server), from, connection.server,
                      MP.Finished(ok && from == MP.Releasing(true)))
    {
      hide Follows, MP.TaskOk;
      ghost var start, at := connection.server, from;
      FollowsNothing(dialect, task, start, start, from);
      if transaction {
        at := EndFailed(task, start);
      }
      ok := Release(locked, restore, task, start, from, at);
      if locker {
        tableLock := false;
      }
    }

    /** Rolls back, or closes the connection when that fails. */
    method EndFailed(ghost task: MP.Task, ghost start: Server) returns (ghost at: MP.Phase)
      requires MP.TaskOk(task) && dialect != Mysql && start == connection.server
      modifies connection
      ensures connection.isOpen ==> old(connection.isOpen)
      ensures connection.server.transaction.None? && !connection.inTransaction
      ensures at == MP.Releasing(false) || (at == MP.Finished(false) && !connection.isOpen)
      ensures connection.server == old(connection.server).(
                transaction := None,
                advisoryLock := old(connection.server.advisoryLock) && at.Releasing?)
      ensures Follows(dialect, task, start, MP.Failing, connection.server, at)
    {
      hide Follows, MP.TaskOk;
      var ended := EndMigration(false);
      if ended {
        RollbackFollows(dialect, task, start, connection.server);
        return MP.Releasing(false);
      }
      connection.Close();
      CloseFollows(dialect, task, start, MP.Failing);
      return MP.Finished(false);
    }

    /** The advisory unlock and the SQLite timeout. */
    method Release(locked: bool, restore: Option<int>, ghost task: MP.Task, ghost start: Server, ghost from: MP.Phase,
                   ghost at: MP.Phase) returns (ok: bool)
      requires MP.TaskOk(task) && (at.Releasing? || at == MP.Finished(false)) && Follows(dialect, task, start, from, connection.server, at)
      requires Covered(dialect, start, from) && at.Releasing? ==> Covered(dialect, connection.server, at)
      requires connection.server.transaction.None? && !connection.inTransaction
      requires connection.server.advisoryLock ==> dialect == Postgres && locked && at.Releasing?
      requires restore.Some? ==> dialect == Sqlite
      modifies connection
      ensures connection.isOpen ==> old(connection.isOpen)
      ensures connection.server == old(connection.server).(advisoryLock := false, busyTimeout := connection.server.busyTimeout)
      ensures !connection.inTransaction
      ensures connection.isOpen && ok ==>
                connection.server.busyTimeout
                == if restore.Some? then restore.value else old(connection.server.busyTimeout)
      ensures Follows(dialect, task, start, from, connection.server, MP.Finished(ok && at == MP.Releasing(true)))
    {
      hide Follows, MP.TaskOk;
      ghost var before := connection.server;
      ok := true;
      if locked && dialect == Postgres {
        var released := connection.Execute(Unlock);
        if !released {
          connection.Close();
          ok := false;
        }
      }
      if restore.Some? && connection.isOpen {
        var restored := connection.Execute(SetBusyTimeout(restore.value));
        ok := ok && restored;
      }
      ReleaseEnds(dialect, task, start, from, before, at, connection.server, ok);
    }

    /** How many migrations a target asks for; the list is searched by version. */
    method ResolveTarget(target: int, direction: int) returns (limit: Option<nat>)
      requires Increasing(migrations) && (forall m | m in migrations :: m.entry.version > 0)
      ensures limit == Limit(migrations, target, direction)
      ensures limit.None? <==> !Names(migrations, target)
      ensures limit.Some? && target == 0 ==> limit.value == if direction > 0 then |migrations| else 0
      ensures limit.Some? && target != 0 ==>
                0 < limit.value <= |migrations| && migrations[limit.value - 1].entry.version == target
    {
      var found: nat := 0;
      for i := 0 to |migrations|
        invariant found <= i
        invariant found == 0 <==> forall k | 0 <= k < i :: migrations[k].entry.version != target
        invariant found > 0 ==> migrations[found - 1].entry.version == target
      {
        if migrations[i].entry.version == target {
          found := i + 1;
        }
      }
      if target < 0 || (target != 0 && found == 0) {
        limit := None;
      } else if target == 0 && direction > 0 {
        limit := Some(|migrations|);
      } else {
        limit := Some(found);
        assert found > 0 ==> migrations[found - 1].entry.version == target;
      }
    }

    /** The two lists of versions that status() hands out. */
    method Split(count: nat) returns (applied: seq<int64>, pending: seq<int64>)
      requires count <= |migrations|
      ensures applied == Versions(migrations[..count]) && pending == Versions(migrations[count..])
    {
      applied, pending := [], [];
      for i := 0 to |migrations|
        invariant applied == Versions(migrations[..if i < count then i else count])
        invariant pending == if i < count then [] else Versions(migrations[count..i])
      {
        if i < count {
          applied := applied + [migrations[i].entry.version];
        } else {
          pending := pending + [migrations[i].entry.version];
        }
      }
      assert migrations[count..|migrations|] == migrations[count..];
    }

    /** run() from the moment its running flag is set. */
    method Conduct(direction: int, limit: nat)
      returns (error: Option<Error>, count: nat, failing: Option<Migration>, ghost move: Move)
      requires Increasing(migrations) && limit <= |migrations|
      requires connection.isOpen && !connection.inTransaction && connection.server.transaction.None?
      requires !running && !tableLock && !connection.server.advisoryLock
      modifies this, connection
      // every exit releases what was taken
      ensures !running && !tableLock && !connection.server.advisoryLock
      ensures connection.server.transaction.None? && !connection.inTransaction
      ensures connection.isOpen && error.None? ==>
                connection.server.busyTimeout == old(connection.server.busyTimeout)
      // what is committed is a whole number of consecutive steps of the list
      ensures move.first == CountOr0(old(connection.server.committed.history), migrations)
      ensures move.last == move.first || IsPrefix(old(connection.server.committed.history), migrations, move.first)
      ensures Faithful(move, migrations, direction, limit, failing,
                       connection.server.unreported > old(connection.server.unreported))
      ensures dialect != Mysql || error.None? ==>
                connection.server.committed
                == Advance(old(connection.server.committed), migrations, move.first, move.last)
      ensures dialect == Mysql ==>
                connection.server.committed.history
                == Advance(old(connection.server.committed), migrations, move.first, move.last).history
      ensures error.None? ==>
                && failing.None?
                && count == move.told == move.last == Destination(direction, limit, move.first)
                && IsPrefix(old(connection.server.committed.history), migrations, move.first)
      ensures error == Some(IntegrityError) ==>
                AppliedCount(old(connection.server.committed.history), migrations).None?
      // each committed step was announced in order; at most one failure is announced, last
      ensures signals == old(signals) + Announce(Steps(migrations, move.first, move.told)) + Failure(failing)
      ensures failing.Some? ==>
                error.Some? && FailsAt(failing.value, migrations, direction, limit, move.told, error.value)
      // the call is a whole run of one process of the concurrent system
      ensures Follows(dialect, Task(direction, limit), old(connection.server), MP.Starting,
                      connection.server, MP.Finished(error.None?))
    {
      hide Advance, Steps, Announce, Decide, Destination, CountOr0, AppliedCount, IsPrefix, Increasing, Follows;
      ghost var task, start := Task(direction, limit), connection.server;
      ghost var phase: MP.Phase := MP.Finished(false);
      running := true;
      error, count, failing := None, 0, None;
      ghost var first: nat := CountOr0(connection.server.committed.history, migrations);
      move := Move(first, first, first);
      NoMove(connection.server.committed, migrations, direction, limit, first);
      var transaction := false;
      var locked, locker, restore;
      error, locked, locker, restore := AcquireLock(task);
      if error.None? {
        ghost var acquired := connection.server;
        var created;
        created, transaction := EnsureTable(task);
        FollowsThen(dialect, task, start, MP.Starting, acquired, MP.Outside(false), connection.server,
                    if created then MP.Outside(true) else AfterLoop(true, transaction));
        if created {
          ghost var ready := connection.server;
          error, count, failing, transaction, move := RunSteps(direction, limit);
          FollowsThen(dialect, task, start, MP.Starting, ready, MP.Outside(true), connection.server,
                      AfterLoop(error.Some?, transaction));
        } else {
          error := Some(StatementFailed);
        }
        phase := AfterLoop(error.Some?, transaction);
      }
      ghost var ended := connection.server;
      var clean := CleanUp(transaction, locked, locker, restore, task, phase);
      FollowsThen(dialect, task, start, MP.Starting, ended, phase, connection.server,
                  MP.Finished(clean && phase == MP.Releasing(true)));
      if !clean && error.None? {
        error := Some(StatementFailed);
      }
      if failing.Some? {
        signals := signals + [Failed(failing.value.entry)];
      }
      running := false;
    }

    /** run(): status (direction 0), up (1) and down (-1). */
    method Run(target: int, direction: int)
      returns (error: Option<Error>, applied: seq<int64>, pending: seq<int64>, ghost failing: Option<Migration>, ghost move: Move)
      requires Increasing(migrations) && (forall m | m in migrations :: m.entry.version > 0)
      requires !tableLock && !connection.server.advisoryLock
      requires connection.isOpen && !connection.inTransaction ==> connection.server.transaction.None?
      modifies this, connection
      ensures Refuses(old(connection.isOpen), old(connection.inTransaction), old(running), migrations, target, direction) ==>
                && error == Some(InvalidOperation)
                && connection.server == old(connection.server) && connection.isOpen == old(connection.isOpen)
                && connection.inTransaction == old(connection.inTransaction)
                && running == old(running) && signals == old(signals)
      ensures !Refuses(old(connection.isOpen), old(connection.inTransaction), old(running), migrations, target, direction) ==>
                && !running && !tableLock && !connection.server.advisoryLock
                && connection.server.transaction.None? && !connection.inTransaction
                && move.first == CountOr0(old(connection.server.committed.history), migrations)
                && Limit(migrations, target, direction).Some?
                && Faithful(move, migrations, direction, Limit(migrations, target, direction).value, failing,
                            connection.server.unreported > old(connection.server.unreported))
                && (dialect != Mysql || error.None? ==>
                      connection.server.committed
                      == Advance(old(connection.server.committed), migrations, move.first, move.last))
                && Tells(old(signals), signals, migrations, direction, move, failing)
                && (failing.Some? ==>
                      error.Some?
                      && FailsAt(failing.value, migrations, direction, Limit(migrations, target, direction).value,
                                 move.told, error.value))
      // on SQLite and PostgreSQL the call is a whole run of one process of the concurrent system
      ensures !Refuses(old(connection.isOpen), old(connection.inTransaction), old(running), migrations, target, direction) ==>
                Follows(dialect, Task(direction, Limit(migrations, target, direction).value), old(connection.server),
                        MP.Starting, connection.server, MP.Finished(error.None?))
      // there the bookkeeping stays truthful about the schema, whatever failed
      ensures (dialect != Mysql || error.None?) && old(Consistent(connection.server.committed)) ==>
                Consistent(connection.server.committed)
      ensures error.None? ==>
                && Limit(migrations, target, direction).Some? && failing.None?
                && move.last == Destination(direction, Limit(migrations, target, direction).value, move.first)
                && IsPrefix(old(connection.server.committed.history), migrations, move.first)
                && (connection.isOpen ==> connection.server.busyTimeout == old(connection.server.busyTimeout))
                && (direction == 0 ==>
                      applied == Versions(migrations[..move.first]) && pending == Versions(migrations[move.first..]))
      // success means that the target was reached, and nothing beyond it
      ensures error.None? ==>
                AtTarget(old(connection.server.committed.history), connection.server.committed.history,
                         migrations, target, direction)
      ensures error == Some(IntegrityError) ==>
                AppliedCount(old(connection.server.committed.history), migrations).None?
    {
      hide Advance, Steps, Announce, Decide, CountOr0, AppliedCount, IsPrefix, Limit, Increasing, Consistent, Follows,
        FailsAt, AtTarget, Tells, Destination;
      applied, pending, failing, move := [], [], None, Move(0, 0, 0);
      if !connection.isOpen || connection.inTransaction {
        return Some(InvalidOperation), [], [], None, move;
      }
      var limit := ResolveTarget(target, direction);
      if limit.None? || running {
        return Some(InvalidOperation), [], [], None, move;
      }
      var count;
      var failed: Option<Migration>;
      ghost var before, told := connection.server.committed, signals;
      error, count, failed, move := Conduct(direction, limit.value);
      MoveKeepsConsistent(before, migrations, move.first, move.last);
      AnnouncedInOrder(told, migrations, direction, move, failed);
      if error.None? {
        TargetIsReached(before, migrations, target, direction, move.first);
      }
      failing := failed;
      if error.None? && direction == 0 {
        applied, pending := Split(count);
      }
    }
  }

  /** The end of a call, after what it did before. */
  lemma ReleaseEnds(dialect: Dialect, task: MP.Task, start: Server, from: MP.Phase, before: Server, at: MP.Phase,
                    after: Server, ok: bool)
    requires MP.TaskOk(task) && (at.Releasing? || at == MP.Finished(false))
    requires Follows(dialect, task, start, from, before, at)
    requires Covered(dialect, start, from) && at.Releasing? ==> Covered(dialect, before, at)
    requires before.transaction.None?
    requires after == before.(advisoryLock := false, busyTimeout := after.busyTimeout)
    requires before.advisoryLock ==> at.Releasing?
    ensures Follows(dialect, task, start, from, after, MP.Finished(ok && at == MP.Releasing(true)))
  {
    hide Follows, MP.TaskOk;
    if at.Releasing? {
      ReleaseFollows(dialect, task, before, at.ok, after, ok);
      FollowsThen(dialect, task, start, from, before, at, after, MP.Finished(at.ok && ok));
    } else {
      FollowsNothing(dialect, task, before, after, at);
      FollowsThen(dialect, task, start, from, before, at, after, at);
    }
  }

  /** The target is zero, or the version of a migration of the list. */
  predicate Names(list: seq<Migration>, target: int) {
    target == 0 || exists i | 0 <= i < |list| :: list[i].entry.version == target
  }

  /** When a call is turned away before it touches anything. */
  predicate Refuses(isOpen: bool, inTransaction: bool, running: bool, list: seq<Migration>, target: int, direction: int) {
    !isOpen || inTransaction || running || !Names(list, target)
  }

  /**
   What a call that succeeded has made of the history, by version: going up, the listed versions up to
   the target have joined what was there, all of them when the target is zero; going down, what is
   above the target has left it.
   */
  ghost predicate AtTarget(before: map<int64, Record>, after: map<int64, Record>, list: seq<Migration>, target: int,
                           direction: int) {
    forall v: int64 ::
      v in after <==> if direction > 0 then
                        v in before || ((target == 0 || v <= target) && exists i | 0 <= i < |list| :: list[i].entry.version == v)
                      else v in before && (direction == 0 || v <= target)
  }

  /** What a call announces: each step it is known to have committed, in order, and then the migration it failed at. */
  predicate Tells(before: seq<Signal>, after: seq<Signal>, list: seq<Migration>, direction: int, move: Move,
                  failing: Option<Migration>) {
    var n := if direction > 0 then move.told - move.first else move.first - move.told;
    && |after| == |before| + n + (if failing.Some? then 1 else 0) && n >= 0 && before <= after
    && (if direction > 0 then move.told <= |list| else move.first <= |list|)
    && (forall k | |before| <= k < |before| + n ::
          after[k] == if direction > 0 then Applied(list[move.first + (k - |before|)].entry, false)
                      else Applied(list[move.first - 1 - (k - |before|)].entry, true))
    && (failing.Some? ==> after[|before| + n] == Failed(failing.value.entry))
  }

  lemma AnnouncedStep(list: seq<Migration>, first: nat, told: nat, i: nat)
    requires first <= |list| && told <= |list| && i < (if first <= told then told - first else first - told)
    ensures Announce(Steps(list, first, told))[i]
            == if first <= told then Applied(list[first + i].entry, false) else Applied(list[first - 1 - i].entry, true)
  {
  }

  lemma AnnouncedInOrder(before: seq<Signal>, list: seq<Migration>, direction: int, move: Move, failing: Option<Migration>)
    requires move.first <= |list| && move.told <= |list|
    requires direction == 0 ==> move.told == move.first
    requires direction > 0 ==> move.first <= move.told
    requires direction < 0 ==> move.told <= move.first
    ensures Tells(before, before + Announce(Steps(list, move.first, move.told)) + Failure(failing), list, direction, move, failing)
  {
    hide Steps, Announce;
    var told, n := Announce(Steps(list, move.first, move.told)), |before|;
    var after := before + told + Failure(failing);
    forall k | n <= k < n + |told|
      ensures after[k] == if direction > 0 then Applied(list[move.first + (k - n)].entry, false)
                          else Applied(list[move.first - 1 - (k - n)].entry, true)
    {
      assert after[k] == told[k - n];
      AnnouncedStep(list, move.first, move.told, k - n);
    }
  }

  /** The history holds the versions of the first `count` migrations. */
  lemma PrefixVersions(history: map<int64, Record>, list: seq<Migration>, count: nat, v: int64)
    requires IsPrefix(history, list, count)
    ensures v in history <==> exists i :: 0 <= i < count && list[i].entry.version == v
  {
    var rows := Ordered(history);
    OrderedIsTable(history);
    StoredVersions(history, list, count);
    if i :| 0 <= i < count && list[i].entry.version == v {
      assert rows[i] in rows && RowMatches(rows[i], Entries(list[..count])[i]);
    }
  }

  lemma TargetIsReached(store: Store, list: seq<Migration>, target: int, direction: int, first: nat)
    requires Increasing(list) && (forall m | m in list :: m.entry.version > 0)
    requires first <= |list| && IsPrefix(store.history, list, first) && Limit(list, target, direction).Some?
    ensures var last := Destination(direction, Limit(list, target, direction).value, first);
            last <= |list|
            && AtTarget(store.history, Advance(store, list, first, last).history, list, target, direction)
  {
    hide Ordered, Matches, Advance;
    var limit := Limit(list, target, direction).value;
    var last := Destination(direction, limit, first);
    var after := Advance(store, list, first, last).history;
    AdvancePrefix(store, list, first, last);
    forall v: int64
      ensures v in after <==> if direction > 0 then
                                v in store.history || ((target == 0 || v <= target) && exists i | 0 <= i < |list| :: list[i].entry.version == v)
                              else v in store.history && (direction == 0 || v <= target)
    {
      PrefixVersions(store.history, list, first, v);
      PrefixVersions(after, list, last, v);
      assert forall i | 0 <= i < |list| :: list[i] in list;
      assert target != 0 ==> forall i | 0 <= i < |list| :: i < limit <==> list[i].entry.version <= target;
    }
  }

  lemma MoveKeepsConsistent(store: Store, list: seq<Migration>, first: nat, last: nat)
    requires Increasing(list) && first <= |list| && last <= |list|
    requires last == first || IsPrefix(store.history, list, first)
    ensures Consistent(store) ==> Consistent(Advance(store, list, first, last))
  {
    hide Increasing, IsPrefix, Consistent, Advance;
    if Consistent(store) {
      if first == last {
        AdvanceLast(store, list, first, last);
      } else {
        AdvanceKeeps(store, list, first, last);
      }
    }
  }

  function Failure(failing: Option<Migration>): seq<Signal> {
    if failing.Some? then [Failed(failing.value.entry)] else []
  }

  lemma NoMove(store: Store, list: seq<Migration>, direction: int, limit: nat, first: nat)
    requires limit <= |list| && first <= |list|
    ensures Faithful(Move(first, first, first), list, direction, limit, None, false)
    ensures Advance(store, list, first, first) == store
    ensures Announce(Steps(list, first, first)) == []
  {
  }

  function Versions(list: seq<Migration>): (versions: seq<int64>)
    ensures |versions| == |list| && forall i | 0 <= i < |list| :: versions[i] == list[i].entry.version
  {
    seq(|list|, i requires 0 <= i < |list| => list[i].entry.version)
  }

  /** How many migrations of the list a target asks for; None when it names none of them. */
  ghost function Limit(list: seq<Migration>, target: int, direction: int): (limit: Option<nat>)
    ensures limit.None? <==> !Names(list, target)
    ensures limit.Some? ==> limit.value <= |list|
    ensures limit.Some? && target != 0 ==> 0 < limit.value && list[limit.value - 1].entry.version == target
  {
    if target == 0 then Some(if direction > 0 then |list| else 0)
    else if exists i: nat :: i < |list| && list[i].entry.version == target then
      var i: nat :| i < |list| && list[i].entry.version == target;
      Some(i + 1)
    else None
  }

  /** The state at the head of the loop: `at` migrations are applied, reached by whole steps from `first`. */
  ghost predicate On(start: Store, list: seq<Migration>, direction: int, limit: nat, first: nat, at: nat, store: Store) {
    && limit <= |list| && first <= |list| && at <= |list|
    && first == CountOr0(start.history, list)
    && Faithful(Move(first, at, at), list, direction, limit, None, false)
    && store == Advance(start, list, first, at)
    && (IsPrefix(start.history, list, first) ==> IsPrefix(store.history, list, at))
    && (!IsPrefix(start.history, list, first) ==> at == first)
  }

  lemma OnStart(start: Store, list: seq<Migration>, direction: int, limit: nat, first: nat)
    requires limit <= |list| && first == CountOr0(start.history, list)
    ensures On(start, list, direction, limit, first, first, start)
    ensures Announce(Steps(list, first, first)) == []
  {
  }

  lemma OnMeans(start: Store, list: seq<Migration>, direction: int, limit: nat, first: nat, at: nat, store: Store)
    requires On(start, list, direction, limit, first, at, store)
    ensures limit <= |list| && first <= |list| && at <= |list|
    ensures forall failing, lost :: Faithful(Move(first, at, at), list, direction, limit, failing, lost)
    ensures store == Advance(start, list, first, at) && first == CountOr0(start.history, list)
    ensures AppliedCount(store.history, list).None? ==> AppliedCount(start.history, list).None?
  {
    hide Advance, Ordered, Matches;
  }

  lemma LostAnswer(start: Store, list: seq<Migration>, direction: int, limit: nat, move: Move, m: Migration)
    requires limit <= |list| && move.first <= |list| && move.told <= |list|
    requires Faithful(Move(move.first, move.told, move.told), list, direction, limit, None, false)
    requires Decide(list, direction, limit, move.told) == Perform(m)
    requires move.last == if direction > 0 then move.told + 1 else move.told - 1
    ensures Faithful(move, list, direction, limit, Some(m), true)
  {
  }

  lemma AnnounceMore(ops: seq<Operation>, op: Operation)
    ensures Announce(ops + [op]) == Announce(ops) + [Applied(op.entry, op.Down?)]
  {
  }

  /** What a turn of the loop finds. */
  lemma TurnFinds(start: Store, list: seq<Migration>, direction: int, limit: nat, first: nat, at: nat, store: Store,
                  count: nat)
    requires On(start, list, direction, limit, first, at, store) && IsPrefix(store.history, list, count)
    ensures count == at && IsPrefix(start.history, list, first)
    ensures Decide(list, direction, limit, count).Reached? ==> at == Destination(direction, limit, first)
    ensures var turn := Decide(list, direction, limit, count);
            && (turn.Perform? ==>
                  (if direction > 0 then at < limit else direction < 0 && at > limit)
                  && FailsAt(turn.migration, list, direction, limit, at, StatementFailed))
            && (turn.Irreversible? ==> FailsAt(turn.migration, list, direction, limit, at, NotSupported))
  {
    hide Ordered, Matches;
    PrefixIsUnique(store.history, list, count, at);
  }

  /** One more step in the direction of travel. */
  lemma TurnMoves(start: Store, list: seq<Migration>, direction: int, limit: nat, first: nat, at: nat, store: Store)
    requires Increasing(list) && On(start, list, direction, limit, first, at, store)
    requires IsPrefix(store.history, list, at) && Decide(list, direction, limit, at).Perform?
    ensures var m := Decide(list, direction, limit, at).migration;
            var next := if direction > 0 then at + 1 else at - 1;
            && next <= |list|
            && On(start, list, direction, limit, first, next, Stepped(store, m, direction < 0))
            && Stepped(store, m, direction < 0) == Advance(start, list, first, next)
            && Steps(list, first, next)
               == Steps(list, first, at) + [if direction < 0 then Down(m.entry) else Up(m.entry)]
  {
    hide Stepped, IsPrefix, Increasing, CountOr0;
    StepKeepsPrefix(store, list, direction < 0, at);
  }

  /** What a statement of a migration leaves alone in its session. */
  ghost predicate SameSession(before: Server, after: Server) {
    && after.advisoryLock == before.advisoryLock
    && after.busyTimeout == before.busyTimeout
    && before.unreported <= after.unreported
  }

  /** Where a successful call ends when nobody else writes. */
  function Destination(direction: int, limit: nat, first: nat): nat {
    if direction == 0 then first
    else if direction > 0 then (if first < limit then limit else first)
    else (if first > limit then limit else first)
  }
}
