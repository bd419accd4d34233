/** A database session as the migrator uses it: its statements, how they succeed and how they fail. */
module MigrationServer {
  import opened Common
  import opened MigrationHistory

  datatype Dialect = Sqlite | Postgres | Mysql | OtherDialect

  /** What the server knows about one session: its open transaction, its lock and its timeout. */
  datatype Server = Server(
    committed: Store,
    transaction: Option<Store>,
    advisoryLock: bool,
    busyTimeout: int,
    unreported: nat)  // how many COMMITs took effect although they were reported as failed

  datatype Statement =
    | Begin | Commit | Rollback | CreateHistory
    | RunStep(migration: Migration, down: bool)
    | RecordStep(migration: Migration, down: bool)
    | SetBusyTimeout(milliseconds: int)
    | Lock | Unlock

  const SQLITE_BUSY_MS := 30000

  /** The store a statement of this session reads and writes. */
  function Current(server: Server): Store {
    if server.transaction.Some? then server.transaction.value else server.committed
  }

  function Write(server: Server, store: Store): Server {
    if server.transaction.Some? then server.(transaction := Some(store)) else server.(committed := store)
  }

  /** A statement that reports success did exactly this. */
  predicate Succeeds(before: Server, statement: Statement, after: Server) {
    match statement
    case Begin => before.transaction.None? && after == before.(transaction := Some(before.committed))
    case Commit => before.transaction.Some?
                   && after == before.(committed := before.transaction.value, transaction := None)
    case Rollback => after == before.(transaction := None)
    case CreateHistory => after == before
    case RunStep(m, down) => after == Write(before, Performed(Current(before), m, down))
    case RecordStep(m, down) =>
      && (!down ==> m.entry.version !in Current(before).history)
      && after == Write(before, Recorded(Current(before), m, down))
    case SetBusyTimeout(milliseconds) => after == before.(busyTimeout := milliseconds)
    case Lock => after == before.(advisoryLock := true)
    case Unlock => after == before.(advisoryLock := false)
  }

  /**
   A statement that reports failure changed nothing, except that a step may have done any part
   of its work on the schema and that a COMMIT may have dropped the transaction or have taken effect unseen.
   */
  ghost predicate Fails(before: Server, statement: Statement, after: Server) {
    || after == before
    || (statement.RunStep? && exists log :: after == Write(before, Current(before).(log := log)))
    || (statement.Commit? && before.transaction.Some?
        && (|| after == before.(transaction := None)
            || after == before.(committed := before.transaction.value, transaction := None,
                                unreported := before.unreported + 1)))
  }

  /** What closing the session leaves behind. */
  function Closed(server: Server): Server {
    server.(transaction := None, advisoryLock := false)
  }

  /** A connection, as far as the migrator is concerned. */
  class Connection {
    var isOpen: bool
    var inTransaction: bool
    var server: Server

    /** orm_connection_execute(); a closed connection refuses every statement. */
    method Execute(statement: Statement) returns (ok: bool)
      modifies this`server
      ensures ok ==> isOpen && Succeeds(old(server), statement, server)
      ensures !ok ==> Fails(old(server), statement, server)
      ensures !isOpen ==> !ok && server == old(server)
    {
      ok := *;
      if !isOpen {
        return false;
      }
      var partial: seq<Operation> := *;
      var choice: int := *;
      var before := server;
      match statement
      case Begin =>
        ok := ok && before.transaction.None?;
        if ok { server := server.(transaction := Some(server.committed)); }
      case Commit =>
        if before.transaction.None? {
          ok := false;
        } else if ok {
          server := before.(committed := before.transaction.value, transaction := None);
        } else if choice == 0 {
          server := before.(transaction := None);
        } else if choice == 1 {
          server := before.(committed := before.transaction.value, transaction := None,
                            unreported := before.unreported + 1);
        }
      case Rollback =>
        if ok { server := server.(transaction := None); }
      case CreateHistory =>
      case RunStep(m, down) =>
        server := Write(before, if ok then Performed(Current(before), m, down) else Current(before).(log := partial));
      case RecordStep(m, down) =>
        ok := ok && (!down ==> m.entry.version !in Current(before).history);
        if ok { server := Write(before, Recorded(Current(before), m, down)); }
      case SetBusyTimeout(milliseconds) =>
        if ok { server := server.(busyTimeout := milliseconds); }
      case Lock =>
        if ok { server := server.(advisoryLock := true); }
      case Unlock =>
        if ok { server := server.(advisoryLock := false); }
    }

    /** The history query; a fetch that breaks off leaves the rows it had already delivered. */
    method QueryHistory() returns (ok: bool, rows: seq<HistoryRow>, broken: bool)
      ensures ok ==> isOpen
      ensures rows <= Ordered(Current(server).history)
      ensures ok && !broken ==> rows == Ordered(Current(server).history)
    {
      var all := SortedRows(Current(server).history);
      ok, broken := *, *;
      ok := ok && isOpen;
      rows := all;
      if broken {
        var delivered :| 0 <= delivered <= |all|;
        rows := all[..delivered];
      }
    }

    /** PRAGMA busy_timeout; the scalar may be missing. */
    method QueryBusyTimeout() returns (milliseconds: Option<int>)
      ensures milliseconds.Some? ==> isOpen && milliseconds.value == server.busyTimeout
    {
      var ok: bool := *;
      milliseconds := if isOpen && ok then Some(server.busyTimeout) else None;
    }

    /** orm_connection_close(); safe to call more than once. */
    method Close()
      modifies this
      ensures !isOpen && !inTransaction
      ensures server == Closed(old(server))
    {
      server := Closed(server);
      isOpen := false;
      inTransaction := false;
    }
  }

  /** ORDER BY version, computed. */
  method SortedRows(history: map<int64, Record>) returns (rows: seq<HistoryRow>)
    ensures rows == Ordered(history)
  {
    rows := [];
    var rest := history;
    while rest != map[]
      invariant Ordered(history) == Ordered(rest) + rows
      decreases |rest|
    {
      HasGreatest(rest.Keys);
      var v :| v in rest.Keys && IsGreatest(v, rest.Keys);
      rows := [HistoryRow(v, rest[v])] + rows;
      rest := rest - {v};
    }
  }
}
