/**
 One migrator's session seen as a process of the concurrent system: each statement that the
 session sends, succeeding or failing, is one step of that process.
 */
module MigrationSteps {
  import opened Common
  import opened MigrationHistory
  import opened MigrationServer
  import MP = MigrationProcesses

  /** The system with this one migrator in it. */
  function Lone(dialect: Dialect, task: MP.Task, server: Server, phase: MP.Phase): MP.System {
    MP.System(
      dialect == Postgres,
      server.committed,
      if (if dialect == Postgres then server.advisoryLock else server.transaction.Some?) then Some(0) else None,
      [MP.Process(task, phase, server.transaction)])
  }

  ghost predicate Reaches(s: MP.System, t: MP.System) {
    exists actions :: MP.Run(s, actions) == Some(t)
  }

  /** The databases with transactional DDL; PostgreSQL's advisory lock is held between the first phase and the last. */
  predicate Covered(dialect: Dialect, server: Server, phase: MP.Phase) {
    dialect == Sqlite || (dialect == Postgres && (server.advisoryLock <==> !phase.Starting? && !phase.Finished?))
  }

  /** What the session did is a run of its process from one phase to another. */
  ghost predicate Follows(dialect: Dialect, task: MP.Task, before: Server, from: MP.Phase, after: Server, to: MP.Phase) {
    Covered(dialect, before, from) ==> Reaches(Lone(dialect, task, before, from), Lone(dialect, task, after, to))
  }

  /** What the process does not show leaves it where it is. */
  lemma FollowsNothing(dialect: Dialect, task: MP.Task, before: Server, after: Server, phase: MP.Phase)
    requires after == before.(busyTimeout := after.busyTimeout)
    ensures Follows(dialect, task, before, phase, after, phase)
  {
    var s := Lone(dialect, task, before, phase);
    assert MP.Run(s, []) == Some(s);
  }

  lemma {:induction false} RunsCompose(s: MP.System, first: seq<MP.Action>, second: seq<MP.Action>)
    requires MP.Run(s, first).Some?
    ensures MP.Run(s, first + second) == MP.Run(MP.Run(s, first).value, second)
    decreases |second|
  {
    hide MP.Step, MP.Shaped;
    if second == [] {
      assert first + second == first;
    } else {
      var front := second[..|second| - 1];
      assert (first + second)[..|first + second| - 1] == first + front;
      RunsCompose(s, first, front);
    }
  }

  lemma FollowsOnMysql(task: MP.Task, before: Server, from: MP.Phase, after: Server, to: MP.Phase)
    ensures Follows(Mysql, task, before, from, after, to)
  {
  }

  lemma FollowsThen(dialect: Dialect, task: MP.Task, a: Server, p: MP.Phase, b: Server, q: MP.Phase, c: Server, r: MP.Phase)
    requires Follows(dialect, task, a, p, b, q) && Follows(dialect, task, b, q, c, r)
    requires Covered(dialect, a, p) ==> Covered(dialect, b, q)
    ensures Follows(dialect, task, a, p, c, r)
  {
    hide Lone, MP.Run, Covered;
    if Covered(dialect, a, p) {
      var s, t := Lone(dialect, task, a, p), Lone(dialect, task, b, q);
      var first :| MP.Run(s, first) == Some(t);
      var second :| MP.Run(t, second) == Some(Lone(dialect, task, c, r));
      RunsCompose(s, first, second);
    }
  }

  predicate IsLone(s: MP.System, dialect: Dialect, task: MP.Task, server: Server, phase: MP.Phase) {
    var lone := Lone(dialect, task, server, phase);
    && s.advisory == lone.advisory && s.committed == lone.committed && s.holder == lone.holder
    && |s.processes| == 1 && s.processes[0] == lone.processes[0]
  }

  lemma OneStep(dialect: Dialect, task: MP.Task, before: Server, from: MP.Phase, after: Server, to: MP.Phase,
                ending: MP.Ending, debris: seq<Operation>)
    requires dialect != Mysql ==> MP.Shaped(Lone(dialect, task, before, from))
    requires Covered(dialect, before, from) ==>
               var t := MP.Step(Lone(dialect, task, before, from), MP.Action(0, ending, debris));
               t.Some? && IsLone(t.value, dialect, task, after, to)
    ensures Follows(dialect, task, before, from, after, to)
  {
    hide MP.Step, MP.Shaped, Lone, Covered;
    var s, a := Lone(dialect, task, before, from), MP.Action(0, ending, debris);
    if dialect != Mysql {
      assert [a][..0] == [] && MP.Run(s, []) == Some(s);
      assert MP.Run(s, [a]) == MP.Step(s, a);
      LoneIsOne(dialect, task, after, to);
    } else {
      NotCovered(before, from);
    }
  }

  lemma NotCovered(server: Server, phase: MP.Phase)
    ensures !Covered(Mysql, server, phase)
  {
  }

  lemma LoneIsOne(dialect: Dialect, task: MP.Task, server: Server, phase: MP.Phase)
    ensures forall s | IsLone(s, dialect, task, server, phase) :: s == Lone(dialect, task, server, phase)
  {
    var lone := Lone(dialect, task, server, phase);
    forall s | IsLone(s, dialect, task, server, phase) ensures s == lone {
      assert s.processes == lone.processes;
    }
  }

  lemma LoneIsShaped(dialect: Dialect, task: MP.Task, server: Server, phase: MP.Phase)
    requires MP.TaskOk(task) && (dialect != Mysql && MP.Inside(phase) ==> server.transaction.Some?)
    ensures dialect != Mysql ==> MP.Shaped(Lone(dialect, task, server, phase))
  {
  }

  // ---------------------------------------------------------------- statement by statement

  lemma LockFollows(dialect: Dialect, task: MP.Task, before: Server, after: Server, ok: bool)
    requires MP.TaskOk(task) && before.transaction.None?
    requires after == before.(advisoryLock := after.advisoryLock, busyTimeout := after.busyTimeout)
    requires dialect == Postgres ==> after.advisoryLock == (before.advisoryLock || ok)
    ensures Follows(dialect, task, before, MP.Starting, after, if ok then MP.Outside(false) else MP.Finished(false))
  {
    hide Increasing;
    LoneIsShaped(dialect, task, before, MP.Starting);
    OneStep(dialect, task, before, MP.Starting, after, if ok then MP.Outside(false) else MP.Finished(false),
            if ok then MP.Success else MP.Failure, []);
  }

  lemma BeginFollows(dialect: Dialect, task: MP.Task, before: Server, created: bool, after: Server, ok: bool)
    requires MP.TaskOk(task) && before.transaction.None?
    requires dialect != Mysql ==> if ok then Succeeds(before, Begin, after) else after == before
    ensures var to := if !ok then MP.Releasing(false) else if created then MP.Reading else MP.Creating;
            Follows(dialect, task, before, MP.Outside(created), after, to)
  {
    LoneIsShaped(dialect, task, before, MP.Outside(created));
    var to := if !ok then MP.Releasing(false) else if created then MP.Reading else MP.Creating;
    OneStep(dialect, task, before, MP.Outside(created), after, to, if ok then MP.Success else MP.Failure, []);
  }

  /** How a COMMIT ended. */
  function CommitEnding(before: Server, after: Server, ok: bool): MP.Ending {
    if ok then MP.Success
    else if after == before then MP.Failure
    else if after.committed == before.committed && after.unreported == before.unreported then MP.DroppedCommit
    else MP.UnreportedCommit
  }

  lemma CommitFollows(dialect: Dialect, task: MP.Task, before: Server, from: MP.Phase, after: Server, ok: bool)
    requires MP.TaskOk(task) && (from.Creating? || from.Noted? || from.Done?)
    requires dialect != Mysql ==> before.transaction.Some?
    requires dialect != Mysql ==> if ok then Succeeds(before, Commit, after) else Fails(before, Commit, after)
    ensures var to := if !ok then MP.Failing else if from.Done? then MP.Releasing(true) else MP.Outside(true);
            Follows(dialect, task, before, from, after, to)
  {
    LoneIsShaped(dialect, task, before, from);
    var to := if !ok then MP.Failing else if from.Done? then MP.Releasing(true) else MP.Outside(true);
    OneStep(dialect, task, before, from, after, to, CommitEnding(before, after, ok), []);
  }

  /** A statement of an open transaction that failed and left nothing. */
  lemma FailureFollows(dialect: Dialect, task: MP.Task, server: Server, from: MP.Phase)
    requires MP.TaskOk(task) && (from.Creating? || from.Reading? || from.Ran?)
    requires dialect != Mysql ==> server.transaction.Some?
    ensures Follows(dialect, task, server, from, server, MP.Failing)
  {
    LoneIsShaped(dialect, task, server, from);
    OneStep(dialect, task, server, from, server, MP.Failing, MP.Failure, []);
  }

  /** The phase that a turn's choice leads to. */
  function Chosen(turn: Turn): MP.Phase {
    match turn
    case Reached => MP.Done
    case Irreversible(_) => MP.Failing
    case Perform(m) => MP.Chosen(m)
  }

  lemma ReadFollows(dialect: Dialect, task: MP.Task, server: Server, count: nat)
    requires MP.TaskOk(task) && (dialect != Mysql ==> server.transaction.Some?)
    requires IsPrefix(Current(server).history, task.list, count)
    ensures Follows(dialect, task, server, MP.Reading, server, Chosen(Decide(task.list, task.direction, task.limit, count)))
  {
    assert count <= |task.list|;
    hide Increasing, IsPrefix, Decide;
    LoneIsShaped(dialect, task, server, MP.Reading);
    ChoiceIs(task, Current(server), count);
    OneStep(dialect, task, server, MP.Reading, server, Chosen(Decide(task.list, task.direction, task.limit, count)),
            MP.Success, []);
  }

  lemma ChoiceIs(task: MP.Task, work: Store, count: nat)
    requires task.limit <= |task.list| && IsPrefix(work.history, task.list, count)
    ensures MP.Choice(task, work) == Chosen(Decide(task.list, task.direction, task.limit, count))
  {
    hide Decide, Ordered;
    PrefixIsUnique(work.history, task.list, count, AppliedCount(work.history, task.list).value);
  }

  lemma StepFollows(dialect: Dialect, task: MP.Task, before: Server, m: Migration, after: Server, ok: bool)
    requires MP.TaskOk(task) && (dialect != Mysql ==> before.transaction.Some?)
    requires var step := RunStep(m, task.direction < 0);
             if ok then Succeeds(before, step, after) else Fails(before, step, after)
    ensures Follows(dialect, task, before, MP.Chosen(m), after, if ok then MP.Ran(m) else MP.Failing)
  {
    LoneIsShaped(dialect, task, before, MP.Chosen(m));
    OneStep(dialect, task, before, MP.Chosen(m), after, if ok then MP.Ran(m) else MP.Failing,
            if ok then MP.Success else MP.Failure, Current(after).log);
  }

  lemma RecordFollows(dialect: Dialect, task: MP.Task, before: Server, m: Migration, after: Server, ok: bool)
    requires MP.TaskOk(task) && (dialect != Mysql ==> before.transaction.Some?)
    requires var record := RecordStep(m, task.direction < 0);
             if ok then Succeeds(before, record, after) else Fails(before, record, after)
    ensures Follows(dialect, task, before, MP.Ran(m), after, if ok then MP.Noted(m) else MP.Failing)
  {
    LoneIsShaped(dialect, task, before, MP.Ran(m));
    OneStep(dialect, task, before, MP.Ran(m), after, if ok then MP.Noted(m) else MP.Failing,
            if ok then MP.Success else MP.Failure, []);
  }

  lemma RollbackFollows(dialect: Dialect, task: MP.Task, before: Server, after: Server)
    requires MP.TaskOk(task) && Succeeds(before, Rollback, after)
    ensures Follows(dialect, task, before, MP.Failing, after, MP.Releasing(false))
  {
    LoneIsShaped(dialect, task, before, MP.Failing);
    OneStep(dialect, task, before, MP.Failing, after, MP.Releasing(false), MP.Success, []);
  }

  /** Closing the connection ends the process, whatever it held. */
  lemma CloseFollows(dialect: Dialect, task: MP.Task, before: Server, from: MP.Phase)
    requires MP.TaskOk(task) && (from.Failing? || from.Releasing?)
    ensures Follows(dialect, task, before, from, Closed(before), MP.Finished(false))
  {
    LoneIsShaped(dialect, task, before, from);
    OneStep(dialect, task, before, from, Closed(before), MP.Finished(false), MP.Crash, []);
  }

  /** The last statement: the advisory unlock, or the SQLite timeout, which nothing in the process shows. */
  lemma ReleaseFollows(dialect: Dialect, task: MP.Task, before: Server, good: bool, after: Server, ok: bool)
    requires MP.TaskOk(task) && before.transaction.None?
    requires after == before.(advisoryLock := after.advisoryLock, busyTimeout := after.busyTimeout)
    requires dialect == Postgres ==> !after.advisoryLock
    ensures Follows(dialect, task, before, MP.Releasing(good), after, MP.Finished(good && ok))
  {
    LoneIsShaped(dialect, task, before, MP.Releasing(good));
    OneStep(dialect, task, before, MP.Releasing(good), after, MP.Finished(good && ok),
            if ok then MP.Success else MP.Failure, []);
  }

  // ---------------------------------------------------------------- where the pieces of run() end

  /** Where the loop's choice of a step leaves the process. */
  function AfterChoice(failed: bool, transaction: bool, turn: Turn): MP.Phase {
    if failed then AfterLoop(true, transaction) else if turn.Reached? then MP.Releasing(true) else Chosen(turn)
  }

  /** Where the loop leaves it: done, or with a transaction to roll back, or without one. */
  function AfterLoop(failed: bool, transaction: bool): MP.Phase {
    if !failed then MP.Releasing(true) else if transaction then MP.Failing else MP.Releasing(false)
  }

  /** A migrator that has not begun is the concurrent system with one process in it. */
  lemma LoneIsInitial(dialect: Dialect, task: MP.Task, server: Server)
    requires server.transaction.None? && !server.advisoryLock
    ensures Lone(dialect, task, server, MP.Starting) == MP.Initial(dialect == Postgres, server.committed, [task])
  {
  }

  /**
   A call of the migrator, from a session without transaction and lock, is a run of the concurrent
   system: what holds of every run of that holds of the call.
   */
  lemma CallIsARun(dialect: Dialect, task: MP.Task, before: Server, after: Server, ok: bool) returns (actions: seq<MP.Action>)
    requires dialect == Sqlite || dialect == Postgres
    requires before.transaction.None? && !before.advisoryLock
    requires Follows(dialect, task, before, MP.Starting, after, MP.Finished(ok))
    ensures var t := MP.Run(MP.Initial(dialect == Postgres, before.committed, [task]), actions);
            && t.Some? && t.value.committed == after.committed
            && t.value.processes == [MP.Process(task, MP.Finished(ok), after.transaction)]
  {
    hide MP.Run, MP.Initial;
    LoneIsInitial(dialect, task, before);
    actions :| MP.Run(Lone(dialect, task, before, MP.Starting), actions) == Some(Lone(dialect, task, after, MP.Finished(ok)));
  }

  /** So a call that goes up on a truthful database leaves what the theorem about concurrent migrators says. */
  lemma CallGoesUp(dialect: Dialect, task: MP.Task, before: Server, after: Server, ok: bool, count: nat)
    requires dialect == Sqlite || dialect == Postgres
    requires before.transaction.None? && !before.advisoryLock && MP.TaskOk(task) && task.direction >= 0
    requires Follows(dialect, task, before, MP.Starting, after, MP.Finished(ok))
    requires Consistent(before.committed) && IsPrefix(before.committed.history, task.list, count)
    ensures var next := CountOr0(after.committed.history, task.list);
            && count <= next && IsPrefix(after.committed.history, task.list, next)
            && after.committed.log == before.committed.log + Steps(task.list, count, next)
            && (ok && task.direction > 0 ==> task.limit <= next)
  {
    hide MP.Run, MP.Initial, Follows, Consistent, IsPrefix, MP.TaskOk, CountOr0, Steps;
    var actions := CallIsARun(dialect, task, before, after, ok);
    MP.ConcurrentUps(dialect == Postgres, before.committed, task.list, count, [task], actions);
    var t := MP.Run(MP.Initial(dialect == Postgres, before.committed, [task]), actions).value;
    assert t.processes[0] in t.processes;
  }
}
