/**
 Any number of migrators, each with its own list and target, running at the same time on one
 database.  A step of the system is one statement of one migrator, succeeding or failing.
 */
module MigrationProcesses {
  import opened Common
  import opened MigrationHistory

  /** What one migrator was asked to do; `direction` is 1 for up, -1 for down, 0 for status. */
  datatype Task = Task(list: seq<Migration>, direction: int, limit: nat)

  /** Where a migrator is in run(): each phase names the statement it sends next. */
  datatype Phase =
    | Starting                      // the advisory lock, or the SQLite timeout
    | Outside(created: bool)        // BEGIN
    | Creating                      // CREATE TABLE IF NOT EXISTS, and its COMMIT
    | Reading                       // SELECT
    | Chosen(migration: Migration)  // the step
    | Ran(migration: Migration)     // INSERT or DELETE
    | Noted(migration: Migration)   // COMMIT
    | Done                          // COMMIT of a turn that found nothing to do
    | Failing                       // ROLLBACK
    | Releasing(ok: bool)           // the advisory unlock, or the SQLite timeout
    | Finished(ok: bool)

  /** A migrator and the store inside its open transaction. */
  datatype Process = Process(task: Task, phase: Phase, work: Option<Store>)

  /** `holder` has SQLite's write reservation, or PostgreSQL's advisory lock. */
  datatype System = System(advisory: bool, committed: Store, holder: Option<nat>, processes: seq<Process>)

  /** How a statement ends.  A COMMIT can be kept open, be dropped, or take effect unreported. */
  datatype Ending = Success | Failure | DroppedCommit | UnreportedCommit | Crash

  /** One statement of process `who`; `debris` is what a failing step leaves in its transaction. */
  datatype Action = Action(who: nat, ending: Ending, debris: seq<Operation>)

  function Goto(s: System, who: nat, phase: Phase, work: Option<Store>): System
    requires who < |s.processes|
  {
    s.(processes := s.processes[who := s.processes[who].(phase := phase, work := work)])
  }

  /** The transaction of `who` is over: SQLite gives its reservation back with it. */
  function EndTransaction(s: System): System {
    if s.advisory then s else s.(holder := None)
  }

  /** A closed or dead session: its transaction is dropped and whatever lock it holds is free. */
  function Disconnect(s: System, who: nat): System
    requires who < |s.processes|
  {
    var freed := if s.holder == Some(who) then s.(holder := None) else s;
    Goto(freed, who, Finished(false), None)
  }

  /** A COMMIT of the store `work`. */
  function CommitWork(s: System, work: Store, ending: Ending, who: nat, onSuccess: Phase): System
    requires who < |s.processes|
  {
    match ending
    case Success => Goto(EndTransaction(s.(committed := work)), who, onSuccess, None)
    case DroppedCommit => Goto(EndTransaction(s), who, Failing, None)
    case UnreportedCommit => Goto(EndTransaction(s.(committed := work)), who, Failing, None)
    case _ => Goto(s, who, Failing, Some(work))
  }

  /** read_history() and the choice it leads to. */
  ghost function Choice(task: Task, work: Store): Phase
    requires task.limit <= |task.list|
  {
    var count := AppliedCount(work.history, task.list);
    if count.None? then Failing else
      match Decide(task.list, task.direction, task.limit, count.value)
      case Reached => Done
      case Irreversible(_) => Failing
      case Perform(m) => Chosen(m)
  }

  predicate TaskOk(task: Task) {
    Increasing(task.list) && task.limit <= |task.list|
  }

  /** The phases in which a transaction is open. */
  predicate Inside(phase: Phase) {
    phase.Creating? || phase.Reading? || phase.Chosen? || phase.Ran? || phase.Noted? || phase.Done?
  }

  predicate Shaped(s: System) {
    forall p | p in s.processes :: TaskOk(p.task) && (Inside(p.phase) ==> p.work.Some?)
  }

  /** The next state, or None when the statement has to wait or the migrator has returned. */
  ghost function Step(s: System, a: Action): Option<System>
    requires Shaped(s)
  {
    if a.who >= |s.processes| || s.processes[a.who].phase.Finished? then None
    else if a.ending == Crash then Some(Disconnect(s, a.who))
    else
      var p := s.processes[a.who];
      assert p in s.processes;
      var ok := a.ending == Success;
      var down := p.task.direction < 0;
      match p.phase
      case Starting =>
        if !ok then Some(Goto(s, a.who, Finished(false), None))
        else if !s.advisory then Some(Goto(s, a.who, Outside(false), None))
        else if s.holder.None? then Some(Goto(s.(holder := Some(a.who)), a.who, Outside(false), None))
        else None
      case Outside(created) =>
        if !ok then Some(Goto(s, a.who, Releasing(false), None))
        else if s.advisory || s.holder.None? then
          Some(Goto(s.(holder := Some(a.who)), a.who, if created then Reading else Creating, Some(s.committed)))
        else None
      case Creating => Some(CommitWork(s, p.work.value, a.ending, a.who, Outside(true)))
      case Reading => Some(Goto(s, a.who, if ok then Choice(p.task, p.work.value) else Failing, p.work))
      case Chosen(m) =>
        if ok then Some(Goto(s, a.who, Ran(m), Some(Performed(p.work.value, m, down))))
        else Some(Goto(s, a.who, Failing, Some(p.work.value.(log := a.debris))))
      case Ran(m) =>
        if !ok then Some(Goto(s, a.who, Failing, p.work))
        else if !down && m.entry.version in p.work.value.history then None
        else Some(Goto(s, a.who, Noted(m), Some(Recorded(p.work.value, m, down))))
      case Noted(m) => Some(CommitWork(s, p.work.value, a.ending, a.who, Outside(true)))
      case Done => Some(CommitWork(s, p.work.value, a.ending, a.who, Releasing(true)))
      case Failing =>
        if !ok then Some(Disconnect(s, a.who))
        else Some(Goto(if p.work.Some? then EndTransaction(s) else s, a.who, Releasing(false), None))
      case Releasing(good) =>
        if !ok then Some(Disconnect(s, a.who))
        else Some(Goto(if s.advisory then s.(holder := None) else s, a.who, Finished(good), None))
  }

  // ---------------------------------------------------------------- what every step keeps

  /** Mutual exclusion, and what an open transaction contains while nobody else can commit. */
  ghost predicate ProcessOk(s: System, who: nat)
    requires who < |s.processes|
  {
    var p := s.processes[who];
    var down := p.task.direction < 0;
    && TaskOk(p.task)
    && (Inside(p.phase) || p.work.Some? ==> s.holder == Some(who))
    && (s.advisory && !p.phase.Starting? && !p.phase.Finished? ==> s.holder == Some(who))
    && (s.holder == Some(who) ==> if s.advisory then !p.phase.Starting? && !p.phase.Finished? else p.work.Some?)
    && match p.phase
       case Creating | Reading | Done => p.work == Some(s.committed)
       case Chosen(m) => p.work == Some(s.committed) && Choice(p.task, s.committed) == p.phase
       case Ran(m) => Choice(p.task, s.committed) == Chosen(m) && p.work == Some(Performed(s.committed, m, down))
       case Noted(m) => Choice(p.task, s.committed) == Chosen(m) && p.work == Some(Stepped(s.committed, m, down))
       case Failing => true
       case _ => p.work.None?
  }

  ghost predicate Exclusive(s: System) {
    && Shaped(s)
    && (s.holder.Some? ==> s.holder.value < |s.processes|)
    && forall who | 0 <= who < |s.processes| :: ProcessOk(s, who)
  }

  /** What one statement may do to the committed store: nothing, or one whole step its sender had just chosen for it. */
  ghost predicate CommitsOneStep(s: System, who: nat, t: System)
    requires who < |s.processes| && TaskOk(s.processes[who].task)
  {
    || t.committed == s.committed
    || (var p := s.processes[who];
        && p.phase.Noted?
        && Choice(p.task, s.committed) == Chosen(p.phase.migration)
        && t.committed == Stepped(s.committed, p.phase.migration, p.task.direction < 0))
  }

  lemma ChoicePhases(task: Task, work: Store)
    requires TaskOk(task)
    ensures Choice(task, work) in {Done, Failing} || Choice(task, work).Chosen?
  {
  }

  lemma SenderStaysOk(s: System, a: Action, t: System)
    requires Exclusive(s) && Step(s, a) == Some(t)
    ensures a.who < |s.processes| == |t.processes| && ProcessOk(t, a.who)
  {
    hide Choice, Performed, Recorded, TaskOk;
    assert ProcessOk(s, a.who);
    var p := s.processes[a.who];
    if p.phase.Reading? {
      ChoicePhases(p.task, s.committed);
    }
  }

  lemma SenderCommits(s: System, a: Action, t: System)
    requires Exclusive(s) && Step(s, a) == Some(t)
    ensures a.who < |s.processes| && ProcessOk(s, a.who)
    ensures CommitsOneStep(s, a.who, t)
    ensures t.committed != s.committed ==> s.holder == Some(a.who)
  {
    hide Choice, Performed, Recorded, Increasing;
    assert ProcessOk(s, a.who);
  }

  lemma SenderFrames(s: System, a: Action, t: System)
    requires Exclusive(s) && Step(s, a) == Some(t)
    ensures a.who < |s.processes| == |t.processes| && t.advisory == s.advisory
    ensures forall q | 0 <= q < |s.processes| && q != a.who :: t.processes[q] == s.processes[q]
    ensures t.processes[a.who].task == s.processes[a.who].task
    ensures t.holder == s.holder || (t.holder == Some(a.who) && s.holder.None?) || (t.holder.None? && s.holder == Some(a.who))
  {
    hide Choice, Performed, Recorded, Increasing;
    assert ProcessOk(s, a.who);
  }

  lemma StepKeepsExclusive(s: System, a: Action, t: System)
    requires Exclusive(s) && Step(s, a) == Some(t)
    ensures Exclusive(t)
  {
    hide Step, Choice, Stepped, Performed, Increasing;
    SenderStaysOk(s, a, t);
    SenderCommits(s, a, t);
    SenderFrames(s, a, t);
    forall q | 0 <= q < |t.processes| ensures ProcessOk(t, q) {
      if q != a.who { assert ProcessOk(s, q); }
    }
    forall p | p in t.processes ensures TaskOk(p.task) && (Inside(p.phase) ==> p.work.Some?) {
      var who :| 0 <= who < |t.processes| && t.processes[who] == p;
      assert ProcessOk(t, who);
    }
  }

  /** A committed step is the next step of its sender's list, and keeps the bookkeeping truthful. */
  lemma CommitMoves(s: System, who: nat, t: System)
    requires who < |s.processes| && TaskOk(s.processes[who].task)
    requires CommitsOneStep(s, who, t) && Consistent(s.committed)
    ensures Consistent(t.committed)
    ensures t.committed != s.committed ==>
              var task := s.processes[who].task;
              var count := AppliedCount(s.committed.history, task.list);
              && count.Some? && task.direction != 0
              && t.committed == Advance(s.committed, task.list, count.value,
                                        if task.direction > 0 then count.value + 1 else count.value - 1)
              && (if task.direction > 0 then count.value < task.limit else count.value > task.limit)
  {
    if t.committed != s.committed {
      var task := s.processes[who].task;
      var count := AppliedCount(s.committed.history, task.list).value;
      StepKeeps(s.committed, task.list, task.direction, task.limit, count);
    }
  }

  // ---------------------------------------------------------------- whole runs

  /** Every migrator is about to start. */
  function Initial(advisory: bool, store: Store, tasks: seq<Task>): System {
    System(advisory, store, None, seq(|tasks|, i requires 0 <= i < |tasks| => Process(tasks[i], Starting, None)))
  }

  lemma InitialIsExclusive(advisory: bool, store: Store, tasks: seq<Task>)
    requires forall task | task in tasks :: TaskOk(task)
    ensures Exclusive(Initial(advisory, store, tasks))
  {
  }

  /** The state after a run, or None when some action of it was not possible. */
  ghost function Run(s: System, actions: seq<Action>): Option<System>
    decreases |actions|
  {
    if actions == [] then Some(s) else
      var before := Run(s, actions[..|actions| - 1]);
      if before.None? || !Shaped(before.value) then None else Step(before.value, actions[|actions| - 1])
  }

  ghost predicate SameTasks(s: System, t: System) {
    && |t.processes| == |s.processes|
    && forall i | 0 <= i < |s.processes| :: t.processes[i].task == s.processes[i].task
  }

  /**
   Whatever the migrators, their lists and the interleaving of their statements, and whichever
   statements fail: sessions stay exclusive, the bookkeeping table describes the schema, and the
   log of the schema only ever grows.
   */
  lemma {:induction false} RunsAreSafe(s: System, actions: seq<Action>)
    requires Exclusive(s) && Consistent(s.committed) && Run(s, actions).Some?
    ensures var t := Run(s, actions).value;
            Exclusive(t) && Consistent(t.committed) && SameTasks(s, t) && s.committed.log <= t.committed.log
    decreases |actions|
  {
    hide Exclusive, Consistent, Step, CommitsOneStep, TaskOk;
    if actions != [] {
      var initial, last := actions[..|actions| - 1], actions[|actions| - 1];
      var before, t := Run(s, initial).value, Run(s, actions).value;
      RunsAreSafe(s, initial);
      OneStepIsSafe(before, last, t);
    }
  }

  lemma OneStepIsSafe(s: System, a: Action, t: System)
    requires Exclusive(s) && Consistent(s.committed) && Step(s, a) == Some(t)
    ensures Exclusive(t) && Consistent(t.committed) && SameTasks(s, t) && s.committed.log <= t.committed.log
  {
    hide Step, ProcessOk, Choice, Consistent, Increasing;
    StepKeepsExclusive(s, a, t);
    SenderCommits(s, a, t);
    SenderFrames(s, a, t);
    assert s.processes[a.who] in s.processes;
    CommitMoves(s, a.who, t);
  }

  // ---------------------------------------------------------------- migrators with one list, all going up

  ghost predicate UpOnly(s: System, list: seq<Migration>) {
    forall p | p in s.processes :: p.task.list == list && p.task.direction >= 0
  }

  predicate Succeeded(phase: Phase) {
    phase == Done || phase == Releasing(true) || phase == Finished(true)
  }

  /** A migrator that found its target reached was right, and still is. */
  ghost predicate TargetsHold(s: System, count: nat) {
    forall p | p in s.processes && p.task.direction > 0 && Succeeded(p.phase) :: p.task.limit <= count
  }

  lemma UpStep(s: System, a: Action, t: System, list: seq<Migration>, count: nat)
    requires Exclusive(s) && Consistent(s.committed) && Step(s, a) == Some(t)
    requires UpOnly(s, list) && IsPrefix(s.committed.history, list, count)
    ensures UpOnly(t, list)
    ensures || t.committed == s.committed
            || (count < |list| && t.committed == Advance(s.committed, list, count, count + 1)
                && IsPrefix(t.committed.history, list, count + 1))
    ensures t.committed != s.committed ==> s.processes[a.who].phase.Noted?
  {
    hide Step, Choice, Stepped, Advance, IsPrefix, Consistent, ProcessOk, Increasing;
    SenderCommits(s, a, t);
    SenderFrames(s, a, t);
    assert s.processes[a.who] in s.processes;
    CommitMoves(s, a.who, t);
    forall p | p in t.processes ensures p.task.list == list && p.task.direction >= 0 {
      var i :| 0 <= i < |t.processes| && t.processes[i] == p;
      assert s.processes[i] in s.processes;
    }
    if t.committed != s.committed {
      PrefixIsUnique(s.committed.history, list, count, AppliedCount(s.committed.history, list).value);
      AdvancePrefix(s.committed, list, count, count + 1);
    }
  }

  /** A migrator finds its target reached only when it is. */
  lemma SenderTarget(s: System, a: Action, t: System, count: nat)
    requires Exclusive(s) && Step(s, a) == Some(t) && a.who < |t.processes| == |s.processes|
    requires IsPrefix(s.committed.history, s.processes[a.who].task.list, count)
    requires s.processes[a.who].task.direction > 0 && Succeeded(t.processes[a.who].phase)
    ensures Succeeded(s.processes[a.who].phase) || s.processes[a.who].task.limit <= count
  {
    hide Stepped, Performed, Recorded, IsPrefix, Increasing, AppliedCount;
    assert ProcessOk(s, a.who);
    if s.processes[a.who].phase.Reading? {
      PrefixIsUnique(s.committed.history, s.processes[a.who].task.list, count,
                     AppliedCount(s.committed.history, s.processes[a.who].task.list).value);
    }
  }

  /** A statement keeps the promise of every migrator that found its target reached. */
  lemma UpStepKeepsTargets(s: System, a: Action, t: System, list: seq<Migration>, count: nat, next: nat)
    requires Exclusive(s) && Step(s, a) == Some(t) && UpOnly(s, list)
    requires IsPrefix(s.committed.history, list, count) && count <= next
    requires TargetsHold(s, count)
    ensures TargetsHold(t, next)
  {
    hide Step, Exclusive, IsPrefix;
    SenderFrames(s, a, t);
    forall p | p in t.processes && p.task.direction > 0 && Succeeded(p.phase) ensures p.task.limit <= next {
      var i :| 0 <= i < |t.processes| && t.processes[i] == p;
      assert s.processes[i] in s.processes;
      if i == a.who {
        SenderTarget(s, a, t, count);
      }
    }
  }

  /** How many statements a migrator can still send before its next commit. */
  function Rank(phase: Phase): nat {
    match phase
    case Starting => 12
    case Outside(created) => if created then 9 else 11
    case Creating => 10
    case Reading => 8
    case Chosen(_) => 7
    case Ran(_) => 6
    case Noted(_) => 5
    case Done => 4
    case Failing => 3
    case Releasing(_) => 2
    case Finished(_) => 0
  }

  function TotalRank(processes: seq<Process>): nat {
    if processes == [] then 0 else Rank(processes[0].phase) + TotalRank(processes[1..])
  }

  lemma {:induction false} TotalRankUpdate(processes: seq<Process>, i: nat, p: Process)
    requires i < |processes|
    ensures TotalRank(processes[i := p]) == TotalRank(processes) - Rank(processes[i].phase) + Rank(p.phase)
  {
    if i == 0 {
      assert processes[i := p][1..] == processes[1..];
    } else {
      assert processes[i := p][1..] == processes[1..][i - 1 := p];
      TotalRankUpdate(processes[1..], i - 1, p);
    }
  }

  lemma {:induction false} TotalRankBound(processes: seq<Process>)
    ensures TotalRank(processes) <= 12 * |processes|
  {
    if processes != [] { TotalRankBound(processes[1..]); }
  }

  /** A statement brings its sender closer to its end, unless it commits a step. */
  lemma RankFalls(s: System, a: Action, t: System)
    requires Exclusive(s) && Step(s, a) == Some(t)
    ensures a.who < |s.processes| == |t.processes|
    ensures || Rank(t.processes[a.who].phase) < Rank(s.processes[a.who].phase)
            || (t.committed != s.committed
                && Rank(t.processes[a.who].phase) <= Rank(s.processes[a.who].phase) + 4)
  {
    hide TaskOk, Choice, Inside, Performed, Recorded, Stepped;
    assert ProcessOk(s, a.who);
    var p := s.processes[a.who];
    if p.phase.Reading? {
      ChoicePhases(p.task, s.committed);
    } else if p.phase.Noted? {
      SteppedDiffers(s.committed, p.phase.migration, p.task.direction < 0);
    }
  }

  lemma SteppedDiffers(store: Store, m: Migration, down: bool)
    ensures Stepped(store, m, down) != store
  {
    assert |Stepped(store, m, down).log| == |store.log| + 1;
  }

  /**
   Migrators that share one list and only go up, in every interleaving and with every failure:
   the committed store is the start moved up the list by whole steps, so each migration's up
   operation is in it exactly once; a migrator that succeeded has its target applied for good;
   and the run ends.
   */
  lemma {:induction false} UpRuns(s: System, actions: seq<Action>, list: seq<Migration>, count: nat)
    requires Exclusive(s) && Consistent(s.committed) && Run(s, actions).Some?
    requires UpOnly(s, list) && IsPrefix(s.committed.history, list, count) && TargetsHold(s, count)
    ensures var t := Run(s, actions).value;
            var next := CountOr0(t.committed.history, list);
            && Exclusive(t) && Consistent(t.committed) && UpOnly(t, list)
            && count <= next && IsPrefix(t.committed.history, list, next)
            && t.committed == Advance(s.committed, list, count, next)
            && TargetsHold(t, next)
            && |actions| + 5 * (|list| - next) + TotalRank(t.processes) <= 5 * (|list| - count) + TotalRank(s.processes)
    decreases |actions|
  {
    hide Exclusive, Consistent, UpOnly, TargetsHold, Step, CommitsOneStep, TaskOk, IsPrefix, Stepped, CountOr0;
    if actions == [] {
      CountIsUnique(s.committed.history, list, count);
      AdvanceLast(s.committed, list, count, count);
    } else {
      var initial, last := actions[..|actions| - 1], actions[|actions| - 1];
      var b, t := Run(s, initial).value, Run(s, actions).value;
      UpRuns(s, initial, list, count);
      UpRunExtends(s, b, last, t, list, count, CountOr0(b.committed.history, list));
    }
  }

  lemma CountIsUnique(history: map<int64, Record>, list: seq<Migration>, count: nat)
    requires IsPrefix(history, list, count)
    ensures CountOr0(history, list) == count
  {
    PrefixIsUnique(history, list, count, CountOr0(history, list));
  }

  lemma UpRunExtends(s: System, b: System, a: Action, t: System, list: seq<Migration>, count: nat, here: nat)
    requires Exclusive(b) && Consistent(b.committed) && Step(b, a) == Some(t)
    requires UpOnly(b, list) && count <= here && IsPrefix(b.committed.history, list, here) && TargetsHold(b, here)
    requires b.committed == Advance(s.committed, list, count, here)
    ensures Exclusive(t) && Consistent(t.committed) && UpOnly(t, list)
    ensures var next := CountOr0(t.committed.history, list);
            && here <= next && IsPrefix(t.committed.history, list, next) && TargetsHold(t, next)
            && t.committed == Advance(s.committed, list, count, next)
            && 1 + 5 * (|list| - next) + TotalRank(t.processes) <= 5 * (|list| - here) + TotalRank(b.processes)
  {
    hide Exclusive, Consistent, UpOnly, TargetsHold, Step, Stepped, CountOr0, Ordered, Matches;
    OneStepIsSafe(b, a, t);
    UpStep(b, a, t, list, here);
    var next := if t.committed == b.committed then here else here + 1;
    CountIsUnique(t.committed.history, list, next);
    UpStepKeepsTargets(b, a, t, list, here, next);
    RankFalls(b, a, t);
    SenderFrames(b, a, t);
    assert t.processes == b.processes[a.who := t.processes[a.who]];
    TotalRankUpdate(b.processes, a.who, t.processes[a.who]);
    AdvanceResumes(s.committed, list, count, here, next);
  }

  lemma InitialIsUpOnly(advisory: bool, store: Store, tasks: seq<Task>, list: seq<Migration>, count: nat)
    requires forall task | task in tasks :: TaskOk(task) && task.list == list && task.direction >= 0
    ensures var s := Initial(advisory, store, tasks);
            && Exclusive(s) && UpOnly(s, list) && TargetsHold(s, count)
            && s.committed == store && |s.processes| == |tasks|
  {
    hide Increasing;
    InitialIsExclusive(advisory, store, tasks);
  }

  /** The same, from the beginning: n migrators start on a store that holds the first `count` migrations. */
  lemma ConcurrentUps(advisory: bool, store: Store, list: seq<Migration>, count: nat, tasks: seq<Task>,
                      actions: seq<Action>)
    requires Consistent(store) && IsPrefix(store.history, list, count)
    requires forall task | task in tasks :: TaskOk(task) && task.list == list && task.direction >= 0
    requires Run(Initial(advisory, store, tasks), actions).Some?
    ensures var t := Run(Initial(advisory, store, tasks), actions).value;
            var next := CountOr0(t.committed.history, list);
            && count <= next && IsPrefix(t.committed.history, list, next) && Consistent(t.committed)
            && t.committed.log == store.log + Steps(list, count, next)
            && (forall p | p in t.processes && p.task.direction > 0 && p.phase == Finished(true) :: p.task.limit <= next)
            && |actions| <= 5 * (|list| - count) + 12 * |tasks|
  {
    hide Exclusive, Consistent, IsPrefix, TaskOk, UpOnly, Run, Initial, Advance, CountOr0, TotalRank;
    var s := Initial(advisory, store, tasks);
    InitialIsUpOnly(advisory, store, tasks, list, count);
    UpRuns(s, actions, list, count);
    AdvanceLog(store, list, count, CountOr0(Run(s, actions).value.committed.history, list));
    TotalRankBound(s.processes);
  }

  /** On an empty database: what is committed are the first migrations of the list, each once and in order. */
  lemma FreshDatabase(advisory: bool, list: seq<Migration>, tasks: seq<Task>, actions: seq<Action>)
    requires forall task | task in tasks :: TaskOk(task) && task.list == list && task.direction >= 0
    requires Run(Initial(advisory, Store(map[], []), tasks), actions).Some?
    ensures var t := Run(Initial(advisory, Store(map[], []), tasks), actions).value;
            var next := CountOr0(t.committed.history, list);
            && next <= |list| && IsPrefix(t.committed.history, list, next)
            && t.committed.log == Steps(list, 0, next)
            && (forall p | p in t.processes && p.task.direction > 0 && p.phase == Finished(true) :: p.task.limit <= next)
            && |actions| <= 5 * |list| + 12 * |tasks|
  {
    hide Consistent, IsPrefix, TaskOk, Run, Initial, Steps;
    EmptyIsConsistent();
    ConcurrentUps(advisory, Store(map[], []), list, 0, tasks, actions);
    PrefixIsShort(Run(Initial(advisory, Store(map[], []), tasks), actions).value.committed.history, list);
  }

  lemma PrefixIsShort(history: map<int64, Record>, list: seq<Migration>)
    ensures CountOr0(history, list) <= |list|
  {
  }

  // ---------------------------------------------------------------- no deadlock

  function Try(who: nat): Action {
    Action(who, Success, [])
  }

  lemma HolderCanProceed(s: System, who: nat)
    requires Exclusive(s) && s.holder == Some(who)
    ensures Step(s, Try(who)).Some?
  {
    hide Recorded, Matches;
    assert ProcessOk(s, who);
    var p := s.processes[who];
    assert p in s.processes;
    if p.phase.Ran? {
      StepKeeps(s.committed, p.task.list, p.task.direction, p.task.limit,
                AppliedCount(s.committed.history, p.task.list).value);
    }
  }

  /** As long as a migrator has not returned, some migrator can send a statement that succeeds. */
  lemma NoDeadlock(s: System, waiting: nat)
    requires Exclusive(s) && waiting < |s.processes| && !s.processes[waiting].phase.Finished?
    ensures exists who: nat :: Step(s, Try(who)).Some?
  {
    if s.holder.Some? {
      HolderCanProceed(s, s.holder.value);
    } else {
      assert ProcessOk(s, waiting);
      assert Step(s, Try(waiting)).Some?;
    }
  }
}
