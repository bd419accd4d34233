/**
 One asynchronous operation and the two threads that may finish it.

 The worker runs the job; a thread that cancels runs the handler.  Each atomic statement of
 either is one step, and the steps interleave freely.  Both sides settle who returns the task by
 a compare-and-exchange on `answered`.
 */
module OperationRace {
  import opened Common

  /** What the job does: run a statement, fetch from a stream, or close the connection. */
  datatype Kind = Statement | Fetch | CloseConnection

  /** How the backend work ends; `Broken` is an error that says that the connection is gone. */
  datatype Outcome = Fine | Failed | Broken

  datatype Answer = Cancelled | Result(outcome: Outcome)

  /** Where the job is; each value names the statement that comes next. */
  datatype JobPc =
    | Queued
    | Starting                     // set the state to busy
    | Checking                     // task_may_run(): is it cancelled already?
    | CancelSeen                   // it is: try to win the answer
    | CancelWon                    // won: return the task as cancelled
    | Calling                      // the backend work
    | Noting(outcome: Outcome)     // note_error(), or the closed state
    | Answering(outcome: Outcome)  // task_may_return(): try to win the answer
    | Won(outcome: Outcome)        // won: return the task as cancelled if it is by now
    | Owing(outcome: Outcome)      // return the task with its result
    | Ending                       // g_cancellable_disconnect()
    | Settling                     // set the state to idle, unless it is closed
    | Over

  /** Where the cancel handler is. */
  datatype HandlerPc =
    | Unconnected
    | Connected
    | Interrupting   // orm_connection_interrupt()
    | Contending     // it could not be interrupted: try to win the answer
    | HandlerOwes    // won: return the task as cancelled
    | Returned

  datatype Operation = Operation(
    kind: Kind,
    cancellable: Option<nat>,
    job: JobPc,
    handler: HandlerPc,
    answered: bool,
    answers: seq<Answer>,     // what the task was returned with, each time it was returned
    calls: nat,               // how often the job entered the backend
    skipped: bool,            // task_may_run() said no
    noted: Option<Outcome>)   // how the backend work ended, once that was noted

  predicate HandlerRuns(o: Operation) {
    o.handler.Interrupting? || o.handler.Contending? || o.handler.HandlerOwes?
  }

  /**
   The next statement of the job.  `cancelled` is the flag of its cancellable, `driver` says that
   the connection still has its backend handle, and `outcome` is how a backend call ends.
   */
  function JobStep(o: Operation, cancelled: bool, driver: bool, outcome: Outcome): Option<Operation> {
    match o.job
    case Queued | Over => None
    case Starting => Some(o.(job := Checking))
    case Checking => Some(if cancelled then o.(job := CancelSeen, skipped := true) else o.(job := Calling))
    case CancelSeen => Some(if o.answered then o.(job := Ending) else o.(job := CancelWon, answered := true))
    case CancelWon => Some(o.(job := Ending, answers := o.answers + [Cancelled]))
    case Calling =>
      if o.kind == Statement && !driver then Some(o.(job := Noting(Broken)))
      else Some(o.(job := Noting(if o.kind == CloseConnection then Fine else outcome), calls := o.calls + 1))
    case Noting(how) => Some(o.(job := Answering(how), noted := Some(how)))
    case Answering(how) => Some(if o.answered then o.(job := Ending) else o.(job := Won(how), answered := true))
    case Won(how) =>
      Some(if cancelled then o.(job := Ending, answers := o.answers + [Cancelled]) else o.(job := Owing(how)))
    case Owing(how) => Some(o.(job := Ending, answers := o.answers + [Result(how)]))
    case Ending => if HandlerRuns(o) then None else Some(o.(job := Settling, handler := Unconnected))
    case Settling => Some(o.(job := Over))
  }

  /** The next statement of the handler; `interrupted` says that the backend could be asked to stop. */
  function HandlerStep(o: Operation, cancelled: bool, interrupted: bool): Option<Operation> {
    match o.handler
    case Unconnected | Returned => None
    case Connected => if cancelled then Some(o.(handler := Interrupting)) else None
    case Interrupting => Some(o.(handler := if interrupted then Returned else Contending))
    case Contending => Some(if o.answered then o.(handler := Returned) else o.(handler := HandlerOwes, answered := true))
    case HandlerOwes => Some(o.(handler := Returned, answers := o.answers + [Cancelled]))
  }

  /** g_cancellable_connect(): an already cancelled cancellable runs the handler there and then. */
  function Submitted(kind: Kind, cancellable: Option<nat>, cancelled: bool): Operation {
    Operation(kind, cancellable, Queued,
              if cancellable.None? then Unconnected else if cancelled then Interrupting else Connected,
              false, [], 0, false, None)
  }

  // ---------------------------------------------------------------- what every interleaving keeps

  /** How many threads have won the answer and not yet returned the task. */
  function Debts(o: Operation): nat {
    (if o.job.CancelWon? || o.job.Won? || o.job.Owing? then 1 else 0) + (if o.handler.HandlerOwes? then 1 else 0)
  }

  predicate AfterCall(job: JobPc) {
    job.Noting? || job.Answering? || job.Won? || job.Owing? || job.Ending? || job.Settling? || job.Over?
  }

  predicate RaceOk(o: Operation, cancelled: bool) {
    // the task is returned by the winner of the exchange, once
    && |o.answers| + Debts(o) == (if o.answered then 1 else 0)
    && (o.job.Ending? || o.job.Settling? || o.job.Over? ==> o.answered)
    && (o.job.Settling? || o.job.Over? ==> o.handler.Unconnected?)
    // a job that saw the cancel never enters the backend, and any other enters it once
    && o.calls <= 1 && (o.skipped || !AfterCall(o.job) ==> o.calls == 0)
    && (AfterCall(o.job) && !o.skipped && o.kind != Statement ==> o.calls == 1)
    && (o.job.CancelSeen? || o.job.CancelWon? ==> o.skipped)
    && (o.skipped ==> o.job in {CancelSeen, CancelWon, Ending, Settling, Over})
    // the task is returned as cancelled only after it was, and with a result only after the job ran
    && (o.skipped || HandlerRuns(o) || Cancelled in o.answers ==> cancelled)
    && (o.cancellable.None? ==> o.handler.Unconnected? && !cancelled)
    && (forall how :: Result(how) in o.answers ==> !o.skipped && AfterCall(o.job) && o.noted == Some(how))
    // what is noted is how the backend work ended
    && (o.skipped || !AfterCall(o.job) || o.job.Noting? ==> o.noted.None?)
    && (!o.skipped && AfterCall(o.job) && !o.job.Noting? ==> o.noted.Some?)
    && (o.job.Answering? || o.job.Won? || o.job.Owing? ==> o.noted == Some(o.job.outcome))
  }

  /** The operation leaves its connection closed: it closed it, or its statement found it gone. */
  predicate EndsClosed(o: Operation) {
    !o.skipped && (o.kind == CloseConnection || (o.kind == Statement && o.noted == Some(Broken)))
  }

  lemma SubmittedIsOk(kind: Kind, cancellable: Option<nat>, cancelled: bool)
    requires cancellable.None? ==> !cancelled
    ensures RaceOk(Submitted(kind, cancellable, cancelled), cancelled)
  {
  }

  lemma JobStepKeeps(o: Operation, cancelled: bool, driver: bool, outcome: Outcome)
    requires RaceOk(o, cancelled) && JobStep(o, cancelled, driver, outcome).Some?
    ensures var next := JobStep(o, cancelled, driver, outcome).value;
            RaceOk(next, cancelled) && next.cancellable == o.cancellable && !next.job.Queued?
  {
    var next := JobStep(o, cancelled, driver, outcome).value;
    if next.answers != o.answers {
      assert next.answers[..|o.answers|] == o.answers;
    }
  }

  lemma HandlerStepKeeps(o: Operation, cancelled: bool, interrupted: bool)
    requires RaceOk(o, cancelled) && HandlerStep(o, cancelled, interrupted).Some?
    ensures var next := HandlerStep(o, cancelled, interrupted).value;
            RaceOk(next, cancelled) && next.cancellable == o.cancellable && next.job == o.job
  {
  }

  // ---------------------------------------------------------------- whole races

  datatype Move = JobMove(driver: bool, outcome: Outcome) | HandlerMove(interrupted: bool) | CancelMove

  datatype Race = Race(op: Operation, cancelled: bool)

  function Advance(r: Race, move: Move): Option<Race> {
    match move
    case CancelMove => if r.op.cancellable.None? then None else Some(r.(cancelled := true))
    case JobMove(driver, outcome) =>
      var next := JobStep(if r.op.job.Queued? then r.op.(job := Starting) else r.op, r.cancelled, driver, outcome);
      if next.None? then None else Some(r.(op := next.value))
    case HandlerMove(interrupted) =>
      var next := HandlerStep(r.op, r.cancelled, interrupted);
      if next.None? then None else Some(r.(op := next.value))
  }

  function Play(r: Race, moves: seq<Move>): Option<Race>
    decreases |moves|
  {
    if moves == [] then Some(r) else
      var before := Play(r, moves[..|moves| - 1]);
      if before.None? then None else Advance(before.value, moves[|moves| - 1])
  }

  lemma AdvanceKeeps(r: Race, move: Move)
    requires RaceOk(r.op, r.cancelled) && Advance(r, move).Some?
    ensures var t := Advance(r, move).value; RaceOk(t.op, t.cancelled) && t.op.cancellable == r.op.cancellable
  {
    match move
    case CancelMove =>
    case JobMove(driver, outcome) =>
      JobStepKeeps(if r.op.job.Queued? then r.op.(job := Starting) else r.op, r.cancelled, driver, outcome);
    case HandlerMove(interrupted) => HandlerStepKeeps(r.op, r.cancelled, interrupted);
  }

  lemma {:induction false} PlayKeeps(r: Race, moves: seq<Move>)
    requires RaceOk(r.op, r.cancelled) && Play(r, moves).Some?
    ensures var t := Play(r, moves).value; RaceOk(t.op, t.cancelled)
    decreases |moves|
  {
    if moves != [] {
      PlayKeeps(r, moves[..|moves| - 1]);
      AdvanceKeeps(Play(r, moves[..|moves| - 1]).value, moves[|moves| - 1]);
    }
  }

  lemma OneAnswer(o: Operation, cancelled: bool)
    requires RaceOk(o, cancelled) && o.answers != []
    ensures (o.answers == [Cancelled] && cancelled) || (!o.skipped && exists how :: o.answers == [Result(how)])
  {
    assert o.answers[0] in o.answers && o.answers == [o.answers[0]];
    match o.answers[0]
    case Cancelled =>
    case Result(how) => assert o.answers == [Result(how)];
  }

  /**
   In every interleaving of the job, the handler and the cancellation: the task is never returned
   twice, and once the job is over and the handler is quiet it has been returned exactly once;
   a job that noticed the cancellation up front never entered the backend.
   */
  lemma ReturnedExactlyOnce(kind: Kind, cancellable: Option<nat>, cancelled: bool, moves: seq<Move>)
    requires cancellable.None? ==> !cancelled
    requires Play(Race(Submitted(kind, cancellable, cancelled), cancelled), moves).Some?
    ensures var t := Play(Race(Submitted(kind, cancellable, cancelled), cancelled), moves).value;
            && |t.op.answers| <= 1
            && (t.op.job.Over? ==> |t.op.answers| == 1 && !HandlerRuns(t.op))
            && (t.op.skipped ==> t.op.calls == 0 && t.cancelled)
            && (t.op.answers == [Cancelled] ==> t.cancelled)
            && (t.op.job.Over? && !t.cancelled ==> t.op.noted.Some? && t.op.answers == [Result(t.op.noted.value)])
  {
    SubmittedIsOk(kind, cancellable, cancelled);
    PlayKeeps(Race(Submitted(kind, cancellable, cancelled), cancelled), moves);
    var t := Play(Race(Submitted(kind, cancellable, cancelled), cancelled), moves).value;
    if t.op.answers != [] {
      OneAnswer(t.op, t.cancelled);
    }
  }

  /** Not yet past the check for cancellation, or turned away by it. */
  predicate Doomed(r: Race) {
    r.cancelled && (r.op.skipped || r.op.job.Queued? || r.op.job.Starting? || r.op.job.Checking?)
  }

  /** Cancelling an operation that has not started means that it never runs. */
  lemma {:induction false} CancelledBeforeStartNeverRuns(r: Race, moves: seq<Move>)
    requires RaceOk(r.op, r.cancelled) && Doomed(r) && Play(r, moves).Some?
    ensures var t := Play(r, moves).value;
            Doomed(t) && t.op.calls == 0 && (t.op.job.Over? ==> t.op.answers == [Cancelled])
    decreases |moves|
  {
    PlayKeeps(r, moves);
    if moves != [] {
      CancelledBeforeStartNeverRuns(r, moves[..|moves| - 1]);
    }
    var t := Play(r, moves).value;
    if t.op.answers != [] {
      OneAnswer(t.op, t.cancelled);
    }
  }

  /** The job has not committed itself to a result. */
  predicate NoResultYet(r: Race) {
    !r.op.job.Owing? && forall how :: Result(how) !in r.op.answers
  }

  /**
   A cancelled operation fails as cancelled exactly when the cancellation came before the job's
   last look at it; a job already returning its result returns that.
   */
  lemma {:induction false} CancelInTimeFails(r: Race, moves: seq<Move>)
    requires RaceOk(r.op, r.cancelled) && r.cancelled && Play(r, moves).Some? && Play(r, moves).value.op.job.Over?
    ensures Play(r, moves).value.op.answers == [Cancelled] <==> NoResultYet(r)
  {
    PlayKeeps(r, moves);
    ResultIsDecided(r, moves);
    OneAnswer(Play(r, moves).value.op, true);
  }

  lemma {:induction false} ResultIsDecided(r: Race, moves: seq<Move>)
    requires RaceOk(r.op, r.cancelled) && r.cancelled && Play(r, moves).Some?
    ensures Play(r, moves).value.cancelled
    ensures NoResultYet(r) <==> NoResultYet(Play(r, moves).value)
    decreases |moves|
  {
    if moves != [] {
      PlayKeeps(r, moves[..|moves| - 1]);
      ResultIsDecided(r, moves[..|moves| - 1]);
      MoveKeepsDecision(Play(r, moves[..|moves| - 1]).value, moves[|moves| - 1]);
    }
  }

  lemma MoveKeepsDecision(r: Race, move: Move)
    requires RaceOk(r.op, r.cancelled) && r.cancelled && Advance(r, move).Some?
    ensures NoResultYet(r) <==> NoResultYet(Advance(r, move).value)
  {
    var t := Advance(r, move).value;
    if move.JobMove? && r.op.job.Owing? {
      assert t.op.answers[|r.op.answers|] == Result(r.op.job.outcome);
    }
  }

  // ---------------------------------------------------------------- what is reported

  /** How the backend work of the job ended, in the moves that were made: the call itself says it. */
  function CallOutcome(r: Race, moves: seq<Move>): Option<Outcome>
    decreases |moves|
  {
    if moves == [] then None else
      var before, last := Play(r, moves[..|moves| - 1]), moves[|moves| - 1];
      if before.Some? && last.JobMove? && before.value.op.job.Calling? then
        Some(if r.op.kind == CloseConnection then Fine
             else if r.op.kind == Statement && !last.driver then Broken
             else last.outcome)
      else CallOutcome(r, moves[..|moves| - 1])
  }

  /**
   In every interleaving a result that a task is returned with is how its backend work ended: a statement
   that failed is never reported as done, nor one that was done as failed.
   */
  lemma ResultIsCallOutcome(kind: Kind, cancellable: Option<nat>, cancelled: bool, moves: seq<Move>, how: Outcome)
    requires cancellable.None? ==> !cancelled
    requires Play(Race(Submitted(kind, cancellable, cancelled), cancelled), moves).Some?
    requires Result(how) in Play(Race(Submitted(kind, cancellable, cancelled), cancelled), moves).value.op.answers
    ensures CallOutcome(Race(Submitted(kind, cancellable, cancelled), cancelled), moves) == Some(how)
  {
    var r := Race(Submitted(kind, cancellable, cancelled), cancelled);
    SubmittedIsOk(kind, cancellable, cancelled);
    PlayKeeps(r, moves);
    OutcomeIsNoted(r, moves);
  }

  /** What is noted, or about to be, is how the call ended. */
  predicate Notes(o: Operation, called: Option<Outcome>) {
    (o.job.Noting? ==> called == Some(o.job.outcome)) && (o.noted.Some? ==> called == o.noted)
  }

  lemma {:induction false} OutcomeIsNoted(r: Race, moves: seq<Move>)
    requires RaceOk(r.op, r.cancelled) && Play(r, moves).Some? && r.op.job.Queued?
    ensures Play(r, moves).value.op.kind == r.op.kind && Notes(Play(r, moves).value.op, CallOutcome(r, moves))
    decreases |moves|
  {
    hide RaceOk, Notes, Advance;
    if moves == [] {
      NothingNoted(r);
    } else {
      var front, last := moves[..|moves| - 1], moves[|moves| - 1];
      PlayKeeps(r, front);
      OutcomeIsNoted(r, front);
      StepNotes(Play(r, front).value, last, CallOutcome(r, front));
    }
  }

  lemma StepNotes(r: Race, move: Move, called: Option<Outcome>)
    requires RaceOk(r.op, r.cancelled) && Notes(r.op, called) && Advance(r, move).Some?
    ensures var next := if !(move.JobMove? && r.op.job.Calling?) then called
                        else if r.op.kind == CloseConnection then Some(Fine)
                        else if r.op.kind == Statement && !move.driver then Some(Broken)
                        else Some(move.outcome);
            Advance(r, move).value.op.kind == r.op.kind && Notes(Advance(r, move).value.op, next)
  {
    hide RaceOk;
    CallingHasNoted(r);
  }

  lemma NothingNoted(r: Race)
    requires RaceOk(r.op, r.cancelled) && r.op.job.Queued?
    ensures Notes(r.op, CallOutcome(r, []))
  {
  }

  lemma CallingHasNoted(r: Race)
    requires RaceOk(r.op, r.cancelled)
    ensures r.op.job.Calling? || r.op.job.Queued? ==> r.op.noted.None?
  {
  }

  /**
   A cancelled task does not wait for a backend that cannot be interrupted: wherever the job is, the
   handler returns it as cancelled.  When the backend can be interrupted the job is left to answer.
   */
  lemma HandlerAnswers(o: Operation, interrupted: bool)
    requires RaceOk(o, true) && o.handler.Connected? && !o.answered
    ensures var r, one := Race(o, true), HandlerMove(interrupted);
            if interrupted then
              Play(r, [one, one]) == Some(r.(op := o.(handler := Returned)))
            else
              Play(r, [one, one, one, one]) == Some(r.(op := o.(handler := Returned, answered := true, answers := [Cancelled])))
  {
    hide Play, Advance, RaceOk;
    var r, one := Race(o, true), HandlerMove(interrupted);
    Unanswered(o);
    HandlerAdvances(o, interrupted);
    PlayMore(r, [], one);
    assert [one] + [one] == [one, one];
    PlayMore(r, [one], one);
    if !interrupted {
      assert [one, one] + [one] == [one, one, one];
      PlayMore(r, [one, one], one);
      assert [one, one, one] + [one] == [one, one, one, one];
      PlayMore(r, [one, one, one], one);
    }
  }

  lemma Unanswered(o: Operation)
    requires RaceOk(o, true) && !o.answered
    ensures o.answers == []
  {
  }

  lemma HandlerAdvances(o: Operation, interrupted: bool)
    requires o.handler.Connected? && !o.answered && o.answers == []
    ensures var (one, asking, contending) :=
              (HandlerMove(interrupted), o.(handler := Interrupting), o.(handler := Contending));
            var owing := o.(handler := HandlerOwes, answered := true);
            && Advance(Race(o, true), one) == Some(Race(asking, true))
            && Advance(Race(asking, true), one) == Some(Race(if interrupted then o.(handler := Returned) else contending, true))
            && Advance(Race(contending, true), one) == Some(Race(owing, true))
            && Advance(Race(owing, true), one) == Some(Race(owing.(handler := Returned, answers := [Cancelled]), true))
  {
    hide JobStep;
    assert o.answers + [Cancelled] == [Cancelled];
  }

  lemma PlayMore(r: Race, moves: seq<Move>, move: Move)
    ensures Play(r, moves + [move]) == if Play(r, moves).None? then None else Advance(Play(r, moves).value, move)
    ensures moves == [] ==> Play(r, moves) == Some(r) && [] + [move] == [move]
  {
    assert (moves + [move])[..|moves|] == moves;
  }

  /**
   Cancelled while it is inside a backend that cannot be interrupted, a task with a cancellable is returned
   as cancelled by the handler, before the backend comes back.
   */
  lemma CancelledInBackend(kind: Kind, cancellable: nat, driver: bool, outcome: Outcome)
    ensures var (job, cancel, handler) := (JobMove(driver, outcome), CancelMove, HandlerMove(false));
            var t := Play(Race(Submitted(kind, Some(cancellable), false), false), [job, job, cancel]);
            && t.Some? && t.value.op.job.Calling? && t.value.op.answers == []
            && var u := Play(t.value, [handler, handler, handler, handler]);
               u.Some? && u.value.op.job.Calling? && u.value.op.answers == [Cancelled]
  {
    hide Play, RaceOk;
    var (job, cancel) := (JobMove(driver, outcome), CancelMove);
    var o := Submitted(kind, Some(cancellable), false);
    var r := Race(o, false);
    SubmittedIsOk(kind, Some(cancellable), false);
    PlayMore(r, [], job);
    assert [job] + [job] == [job, job];
    PlayMore(r, [job], job);
    assert [job, job] + [cancel] == [job, job, cancel];
    PlayMore(r, [job, job], cancel);
    PlayKeeps(r, [job, job, cancel]);
    HandlerAnswers(o.(job := Calling), false);
  }
}
