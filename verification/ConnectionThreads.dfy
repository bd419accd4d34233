/**
 A connection, its owner thread, its worker thread and the threads that cancel.

 A state holds every job ever pushed, in push order; `taken` of them have been popped.  A step is
 one atomic statement of one thread, and the threads interleave freely.
 */
module ConnectionThreads {
  import opened Common
  import opened OperationRace

  datatype SyncPc = Waiting | Serving | Served

  datatype Job = Async(op: Operation) | Sync(pc: SyncPc) | Sentinel(popped: bool)

  datatype ConnectionState = Idle | Busy | Closed

  /** `driver` is the backend handle; `releases` counts how often it was closed. */
  datatype Connection = Connection(
    state: ConnectionState,
    driver: bool,
    releases: nat,
    emitted: seq<(ConnectionState, ConnectionState)>)

  datatype WorkerPc = NoThread | Popping | Running | Exited

  /** What the owner thread does; `final` marks a close that comes from finalization. */
  datatype OwnerPc =
    | Free
    | Preparing(op: Operation)       // submit_async() before the push
    | Inline                         // a synchronous call without a worker
    | Awaiting(job: nat)             // a synchronous call handed to the worker
    | Joining(final: bool)           // worker_shutdown()
    | ReleasingDriver(final: bool)   // close_driver()
    | MarkingClosed(final: bool)
    | Gone                           // the owner has dropped its reference

  datatype State = State(
    connection: Connection,
    cancelled: set<nat>,
    owner: OwnerPc,
    worker: WorkerPc,
    pointer: bool,      // the connection's pointer to its worker
    jobs: seq<Job>,
    taken: nat)

  datatype Target = Prepared | Pushed(job: nat)

  datatype Action =
    // the owner
    | Submit(kind: Kind, cancellable: Option<nat>) | Push
    | Call | Return | Wake
    | Close(final: bool) | Join | Release | Mark
    | Drop
    // the worker
    | Pop | Work(outcome: Outcome) | Finalize
    // any thread
    | Cancel(fired: nat) | Handle(target: Target, interrupted: bool)

  function Opened(): State {
    State(Connection(Idle, true, 0, []), {}, Free, NoThread, false, [], 0)
  }

  /** set_state() */
  function SetState(c: Connection, state: ConnectionState): Connection {
    if c.state == state then c else c.(state := state, emitted := c.emitted + [(c.state, state)])
  }

  /** close_driver(): the handle is exchanged for NULL under the lock, and whoever got it closes it. */
  function CloseDriver(c: Connection): Connection {
    if c.driver then c.(driver := false, releases := c.releases + 1) else c
  }

  predicate IsCancelled(s: State, o: Operation) {
    o.cancellable.Some? && o.cancellable.value in s.cancelled
  }

  /** What the job's next statement does to the connection. */
  function JobEffect(c: Connection, o: Operation): Connection {
    match o.job
    case Starting => SetState(c, Busy)
    case Calling => if o.kind == CloseConnection then CloseDriver(c) else c
    case Noting(how) =>
      if o.kind == CloseConnection || (o.kind == Statement && how == Broken) then SetState(c, Closed) else c
    case Settling => if c.state != Closed then SetState(c, Idle) else c
    case _ => c
  }

  /** Every job has run, so no operation holds a reference to the connection. */
  predicate Quiet(s: State) {
    s.taken == |s.jobs| && s.worker != Running
  }

  /** One statement of some thread, or None when that thread has to wait or cannot do this now. */
  function Step(s: State, a: Action): Option<State>
    requires s.taken <= |s.jobs| && (s.worker == Running ==> s.taken > 0)
  {
    match a
    case Submit(kind, cancellable) =>
      if s.owner != Free then None else
        Some(s.(owner := Preparing(Submitted(kind, cancellable, cancellable.Some? && cancellable.value in s.cancelled))))
    case Push =>
      if !s.owner.Preparing? then None else
        Some(s.(owner := Free, jobs := s.jobs + [Async(s.owner.op)], pointer := true,
                worker := if s.worker == NoThread then Popping else s.worker))
    case Call =>
      if s.owner != Free then None
      else if !s.pointer then Some(s.(owner := Inline))
      else Some(s.(owner := Awaiting(|s.jobs|), jobs := s.jobs + [Sync(Waiting)]))
    case Return => if s.owner != Inline then None else Some(s.(owner := Free))
    case Wake =>
      if s.owner.Awaiting? && s.owner.job < |s.jobs| && s.jobs[s.owner.job] == Sync(Served)
      then Some(s.(owner := Free)) else None
    case Close(final) =>
      if s.owner != Free || (final && !Quiet(s)) then None
      else if s.pointer then Some(s.(owner := Joining(final), pointer := false, jobs := s.jobs + [Sentinel(false)]))
      else Some(s.(owner := ReleasingDriver(final)))
    case Join =>
      if s.owner.Joining? && s.worker == Exited
      then Some(s.(owner := ReleasingDriver(s.owner.final), worker := NoThread)) else None
    case Release =>
      if !s.owner.ReleasingDriver? then None
      else Some(s.(owner := MarkingClosed(s.owner.final), connection := CloseDriver(s.connection)))
    case Mark =>
      if !s.owner.MarkingClosed? then None
      else if s.owner.final then Some(s.(owner := Gone, connection := s.connection.(state := Closed)))
      else Some(s.(owner := Free, connection := SetState(s.connection, Closed)))
    case Drop => if s.owner == Free && !Quiet(s) then Some(s.(owner := Gone)) else None
    case Pop =>
      if s.worker != Popping || s.taken == |s.jobs| then None else
        var popped := s.(taken := s.taken + 1);
        (match s.jobs[s.taken]
         case Async(op) =>
           Some(popped.(worker := Running, jobs := s.jobs[s.taken := Async(op.(job := Starting))]))
         case Sync(_) => Some(popped.(worker := Running, jobs := s.jobs[s.taken := Sync(Serving)]))
         case Sentinel(_) => Some(popped.(worker := Exited, jobs := s.jobs[s.taken := Sentinel(true)])))
    case Work(outcome) =>
      if s.worker != Running then None else
        var i := s.taken - 1;
        (match s.jobs[i]
         case Async(op) =>
           var next := JobStep(op, IsCancelled(s, op), s.connection.driver, outcome);
           if next.None? then None else
             Some(s.(jobs := s.jobs[i := Async(next.value)], connection := JobEffect(s.connection, op),
                     worker := if next.value.job.Over? then Popping else Running))
         case Sync(_) => Some(s.(jobs := s.jobs[i := Sync(Served)], worker := Popping))
         case Sentinel(_) => None)
    case Finalize =>
      if s.owner == Gone && s.worker == Popping && Quiet(s) && s.connection.driver
      then Some(s.(connection := CloseDriver(s.connection).(state := Closed))) else None
    case Cancel(c) => Some(s.(cancelled := s.cancelled + {c}))
    case Handle(target, interrupted) =>
      (match target
       case Prepared =>
         if !s.owner.Preparing? then None else
           var next := HandlerStep(s.owner.op, IsCancelled(s, s.owner.op), interrupted && s.connection.driver);
           if next.None? then None else Some(s.(owner := Preparing(next.value)))
       case Pushed(i) =>
         if i >= |s.jobs| || !s.jobs[i].Async? then None else
           var next := HandlerStep(s.jobs[i].op, IsCancelled(s, s.jobs[i].op), interrupted && s.connection.driver);
           if next.None? then None else Some(s.(jobs := s.jobs[i := Async(next.value)])))
  }

  /** The action is possible now. */
  predicate CanStep(s: State, a: Action) {
    s.taken <= |s.jobs| && (s.worker == Running ==> s.taken > 0) && Step(s, a).Some?
  }

  // ---------------------------------------------------------------- what every step keeps

  /** Job `i` has been run to its end. */
  predicate Finished(s: State, i: nat) {
    i < s.taken && !(s.worker == Running && i == s.taken - 1)
  }

  predicate OperationOk(s: State, o: Operation) {
    RaceOk(o, IsCancelled(s, o))
  }

  /** Jobs run one at a time and in push order: only the last one popped can be in progress. */
  predicate JobOk(s: State, i: nat)
    requires i < |s.jobs|
  {
    match s.jobs[i]
    case Async(op) =>
      && OperationOk(s, op)
      && (op.job.Queued? <==> i >= s.taken)
      && (op.job.Over? <==> Finished(s, i))
    case Sync(pc) => (pc == Waiting <==> i >= s.taken) && (pc == Served <==> Finished(s, i))
    case Sentinel(popped) =>
      && (popped <==> i < s.taken)
      && !(s.worker == Running && i == s.taken - 1)
      && (!popped ==> s.owner.Joining? && i == |s.jobs| - 1)
  }

  predicate JobsOk(s: State) {
    forall i | 0 <= i < |s.jobs| :: JobOk(s, i)
  }

  /** Who exists, and what the owner is waiting for. */
  predicate ThreadsOk(s: State) {
    && s.taken <= |s.jobs|
    && (s.worker == Running ==> s.taken > 0)
    && (s.worker == NoThread || s.worker == Exited ==> s.taken == |s.jobs|)
    && match s.owner
       case Free => s.pointer == (s.worker == Popping || s.worker == Running) && s.worker != Exited
       case Preparing(op) =>
         s.pointer == (s.worker == Popping || s.worker == Running) && s.worker != Exited
         && OperationOk(s, op) && op.job.Queued?
       case Awaiting(i) =>
         (s.worker == Popping || s.worker == Running) && s.pointer && i < |s.jobs| && s.jobs[i].Sync?
       case Joining(_) =>
         !s.pointer && s.worker != NoThread && |s.jobs| > 0 && s.jobs[|s.jobs| - 1].Sentinel?
         && (s.worker != Exited ==> s.taken < |s.jobs|)
       case Inline | ReleasingDriver(_) | MarkingClosed(_) => !s.pointer && s.worker == NoThread
       case Gone => s.worker != Exited
  }

  /** The state that the announced changes lead to. */
  function LastAnnounced(emitted: seq<(ConnectionState, ConnectionState)>): ConnectionState {
    if emitted == [] then Idle else emitted[|emitted| - 1].1
  }

  /** Each announced change starts where the one before it led, and is a change. */
  predicate Chain(emitted: seq<(ConnectionState, ConnectionState)>) {
    forall i | 0 <= i < |emitted| :: emitted[i].0 == LastAnnounced(emitted[..i]) && emitted[i].0 != emitted[i].1
  }

  /**
   The handle is released once it is not there, which it is not after close_driver(); the state says
   busy only from within op_run(), and is the one announced, unless finalization has changed it.
   */
  predicate ConnectionOk(s: State) {
    && s.connection.releases == (if s.connection.driver then 0 else 1)
    && (s.owner.MarkingClosed? ==> !s.connection.driver)
    && (s.connection.state == Busy ==>
          s.worker == Running && s.taken <= |s.jobs| && s.taken > 0 && s.jobs[s.taken - 1].Async?
          && s.jobs[s.taken - 1].op.job != Starting)
    && Chain(s.connection.emitted)
    && (s.connection.state == LastAnnounced(s.connection.emitted)
        || (s.owner == Gone && Quiet(s) && s.connection.state == Closed && !s.connection.driver))
  }

  predicate Ok(s: State) {
    ThreadsOk(s) && JobsOk(s) && ConnectionOk(s)
  }

  lemma OpenedIsOk()
    ensures Ok(Opened())
  {
  }

  lemma OwnerStepKeepsJobs(s: State, a: Action)
    requires Ok(s) && Step(s, a).Some?
    requires !a.Pop? && !a.Work? && !a.Cancel? && !a.Handle?
    ensures JobsOk(Step(s, a).value)
  {
    hide RaceOk, ConnectionOk, CloseDriver, SetState;
    var t := Step(s, a).value;
    forall i | 0 <= i < |t.jobs| ensures JobOk(t, i) {
      assert i < |s.jobs| ==> JobOk(s, i);
    }
  }

  lemma OwnerStepKeeps(s: State, a: Action)
    requires Ok(s) && Step(s, a).Some?
    requires !a.Pop? && !a.Work? && !a.Cancel? && !a.Handle?
    ensures Ok(Step(s, a).value)
  {
    hide RaceOk, JobsOk, Chain, LastAnnounced;
    if a == Mark {
      ChainGrows(s.connection, Closed);
    }
    if a.Submit? {
      SubmittedIsOk(a.kind, a.cancellable, IsCancelled(s, Step(s, a).value.owner.op));
    }
    OwnerStepKeepsJobs(s, a);
  }

  lemma PopKeeps(s: State)
    requires Ok(s) && Step(s, Pop).Some?
    ensures Ok(Step(s, Pop).value)
  {
    hide Chain, LastAnnounced;
    var t := Step(s, Pop).value;
    assert JobOk(s, s.taken);
    forall i | 0 <= i < |t.jobs| ensures JobOk(t, i) {
      assert JobOk(s, i);
    }
  }

  lemma WorkKeepsJobs(s: State, outcome: Outcome)
    requires Ok(s) && Step(s, Work(outcome)).Some?
    ensures JobsOk(Step(s, Work(outcome)).value)
  {
    hide RaceOk, JobStep, JobEffect, ConnectionOk;
    var t, last := Step(s, Work(outcome)).value, s.taken - 1;
    assert JobOk(s, last);
    if s.jobs[last].Async? {
      JobStepKeeps(s.jobs[last].op, IsCancelled(s, s.jobs[last].op), s.connection.driver, outcome);
    }
    forall i | 0 <= i < |t.jobs| ensures JobOk(t, i) {
      assert JobOk(s, i);
    }
  }

  lemma WorkKeepsThreads(s: State, outcome: Outcome)
    requires Ok(s) && Step(s, Work(outcome)).Some?
    ensures ThreadsOk(Step(s, Work(outcome)).value)
  {
    hide RaceOk, JobStep, JobEffect, ConnectionOk;
  }

  lemma EffectIsSound(c: Connection, o: Operation)
    requires c.releases == (if c.driver then 0 else 1) && Chain(c.emitted) && c.state == LastAnnounced(c.emitted)
    ensures var d := JobEffect(c, o);
            && d.releases == (if d.driver then 0 else 1) && Chain(d.emitted) && d.state == LastAnnounced(d.emitted)
            && (d.state == Busy ==> o.job.Starting? || (c.state == Busy && !o.job.Settling?))
  {
    hide Chain, LastAnnounced, SetState;
    ChainGrows(c, Busy);
    ChainGrows(c, Closed);
    ChainGrows(c, Idle);
  }

  lemma ChainGrows(c: Connection, state: ConnectionState)
    requires Chain(c.emitted) && c.state == LastAnnounced(c.emitted)
    ensures var d := SetState(c, state);
            && Chain(d.emitted) && d.state == state == LastAnnounced(d.emitted)
            && d.driver == c.driver && d.releases == c.releases
  {
    var emitted := SetState(c, state).emitted;
    assert forall i | 0 <= i < |c.emitted| :: emitted[i] == c.emitted[i] && emitted[..i] == c.emitted[..i];
    assert emitted[..|c.emitted|] == c.emitted;
  }

  lemma NextJob(o: Operation, cancelled: bool, driver: bool, outcome: Outcome)
    requires JobStep(o, cancelled, driver, outcome).Some?
    ensures var next := JobStep(o, cancelled, driver, outcome).value;
            next.job != Starting && (next.job.Over? ==> o.job.Settling?)
  {
  }

  lemma WorkKeepsConnection(s: State, outcome: Outcome)
    requires Ok(s) && Step(s, Work(outcome)).Some?
    ensures ConnectionOk(Step(s, Work(outcome)).value)
  {
    hide RaceOk, JobsOk, JobEffect, JobStep;
    TakenIsOk(s);
    if s.jobs[s.taken - 1].Async? {
      var op := s.jobs[s.taken - 1].op;
      EffectIsSound(s.connection, op);
      NextJob(op, IsCancelled(s, op), s.connection.driver, outcome);
    }
  }

  lemma CancelKeeps(s: State, c: nat)
    requires Ok(s)
    ensures Ok(Step(s, Cancel(c)).value)
  {
    hide Chain, LastAnnounced;
    var t := Step(s, Cancel(c)).value;
    forall i | 0 <= i < |t.jobs| ensures JobOk(t, i) {
      assert JobOk(s, i);
    }
  }

  lemma HandleKeeps(s: State, target: Target, interrupted: bool)
    requires Ok(s) && Step(s, Handle(target, interrupted)).Some?
    ensures Ok(Step(s, Handle(target, interrupted)).value)
  {
    hide RaceOk, HandlerStep, Chain, LastAnnounced;
    var t := Step(s, Handle(target, interrupted)).value;
    var asked := interrupted && s.connection.driver;
    match target {
      case Prepared =>
        HandlerStepKeeps(s.owner.op, IsCancelled(s, s.owner.op), asked);
      case Pushed(j) =>
        assert JobOk(s, j);
        HandlerStepKeeps(s.jobs[j].op, IsCancelled(s, s.jobs[j].op), asked);
    }
    forall i | 0 <= i < |t.jobs| ensures JobOk(t, i) {
      assert JobOk(s, i);
    }
  }

  lemma StepKeeps(s: State, a: Action)
    requires Ok(s) && Step(s, a).Some?
    ensures Ok(Step(s, a).value)
  {
    hide ThreadsOk, JobsOk, ConnectionOk;
    match a
    case Pop => PopKeeps(s);
    case Work(outcome) =>
      WorkKeepsThreads(s, outcome);
      WorkKeepsJobs(s, outcome);
      WorkKeepsConnection(s, outcome);
    case Cancel(c) => CancelKeeps(s, c);
    case Handle(target, interrupted) => HandleKeeps(s, target, interrupted);
    case _ => OwnerStepKeeps(s, a);
  }

  // ---------------------------------------------------------------- whole runs

  function Run(s: State, actions: seq<Action>): Option<State>
    decreases |actions|
  {
    if actions == [] then Some(s) else
      var before := Run(s, actions[..|actions| - 1]);
      if before.None? || !ThreadsOk(before.value) then None else Step(before.value, actions[|actions| - 1])
  }

  lemma {:induction false} RunKeeps(s: State, actions: seq<Action>)
    requires Ok(s) && Run(s, actions).Some?
    ensures Ok(Run(s, actions).value)
    decreases |actions|
  {
    hide ThreadsOk, JobsOk, ConnectionOk, Step;
    if actions != [] {
      RunKeeps(s, actions[..|actions| - 1]);
      StepKeeps(Run(s, actions[..|actions| - 1]).value, actions[|actions| - 1]);
    }
  }

  ghost predicate Reachable(s: State) {
    exists actions :: Run(Opened(), actions) == Some(s)
  }

  lemma ReachableIsOk(s: State)
    requires Reachable(s)
    ensures Ok(s)
  {
    hide Ok, Run;
    var actions :| Run(Opened(), actions) == Some(s);
    OpenedIsOk();
    RunKeeps(Opened(), actions);
  }

  /** Job `i` is inside the backend: a statement of its own, or the function of a synchronous call. */
  predicate InBackend(s: State, i: nat)
    requires i < |s.jobs|
  {
    s.jobs[i] == Sync(Serving) || (s.jobs[i].Async? && s.jobs[i].op.job.Calling?)
  }

  /** Backend work is never concurrent, and happens in push order: everything pushed before it has finished. */
  lemma OneAtATime(s: State, i: nat)
    requires Reachable(s) && i < |s.jobs| && InBackend(s, i)
    ensures forall j | 0 <= j < |s.jobs| && InBackend(s, j) :: j == i
    ensures forall j | 0 <= j < i :: Finished(s, j)
    ensures !s.owner.Inline? && !s.owner.ReleasingDriver?
  {
    hide RaceOk, ConnectionOk, Reachable;
    ReachableIsOk(s);
    forall j | 0 <= j < |s.jobs| && InBackend(s, j) ensures j == s.taken - 1 && s.worker == Running {
      assert JobOk(s, j);
    }
  }

  /** A task is never returned twice, and has been returned once its job has finished. */
  lemma TasksAreAnswered(s: State, i: nat)
    requires Reachable(s) && i < |s.jobs| && s.jobs[i].Async?
    ensures |s.jobs[i].op.answers| <= 1
    ensures Finished(s, i) ==> |s.jobs[i].op.answers| == 1 && !HandlerRuns(s.jobs[i].op)
    ensures s.jobs[i].op.skipped ==> s.jobs[i].op.calls == 0
  {
    hide ConnectionOk, Reachable;
    ReachableIsOk(s);
    assert JobOk(s, i);
  }

  /** The backend handle is released at most once; busy means that the worker is inside op_run(). */
  lemma ConnectionIsSound(s: State)
    requires Reachable(s)
    ensures s.connection.releases <= 1 && (s.connection.driver ==> s.connection.releases == 0)
    ensures s.connection.state == Busy ==> s.worker == Running && 0 < s.taken <= |s.jobs| && s.jobs[s.taken - 1].Async?
    ensures Chain(s.connection.emitted)
    ensures s.owner != Gone ==> s.connection.state == LastAnnounced(s.connection.emitted)
  {
    hide Reachable;
    ReachableIsOk(s);
  }

  /** A synchronous call returns only after its own function and everything pushed before it has run. */
  lemma WakeAfterEverythingBefore(s: State)
    requires Reachable(s) && CanStep(s, Wake)
    ensures forall i | 0 <= i <= s.owner.job :: i < |s.jobs| && Finished(s, i)
    ensures s.jobs[s.owner.job] == Sync(Served)
  {
    hide Reachable;
    ReachableIsOk(s);
    assert JobOk(s, s.owner.job);
  }

  /** A synchronous close reaches the backend handle only after every job has run and the worker is gone. */
  lemma CloseDrains(s: State)
    requires Reachable(s) && CanStep(s, Release)
    ensures s.worker == NoThread && forall i | 0 <= i < |s.jobs| :: Finished(s, i)
  {
    hide Reachable;
    ReachableIsOk(s);
  }

  /** A synchronous close, the final one included, leaves no handle, one release and the closed state. */
  lemma CloseReleases(s: State)
    requires Reachable(s) && CanStep(s, Mark)
    ensures var t := Step(s, Mark).value;
            && !t.connection.driver && t.connection.releases == 1 && t.connection.state == Closed
            && t.owner == (if s.owner.final then Gone else Free)
            && t.worker == NoThread && !t.pointer && forall i | 0 <= i < |t.jobs| :: Finished(t, i)
  {
    hide Reachable, JobsOk;
    ReachableIsOk(s);
  }

  /** So does the finalization of a connection that was dropped while operations held it. */
  lemma FinalizeReleases(s: State)
    requires Reachable(s) && CanStep(s, Finalize)
    ensures var t := Step(s, Finalize).value;
            && !t.connection.driver && t.connection.releases == 1 && t.connection.state == Closed
            && forall i | 0 <= i < |t.jobs| :: Finished(t, i)
  {
    hide Reachable, JobsOk;
    ReachableIsOk(s);
  }

  // ---------------------------------------------------------------- the state an operation leaves behind

  /**
   The state follows the operation in progress: busy until its outcome is noted, and then closed if
   the operation closed the connection or found it gone.  Nothing in it is about the state before.
   */
  predicate Fits(c: Connection, o: Operation) {
    && (match o.job
        case Starting => true
        case Checking | CancelSeen | CancelWon | Calling | Noting(_) => c.state == Busy
        case _ => c.state == if EndsClosed(o) then Closed else Busy)
    && (o.kind == Statement && !c.driver ==>
          (o.job.Noting? ==> o.job.outcome == Broken) && (o.noted.Some? ==> o.noted == Some(Broken)))
  }

  predicate Decided(s: State)
    requires ThreadsOk(s)
  {
    s.worker == Running && s.jobs[s.taken - 1].Async? ==> Fits(s.connection, s.jobs[s.taken - 1].op)
  }

  lemma JobStepFits(c: Connection, o: Operation, cancelled: bool, outcome: Outcome)
    requires RaceOk(o, cancelled) && Fits(c, o) && JobStep(o, cancelled, c.driver, outcome).Some?
    ensures var next := JobStep(o, cancelled, c.driver, outcome).value;
            next.job.Over? || Fits(JobEffect(c, o), next)
  {
  }

  lemma TakenIsOk(s: State)
    requires Ok(s) && s.taken > 0
    ensures s.taken <= |s.jobs| && JobOk(s, s.taken - 1)
  {
  }

  lemma WorkDecides(s: State, outcome: Outcome)
    requires Ok(s) && Decided(s) && Step(s, Work(outcome)).Some?
    ensures ThreadsOk(Step(s, Work(outcome)).value) && Decided(Step(s, Work(outcome)).value)
  {
    hide JobsOk, ConnectionOk, RaceOk, JobStep, JobEffect, Fits;
    WorkKeepsThreads(s, outcome);
    TakenIsOk(s);
    if s.jobs[s.taken - 1].Async? {
      var op := s.jobs[s.taken - 1].op;
      JobStepFits(s.connection, op, IsCancelled(s, op), outcome);
    }
  }

  lemma HandlerKeepsJob(c: Connection, o: Operation, cancelled: bool, interrupted: bool)
    requires HandlerStep(o, cancelled, interrupted).Some?
    ensures Fits(c, HandlerStep(o, cancelled, interrupted).value) <==> Fits(c, o)
  {
  }

  lemma HandleDecides(s: State, target: Target, interrupted: bool)
    requires Ok(s) && Decided(s) && Step(s, Handle(target, interrupted)).Some?
    ensures ThreadsOk(Step(s, Handle(target, interrupted)).value) && Decided(Step(s, Handle(target, interrupted)).value)
  {
    hide JobsOk, ConnectionOk, RaceOk, HandlerStep, Fits;
    HandleKeeps(s, target, interrupted);
    if target.Pushed? {
      var op := s.jobs[target.job].op;
      HandlerKeepsJob(s.connection, op, IsCancelled(s, op), interrupted && s.connection.driver);
    }
  }

  lemma OthersDecide(s: State, a: Action)
    requires Ok(s) && Decided(s) && Step(s, a).Some? && !a.Work? && !a.Handle?
    ensures ThreadsOk(Step(s, a).value) && Decided(Step(s, a).value)
  {
    hide JobsOk, ConnectionOk;
    StepKeeps(s, a);
    if a.Pop? {
      NextIsOk(s);
    }
  }

  lemma NextIsOk(s: State)
    requires Ok(s) && s.taken < |s.jobs|
    ensures JobOk(s, s.taken)
  {
  }

  lemma StepDecides(s: State, a: Action)
    requires Ok(s) && Decided(s) && Step(s, a).Some?
    ensures ThreadsOk(Step(s, a).value) && Decided(Step(s, a).value)
  {
    hide Ok, Decided, Step;
    match a
    case Work(outcome) => WorkDecides(s, outcome);
    case Handle(target, interrupted) => HandleDecides(s, target, interrupted);
    case _ => OthersDecide(s, a);
  }

  lemma {:induction false} RunDecides(s: State, actions: seq<Action>)
    requires Ok(s) && Decided(s) && Run(s, actions).Some?
    ensures ThreadsOk(Run(s, actions).value) && Decided(Run(s, actions).value)
    decreases |actions|
  {
    hide Ok, Decided, Step;
    if actions == [] {
      OkThreads(s);
    } else {
      var front, last := actions[..|actions| - 1], actions[|actions| - 1];
      RunDecides(s, front);
      RunKeeps(s, front);
      StepDecides(Run(s, front).value, last);
    }
  }

  lemma OkThreads(s: State)
    requires Ok(s)
    ensures ThreadsOk(s)
  {
  }

  lemma ReachableIsDecided(s: State)
    requires Reachable(s)
    ensures ThreadsOk(s) && Decided(s)
  {
    hide Ok, Run, Decided;
    var actions :| Run(Opened(), actions) == Some(s);
    OpenedIsDecided();
    RunDecides(Opened(), actions);
  }

  lemma OpenedIsDecided()
    ensures Ok(Opened()) && Decided(Opened())
  {
  }

  /** The worker is about to settle the state after an operation. */
  predicate Settles(s: State) {
    && s.worker == Running && 0 < s.taken <= |s.jobs| && s.jobs[s.taken - 1].Async?
    && s.jobs[s.taken - 1].op.job.Settling?
  }

  /**
   Closed is not an absorbing state.  Whatever the state was when an operation was popped, closed
   included, it ends closed if and only if that operation was a close, or a statement that found the
   connection gone, and was not cancelled up front; otherwise it ends idle.  Once the backend handle
   is gone, every statement finds the connection gone.
   */
  lemma ClosedIsNotAbsorbing(s: State, outcome: Outcome)
    requires Reachable(s) && Settles(s)
    ensures CanStep(s, Work(outcome))
    ensures var t, op := Step(s, Work(outcome)).value, s.jobs[s.taken - 1].op;
            && t.worker == Popping && t.taken == s.taken
            && t.connection.state == (if EndsClosed(op) then Closed else Idle)
            && (!s.connection.driver ==> (EndsClosed(op) <==> op.kind != Fetch && !op.skipped))
  {
    hide Reachable, JobsOk, ConnectionOk;
    ReachableIsOk(s);
    ReachableIsDecided(s);
    TakenIsOk(s);
  }

  ghost predicate ReachableFrom(s: State, t: State) {
    exists actions :: Run(s, actions) == Some(t)
  }

  lemma Extend(s: State, t: State, a: Action)
    requires ReachableFrom(s, t) && ThreadsOk(t) && Step(t, a).Some?
    ensures ReachableFrom(s, Step(t, a).value)
  {
    assert t.taken <= |t.jobs| && (t.worker == Running ==> t.taken > 0);
    hide Step, ThreadsOk;
    var actions :| Run(s, actions) == Some(t);
    assert (actions + [a])[..|actions|] == actions;
    assert Run(s, actions + [a]) == Step(t, a);
  }

  lemma ExtendBoth(s: State, t: State, a: Action)
    requires Reachable(t) && ReachableFrom(s, t) && Ok(t) && Step(t, a).Some?
    ensures Reachable(Step(t, a).value) && ReachableFrom(s, Step(t, a).value)
  {
    hide ThreadsOk, JobsOk, ConnectionOk, Step, Run;
    assert ReachableFrom(Opened(), t);
    Extend(Opened(), t, a);
    Extend(s, t, a);
  }

  /** An uncancelled operation of this kind, begun with or without a handle, whose statements end like this. */
  predicate Undisturbed(c: Connection, o: Operation, kind: Kind, driver: bool, outcome: Outcome) {
    var how := if kind == CloseConnection then Fine else if kind == Statement && !driver then Broken else outcome;
    && o.kind == kind && o.cancellable.None? && !o.skipped
    && (o.job.Noting? ==> o.job.outcome == how) && (o.noted.Some? ==> o.noted == Some(how))
    && c.driver == (driver && (kind != CloseConnection || !AfterCall(o.job)))
  }

  lemma UndisturbedWorks(c: Connection, o: Operation, kind: Kind, driver: bool, outcome: Outcome)
    requires RaceOk(o, false) && Undisturbed(c, o, kind, driver, outcome) && !o.job.Over? && !o.job.Queued?
    ensures var next := JobStep(o, false, c.driver, outcome);
            && next.Some? && Undisturbed(JobEffect(c, o), next.value, kind, driver, outcome)
            && !next.value.job.Queued? && JobRank(next.value.job) < JobRank(o.job)
    ensures o.job.Settling? ==> o.noted.Some?
  {
  }

  /** The job that was pushed last is such an operation, and everything before it is over. */
  predicate Alone(s: State, kind: Kind, driver: bool, outcome: Outcome) {
    && s.owner == Free && s.pointer && s.taken == |s.jobs| > 0 && s.jobs[s.taken - 1].Async?
    && !s.jobs[s.taken - 1].op.job.Queued?
    && s.worker == (if s.jobs[s.taken - 1].op.job.Over? then Popping else Running)
    && Undisturbed(s.connection, s.jobs[s.taken - 1].op, kind, driver, outcome)
  }

  lemma AloneWorks(s: State, kind: Kind, driver: bool, outcome: Outcome)
    requires Ok(s) && Alone(s, kind, driver, outcome) && !s.jobs[s.taken - 1].op.job.Over?
    ensures Step(s, Work(outcome)).Some? && Alone(Step(s, Work(outcome)).value, kind, driver, outcome)
    ensures var t := Step(s, Work(outcome)).value;
            JobRank(t.jobs[t.taken - 1].op.job) < JobRank(s.jobs[s.taken - 1].op.job)
    ensures s.jobs[s.taken - 1].op.job.Settling? ==> s.jobs[s.taken - 1].op.noted.Some?
  {
    hide JobsOk, ConnectionOk, ThreadsOk, RaceOk, JobStep, JobEffect, JobRank;
    TakenIsOk(s);
    var op := s.jobs[s.taken - 1].op;
    assert !IsCancelled(s, op);
    UndisturbedWorks(s.connection, op, kind, driver, outcome);
  }

  /** An operation that nobody cancels, on a connection that is at rest, runs to its end and reports how that was. */
  lemma OneOperation(s: State, kind: Kind, outcome: Outcome) returns (t: State)
    requires Reachable(s) && s.owner == Free && s.worker != Running && s.taken == |s.jobs|
    ensures Reachable(t) && ReachableFrom(s, t)
    ensures t.owner == Free && t.worker == Popping && t.taken == |t.jobs|
    ensures t.connection.driver == (s.connection.driver && kind != CloseConnection)
    ensures t.connection.state == StateAfter(kind, s.connection.driver, outcome)
    ensures |t.jobs| == |s.jobs| + 1 && t.jobs[..|s.jobs|] == s.jobs && t.jobs[|s.jobs|].Async?
    ensures t.jobs[|s.jobs|].op.answers
            == [Result(if kind == CloseConnection then Fine
                       else if kind == Statement && !s.connection.driver then Broken else outcome)]
  {
    hide JobsOk, ConnectionOk, ThreadsOk, RaceOk, JobStep, JobEffect, Reachable, ReachableFrom, Step, StateAfter;
    var driver := s.connection.driver;
    t := StartOperation(s, kind);
    StartIsAlone(s, kind, outcome);
    while !t.jobs[t.taken - 1].op.job.Over?
      invariant Reachable(t) && ReachableFrom(s, t) && Alone(t, kind, driver, outcome)
      invariant |t.jobs| == |s.jobs| + 1 && t.jobs[..|s.jobs|] == s.jobs
      invariant t.jobs[t.taken - 1].op.job.Over? ==> t.connection.state == StateAfter(kind, driver, outcome)
      decreases JobRank(t.jobs[t.taken - 1].op.job)
    {
      ReachableIsOk(t);
      AloneWorks(t, kind, driver, outcome);
      AloneSettles(t, kind, driver, outcome);
      WorkIsOnTheLast(t, outcome);
      ExtendBoth(s, t, Work(outcome));
      t := Step(t, Work(outcome)).value;
    }
    ReachableIsOk(t);
    AloneAnswers(t, kind, driver, outcome);
  }

  lemma WorkIsOnTheLast(s: State, outcome: Outcome)
    requires ThreadsOk(s) && s.taken == |s.jobs| && Step(s, Work(outcome)).Some?
    ensures |Step(s, Work(outcome)).value.jobs| == |s.jobs| > 0
    ensures Step(s, Work(outcome)).value.jobs[..|s.jobs| - 1] == s.jobs[..|s.jobs| - 1]
  {
  }

  lemma AloneAnswers(s: State, kind: Kind, driver: bool, outcome: Outcome)
    requires Ok(s) && Alone(s, kind, driver, outcome) && s.jobs[s.taken - 1].op.job.Over?
    ensures s.jobs[s.taken - 1].op.answers
            == [Result(if kind == CloseConnection then Fine else if kind == Statement && !driver then Broken else outcome)]
  {
    TakenIsOk(s);
    OneAnswer(s.jobs[s.taken - 1].op, false);
  }

  /** The state that an uncancelled operation leaves. */
  function StateAfter(kind: Kind, driver: bool, outcome: Outcome): ConnectionState {
    if kind == CloseConnection || (kind == Statement && (outcome == Broken || !driver)) then Closed else Idle
  }

  lemma AloneSettles(s: State, kind: Kind, driver: bool, outcome: Outcome)
    requires Reachable(s) && Ok(s) && Alone(s, kind, driver, outcome) && !s.jobs[s.taken - 1].op.job.Over?
    requires Step(s, Work(outcome)).Some? && Alone(Step(s, Work(outcome)).value, kind, driver, outcome)
    ensures var t := Step(s, Work(outcome)).value;
            t.jobs[t.taken - 1].op.job.Over? ==> t.connection.state == StateAfter(kind, driver, outcome)
  {
    hide JobsOk, ConnectionOk, Reachable, JobEffect;
    var op := s.jobs[s.taken - 1].op;
    NextJob(op, IsCancelled(s, op), s.connection.driver, outcome);
    if op.job.Settling? {
      TakenIsOk(s);
      ClosedIsNotAbsorbing(s, outcome);
    }
  }

  /** The state in which the job of a new operation has just been popped. */
  function Started(s: State, kind: Kind): State {
    s.(owner := Free, pointer := true, worker := Running, taken := s.taken + 1,
       jobs := s.jobs + [Async(Submitted(kind, None, false).(job := Starting))])
  }

  lemma StartOperation(s: State, kind: Kind) returns (t: State)
    requires Reachable(s) && s.owner == Free && s.worker != Running && s.taken == |s.jobs|
    ensures t == Started(s, kind) && Reachable(t) && ReachableFrom(s, t)
  {
    hide JobsOk, ConnectionOk, Reachable, ReachableFrom, Submitted;
    ReachableIsOk(s);
    FromItself(s);
    t := s;
    ExtendBoth(s, t, Submit(kind, None));
    t := Step(t, Submit(kind, None)).value;
    ReachableIsOk(t);
    ExtendBoth(s, t, Push);
    t := Step(t, Push).value;
    ReachableIsOk(t);
    ExtendBoth(s, t, Pop);
    t := Step(t, Pop).value;
    var op := Submitted(kind, None, false);
    assert (s.jobs + [Async(op)])[|s.jobs| := Async(op.(job := Starting))] == s.jobs + [Async(op.(job := Starting))];
  }

  lemma FromItself(s: State)
    ensures ReachableFrom(s, s)
  {
    assert Run(s, []) == Some(s);
  }

  lemma StartIsAlone(s: State, kind: Kind, outcome: Outcome)
    requires s.taken == |s.jobs|
    ensures Alone(Started(s, kind), kind, s.connection.driver, outcome)
    ensures !Started(s, kind).jobs[s.taken].op.job.Over?
  {
  }

  /**
   Both ways into the closed state are left again: a connection whose statement found it gone, while
   its handle was still there, and one that was closed, become idle by the next operation.
   */
  lemma ClosedThenIdle(released: bool)
    ensures exists closed, idle ::
              && Reachable(closed) && closed.connection.state == Closed && closed.connection.driver == !released
              && ReachableFrom(closed, idle) && idle.connection.state == Idle
  {
    hide Reachable, ReachableFrom, Run;
    OpenedIsReachable();
    if released {
      var closed := OneOperation(Opened(), CloseConnection, Fine);
      var idle := OneOperation(closed, Fetch, Fine);
    } else {
      var closed := OneOperation(Opened(), Statement, Broken);
      var idle := OneOperation(closed, Statement, Fine);
    }
  }

  lemma OpenedIsReachable()
    ensures Reachable(Opened())
  {
    assert Run(Opened(), []) == Some(Opened());
  }

  // ---------------------------------------------------------------- a blocked owner is always woken

  function JobRank(job: JobPc): nat {
    match job
    case Queued => 12
    case Starting => 11
    case Checking => 10
    case CancelSeen | Calling => 9
    case CancelWon | Noting(_) => 8
    case Answering(_) => 7
    case Won(_) => 6
    case Owing(_) => 5
    case Ending => 4
    case Settling => 3
    case Over => 0
  }

  function HandlerRank(handler: HandlerPc): nat {
    match handler
    case Connected => 4
    case Interrupting => 3
    case Contending => 2
    case HandlerOwes => 1
    case Unconnected | Returned => 0
  }

  function Rank(job: Job): nat {
    match job
    case Async(op) => JobRank(op.job) + HandlerRank(op.handler)
    case Sync(pc) => if pc == Waiting then 2 else if pc == Serving then 1 else 0
    case Sentinel(popped) => if popped then 0 else 1
  }

  /** How many statements the worker and the handlers can still run without new work. */
  function WorkLeft(jobs: seq<Job>): nat {
    if jobs == [] then 0 else Rank(jobs[0]) + WorkLeft(jobs[1..])
  }

  lemma {:induction false} WorkLeftUpdate(jobs: seq<Job>, i: nat, job: Job)
    requires i < |jobs|
    ensures WorkLeft(jobs[i := job]) == WorkLeft(jobs) - Rank(jobs[i]) + Rank(job)
  {
    if i == 0 {
      assert jobs[i := job][1..] == jobs[1..];
    } else {
      assert jobs[i := job][1..] == jobs[1..][i - 1 := job];
      WorkLeftUpdate(jobs[1..], i - 1, job);
    }
  }

  predicate Blocked(s: State) {
    || (s.owner.Awaiting? && !CanStep(s, Wake))
    || (s.owner.Joining? && !CanStep(s, Join))
  }

  predicate Background(a: Action) {
    a.Pop? || a.Work? || (a.Handle? && a.target.Pushed?)
  }

  /** Nothing that was pushed gets stuck: while a job is unfinished, the worker or a handler can move. */
  lemma UnfinishedMeansProgress(s: State, job: nat)
    requires Ok(s) && job < |s.jobs| && !Finished(s, job)
    ensures exists a :: Background(a) && CanStep(s, a)
  {
    hide ConnectionOk, JobEffect;
    if s.worker == Popping {
      assert Background(Pop) && CanStep(s, Pop);
    } else {
      var i := s.taken - 1;
      assert s.worker == Running && JobOk(s, i);
      if s.jobs[i].Async? && s.jobs[i].op.job.Ending? && HandlerRuns(s.jobs[i].op) {
        assert Background(Handle(Pushed(i), false)) && CanStep(s, Handle(Pushed(i), false));
      } else {
        assert Background(Work(Fine)) && CanStep(s, Work(Fine));
      }
    }
  }

  /** No deadlock: while the owner waits, the worker or a handler can move. */
  lemma BlockedMeansProgress(s: State)
    requires Ok(s) && Blocked(s)
    ensures exists a :: Background(a) && CanStep(s, a)
  {
    hide RaceOk, ConnectionOk, JobEffect, JobStep, HandlerStep;
    if s.owner.Awaiting? {
      assert JobOk(s, s.owner.job);
      UnfinishedMeansProgress(s, s.owner.job);
    } else {
      assert JobOk(s, |s.jobs| - 1);
      UnfinishedMeansProgress(s, |s.jobs| - 1);
    }
  }

  /** No livelock: each such move leaves less to do, and cancelling adds nothing. */
  lemma BackgroundTerminates(s: State, a: Action)
    requires Ok(s) && Step(s, a).Some?
    ensures Background(a) ==> WorkLeft(Step(s, a).value.jobs) < WorkLeft(s.jobs)
    ensures a.Cancel? ==> Step(s, a).value.jobs == s.jobs
  {
    if Background(a) {
      var i := if a.Pop? then s.taken else if a.Work? then s.taken - 1 else a.target.job;
      BackgroundMoves(s, a, i);
      WorkLeftUpdate(s.jobs, i, Step(s, a).value.jobs[i]);
    }
  }

  lemma BackgroundMoves(s: State, a: Action, i: nat)
    requires Ok(s) && Step(s, a).Some? && Background(a)
    requires i == if a.Pop? then s.taken else if a.Work? then s.taken - 1 else a.target.job
    ensures var t := Step(s, a).value;
            i < |s.jobs| && t.jobs == s.jobs[i := t.jobs[i]] && Rank(t.jobs[i]) < Rank(s.jobs[i])
  {
    hide RaceOk, ConnectionOk, JobEffect, JobStep, HandlerStep, JobRank, HandlerRank;
    assert i < |s.jobs| && JobOk(s, i);
    if s.jobs[i].Async? {
      var op := s.jobs[i].op;
      JobStepRank(op, IsCancelled(s, op), s.connection.driver, if a.Work? then a.outcome else Fine);
      HandlerStepRank(op, IsCancelled(s, op), a.Handle? && a.interrupted && s.connection.driver);
    }
  }

  lemma JobStepRank(o: Operation, cancelled: bool, driver: bool, outcome: Outcome)
    ensures o.job.Queued? ==> JobRank(Starting) < JobRank(o.job)
    ensures var next := JobStep(o, cancelled, driver, outcome);
            next.Some? ==> JobRank(next.value.job) < JobRank(o.job)
                           && HandlerRank(next.value.handler) <= HandlerRank(o.handler)
  {
  }

  lemma HandlerStepRank(o: Operation, cancelled: bool, interrupted: bool)
    ensures var next := HandlerStep(o, cancelled, interrupted);
            next.Some? ==> next.value.job == o.job && HandlerRank(next.value.handler) < HandlerRank(o.handler)
  {
  }

  // ---------------------------------------------------------------- a close runs to its end

  lemma BackgroundKeepsOwner(s: State, a: Action)
    requires CanStep(s, a) && Background(a)
    ensures var t := Step(s, a).value;
            t.owner == s.owner && |t.jobs| == |s.jobs| && (t.worker == NoThread <==> s.worker == NoThread)
  {
  }

  lemma LastIsOk(s: State)
    requires Ok(s) && |s.jobs| > 0
    ensures JobOk(s, |s.jobs| - 1)
  {
  }

  /** One move of the worker or of a handler, while there is work. */
  lemma MoveOn(s: State, t: State, job: nat) returns (next: State)
    requires Reachable(t) && ReachableFrom(s, t) && job < |t.jobs| && !Finished(t, job)
    ensures Reachable(next) && ReachableFrom(s, next)
    ensures next.owner == t.owner && |next.jobs| == |t.jobs| && (next.worker == NoThread <==> t.worker == NoThread)
    ensures WorkLeft(next.jobs) < WorkLeft(t.jobs)
  {
    hide Reachable, ReachableFrom, ThreadsOk, JobsOk, ConnectionOk, Step, WorkLeft;
    ReachableIsOk(t);
    UnfinishedMeansProgress(t, job);
    var a :| Background(a) && CanStep(t, a);
    BackgroundKeepsOwner(t, a);
    BackgroundTerminates(t, a);
    ExtendBoth(s, t, a);
    next := Step(t, a).value;
  }

  /**
   From every reachable state with a free owner a synchronous close can be run to its end, with a
   worker or without, whatever is queued; and then the handle is gone, released once, and the state closed.
   The final close, of the last reference, needs a connection that no operation holds.
   */
  lemma CloseRuns(s: State, final: bool) returns (t: State)
    requires Reachable(s) && s.owner == Free && (final ==> Quiet(s))
    ensures Reachable(t) && ReachableFrom(s, t)
    ensures t.owner == if final then Gone else Free
    ensures !t.connection.driver && t.connection.releases == 1 && t.connection.state == Closed
    ensures t.worker == NoThread && !t.pointer && forall i | 0 <= i < |t.jobs| :: Finished(t, i)
  {
    hide Reachable, ReachableFrom, JobsOk, ConnectionOk, JobEffect, JobStep, HandlerStep, WorkLeft;
    ReachableIsOk(s);
    FromItself(s);
    ExtendBoth(s, s, Close(final));
    t := Step(s, Close(final)).value;
    if s.pointer {
      while t.worker != Exited
        invariant Reachable(t) && ReachableFrom(s, t) && t.owner == Joining(final)
        decreases WorkLeft(t.jobs)
      {
        ReachableIsOk(t);
        LastIsOk(t);
        t := MoveOn(s, t, |t.jobs| - 1);
      }
      ReachableIsOk(t);
      ExtendBoth(s, t, Join);
      t := Step(t, Join).value;
    }
    ReachableIsOk(t);
    ExtendBoth(s, t, Release);
    t := Step(t, Release).value;
    ReachableIsOk(t);
    CloseReleases(t);
    ExtendBoth(s, t, Mark);
    t := Step(t, Mark).value;
  }

  /** A connection that is dropped while operations hold it is released once they have run. */
  lemma DropRuns(s: State) returns (t: State)
    requires Reachable(s) && s.owner == Free && !Quiet(s)
    ensures Reachable(t) && ReachableFrom(s, t)
    ensures t.owner == Gone && !t.connection.driver && t.connection.releases == 1
    ensures forall i | 0 <= i < |t.jobs| :: Finished(t, i)
  {
    hide Reachable, ReachableFrom, JobsOk, JobEffect, JobStep, HandlerStep, WorkLeft;
    ReachableIsOk(s);
    FromItself(s);
    ExtendBoth(s, s, Drop);
    t := Step(s, Drop).value;
    while !Quiet(t)
      invariant Reachable(t) && ReachableFrom(s, t) && t.owner == Gone && t.worker != NoThread && |t.jobs| == |s.jobs| > 0
      decreases WorkLeft(t.jobs)
    {
      ReachableIsOk(t);
      t := MoveOn(s, t, |t.jobs| - 1);
    }
    ReachableIsOk(t);
    if t.connection.driver {
      FinalizeReleases(t);
      ExtendBoth(s, t, Finalize);
      t := Step(t, Finalize).value;
    }
  }

  /**
   An operation that is submitted and then cancelled need not wait for its turn: while its job is still
   queued, a handler that cannot interrupt the backend has already returned its task as cancelled.
   */
  lemma CancelledInQueue(s: State, kind: Kind, cancellable: nat) returns (t: State)
    requires Reachable(s) && s.owner == Free && cancellable !in s.cancelled
    ensures Reachable(t) && ReachableFrom(s, t) && t.owner == Free
    ensures |t.jobs| == |s.jobs| + 1 && t.jobs[|s.jobs|].Async?
    ensures var op := t.jobs[|s.jobs|].op;
            op.kind == kind && op.cancellable == Some(cancellable) && op.job.Queued? && op.answers == [OperationRace.Cancelled]
  {
    hide Reachable, ReachableFrom, JobsOk, ConnectionOk, JobStep, HandlerStep;
    ReachableIsOk(s);
    FromItself(s);
    var i := |s.jobs|;
    var o := Submitted(kind, Some(cancellable), false);
    HandlerAdvances(o, false);
    ExtendBoth(s, s, Submit(kind, Some(cancellable)));
    t := Step(s, Submit(kind, Some(cancellable))).value;
    ReachableIsOk(t);
    ExtendBoth(s, t, Push);
    t := Step(t, Push).value;
    ReachableIsOk(t);
    ExtendBoth(s, t, Cancel(cancellable));
    t := Step(t, Cancel(cancellable)).value;
    t := HandleOnce(s, t, i);
    t := HandleOnce(s, t, i);
    t := HandleOnce(s, t, i);
    t := HandleOnce(s, t, i);
  }

  lemma HandleOnce(s: State, t: State, i: nat) returns (next: State)
    requires Reachable(t) && ReachableFrom(s, t) && i < |t.jobs| && t.jobs[i].Async? && IsCancelled(t, t.jobs[i].op)
    requires Advance(Race(t.jobs[i].op, true), HandlerMove(false)).Some?
    ensures Reachable(next) && ReachableFrom(s, next) && next.owner == t.owner && next.cancelled == t.cancelled
    ensures next.jobs == t.jobs[i := Async(Advance(Race(t.jobs[i].op, true), HandlerMove(false)).value.op)]
  {
    hide Reachable, ReachableFrom, JobsOk, ConnectionOk, ThreadsOk, HandlerStep;
    ReachableIsOk(t);
    OkThreads(t);
    ExtendBoth(s, t, Handle(Pushed(i), false));
    next := Step(t, Handle(Pushed(i), false)).value;
  }
}
