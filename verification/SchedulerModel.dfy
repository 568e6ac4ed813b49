/**
The evaluation store as four coupled tables (work items, attempts, trials, runs) plus the grade rows, and every
transaction that changes them.  A row is identified by its position: a new row gets a position no other row has.
Each transaction is one step; a refused step leaves the store as it was.
*/
module SchedulerModel {
  import opened Options

  const NANOSECONDS := 1_000_000_000
  const MAX_TRIALS := 10_000

  datatype WorkState = Queued | Running | CancelRequested | Reconciling | Finished
  datatype WorkKind = AttemptWork | TurnWork
  datatype Execution = ExecQueued | ExecRunning | ExecFinished | ExecCancelled | ExecError | ExecBlocked
  datatype Cleanup = Pending | Clean | Residual | Unknown
  datatype ErrorOrigin =
    TaskLogic | RunnerUnavailable | RunnerCrash | EnvironmentSetup | ProviderUnavailable | GraderInfrastructure
  datatype AgentOutcome =
    AgentCompleted | AgentFailed | AgentCancelled | TimedOut | BudgetExhausted | AgentBlocked | Indeterminate
  datatype GradeState = Unscored | Grading | Graded | GraderError
  datatype GradeResult = Pass | Fail
  datatype RunState =
    RunCreated | RunQueued | RunRunning | RunCancelRequested | RunCompleted | RunFailed | RunCancelled
    | RunIndeterminate

  datatype Work = Work(kind: WorkKind, business: nat, state: WorkState, owner: Option<nat>, version: nat)

  /** An attempt row joined with its detail row; `grant` is the wall budget the deadline was computed from. */
  datatype Attempt = Attempt(trial: nat, number: nat, exec: Execution, error: Option<ErrorOrigin>, cleanup: Cleanup,
                             work: nat, start: Option<int>, elapsed: Option<nat>, grant: Option<int>,
                             heartbeat: Option<int>, outcome: Option<AgentOutcome>, grade: Option<nat>)
  datatype Grade = Grade(attempt: nat, state: GradeState, result: Option<GradeResult>, reward: Option<real>)
  datatype Trial = Trial(run: nat, task: nat, repeat: nat, selected: Option<nat>)

  /** A run with its plan: every task is repeated `repeats` times. */
  datatype Run = Run(state: RunState, attemptWall: nat, trialWall: nat, maxAttempts: nat, retryable: set<ErrorOrigin>,
                     tasks: seq<nat>, repeats: nat)

  datatype Store = Store(epoch: nat, works: seq<Work>, attempts: seq<Attempt>, trials: seq<Trial>, runs: seq<Run>,
                         grades: seq<Grade>)

  const EMPTY := Store(0, [], [], [], [], [])

  datatype Refusal = NotFound | Stale | Unconfirmed | Unauthorized | Invalid | Fault
  datatype Reply =
    | Done
    | Granted(version: nat, duration: int)
    | Exhausted
    | Refused(reason: Refusal)

  // ---------------------------------------------------------------- reading the tables

  /** The join behind `_row`: the item exists and is an attempt's. */
  predicate IsItem(s: Store, w: nat) {
    w < |s.works| && s.works[w].kind == AttemptWork && s.works[w].business < |s.attempts|
    && s.attempts[s.works[w].business].trial < |s.trials|
  }

  /** The join behind `settle_run` and `cancel`: the item belongs to the run. */
  predicate ItemOf(s: Store, w: nat, r: nat) {
    IsItem(s, w) && s.trials[s.attempts[s.works[w].business].trial].run == r
  }

  function RunOf(s: Store, w: nat): nat
    requires IsItem(s, w)
  {
    s.trials[s.attempts[s.works[w].business].trial].run
  }

  predicate Open(state: WorkState) { state.Queued? || state.Running? || state.CancelRequested? }

  predicate HasReconciling(s: Store, r: nat) {
    exists w :: 0 <= w < |s.works| && ItemOf(s, w, r) && s.works[w].state.Reconciling?
  }

  predicate HasOpen(s: Store, r: nat) {
    exists w :: 0 <= w < |s.works| && ItemOf(s, w, r) && Open(s.works[w].state)
  }

  predicate HasItems(s: Store, r: nat) {
    exists w :: 0 <= w < |s.works| && ItemOf(s, w, r)
  }

  /** The worker is taken: some item of either kind runs or awaits reconciliation. */
  predicate WorkerTaken(s: Store) {
    exists w :: 0 <= w < |s.works| && (s.works[w].state.Running? || s.works[w].state.Reconciling?)
  }

  /** The attempt half of `cleanup_blocked`. */
  predicate CleanupBlocked(s: Store) {
    exists a :: 0 <= a < |s.attempts| && s.attempts[a].work < |s.works| && !s.attempts[a].cleanup.Clean?
                && var w := s.works[s.attempts[a].work];
                (w.state.Finished? || (w.owner.Some? && w.owner.value != s.epoch))
  }

  function Elapsed(a: Attempt): nat {
    if a.elapsed.Some? then a.elapsed.value else 0
  }

  /** Wall time recorded for a trial over all its attempts. */
  function Spent(attempts: seq<Attempt>, t: nat): nat {
    if attempts == [] then 0
    else Spent(attempts[..|attempts| - 1], t)
         + (if attempts[|attempts| - 1].trial == t then Elapsed(attempts[|attempts| - 1]) else 0)
  }

  /** COALESCE(MAX(attempt_no), 0) over the trial. */
  function LastNumber(attempts: seq<Attempt>, t: nat): nat {
    if attempts == [] then 0
    else
      var rest := LastNumber(attempts[..|attempts| - 1], t);
      var a := attempts[|attempts| - 1];
      if a.trial == t && a.number > rest then a.number else rest
  }

  predicate BadAttempt(s: Store, a: nat)
    requires a < |s.attempts|
  {
    s.attempts[a].exec.ExecBlocked? || s.attempts[a].exec.ExecError?
    || (s.attempts[a].grade.Some? && s.attempts[a].grade.value < |s.grades|
        && s.grades[s.attempts[a].grade.value].state.GraderError?)
  }

  predicate BadSelection(s: Store, t: nat)
    requires t < |s.trials|
  {
    s.trials[t].selected.Some? && s.trials[t].selected.value < |s.attempts| && BadAttempt(s, s.trials[t].selected.value)
  }

  predicate HasBadSelection(s: Store, r: nat) {
    exists t :: 0 <= t < |s.trials| && s.trials[t].run == r && BadSelection(s, t)
  }

  function Min(x: int, y: int): int { if x < y then x else y }

  function Max(x: int, y: int): int { if x < y then y else x }

  // ---------------------------------------------------------------- the transactions

  function SetRunState(s: Store, r: nat, state: RunState): Store {
    if r < |s.runs| then s.(runs := s.runs[r := s.runs[r].(state := state)]) else s
  }

  function NewAttempt(t: nat, number: nat, work: nat): Attempt {
    Attempt(t, number, ExecQueued, None, Pending, work, None, None, None, None, None, None)
  }

  function QueueAttempt(s: Store, t: nat): Store
    requires t < |s.trials|
  {
    var a, w := |s.attempts|, |s.works|;
    s.(attempts := s.attempts + [NewAttempt(t, LastNumber(s.attempts, t) + 1, w)],
       works := s.works + [Work(AttemptWork, a, Queued, None, 0)],
       trials := s.trials[t := s.trials[t].(selected := Some(a))])
  }

  function SettledState(s: Store, r: nat): RunState
    requires r < |s.runs|
  {
    if HasReconciling(s, r) then RunIndeterminate
    else if HasOpen(s, r) then s.runs[r].state
    else if s.runs[r].state.RunCancelRequested? then RunCancelled
    else if HasItems(s, r) then (if HasBadSelection(s, r) then RunFailed else RunCompleted)
    else s.runs[r].state
  }

  function SettleRun(s: Store, r: nat): Store {
    if r < |s.runs| then SetRunState(s, r, SettledState(s, r)) else s
  }

  function CancelledAttempt(a: Attempt, outcome: AgentOutcome): Attempt {
    a.(exec := ExecCancelled, cleanup := Clean, elapsed := Some(0), outcome := Some(outcome))
  }

  function CancelQueued(s: Store, w: nat, outcome: AgentOutcome): Store
    requires IsItem(s, w)
  {
    var a := s.works[w].business;
    s.(attempts := s.attempts[a := CancelledAttempt(s.attempts[a], outcome)],
       works := s.works[w := s.works[w].(state := Finished, version := s.works[w].version + 1)])
  }

  /** What remains of the trial's wall budget, capped by the attempt's, in nanoseconds. */
  function Grant(run: Run, spent: nat): int {
    Min(run.attemptWall * NANOSECONDS, run.trialWall * NANOSECONDS - spent)
  }

  function StartWork(s: Store, w: nat, now: int, duration: int): Store
    requires IsItem(s, w)
  {
    var a := s.works[w].business;
    s.(works := s.works[w := s.works[w].(state := Running, owner := Some(s.epoch), version := s.works[w].version + 1)],
       attempts := s.attempts[a := s.attempts[a].(exec := ExecRunning, start := Some(now), grant := Some(duration),
                                                  heartbeat := Some(now))])
  }

  function Claim(s: Store, w: nat, expected: nat, now: int, turnsBlocked: bool): (Store, Reply) {
    if turnsBlocked || CleanupBlocked(s) then (s, Refused(Unconfirmed))
    else if WorkerTaken(s) then (s, Refused(Unconfirmed))
    else if !IsItem(s, w) || RunOf(s, w) >= |s.runs| then (s, Refused(NotFound))
    else
      var row, run := s.works[w], s.runs[RunOf(s, w)];
      if !row.state.Queued? || row.version != expected || !(run.state.RunQueued? || run.state.RunRunning?) then
        (s, Refused(Stale))
      else
        var duration := Grant(run, Spent(s.attempts, s.attempts[row.business].trial));
        if duration <= 0 then (SettleRun(CancelQueued(s, w, BudgetExhausted), RunOf(s, w)), Exhausted)
        else (SetRunState(StartWork(s, w, now, duration), RunOf(s, w), RunRunning), Granted(row.version + 1, duration))
  }

  /** `_owned`: the caller's epoch and version still own the item. */
  predicate Owned(s: Store, w: nat, epoch: nat, version: nat) {
    IsItem(s, w) && epoch == s.epoch && s.works[w].owner == Some(epoch) && s.works[w].version == version
    && (s.works[w].state.Running? || s.works[w].state.CancelRequested?)
  }

  function OwnershipRefusal(s: Store, w: nat): Refusal {
    if IsItem(s, w) then Unconfirmed else NotFound
  }

  function Heartbeat(s: Store, w: nat, epoch: nat, version: nat, now: int): (Store, Reply) {
    if !Owned(s, w, epoch, version) then (s, Refused(OwnershipRefusal(s, w)))
    else
      var a := s.works[w].business;
      (s.(attempts := s.attempts[a := s.attempts[a].(heartbeat := Some(now))]), Done)
  }

  datatype Evidence = Evidence(exec: Execution, cleanup: Cleanup, outcome: Option<AgentOutcome>,
                               error: Option<ErrorOrigin>, grade: Option<nat>)

  predicate TerminalArguments(e: Evidence) {
    !e.exec.ExecQueued? && !e.exec.ExecRunning? && !e.cleanup.Pending?
  }

  /** A cancellation whose cleanup is not confirmed is kept as an indeterminate runner crash. */
  function Normalized(e: Evidence): Evidence {
    if e.exec.ExecCancelled? && !e.cleanup.Clean?
    then e.(exec := ExecError, outcome := Some(Indeterminate), error := Some(RunnerCrash))
    else e
  }

  /** None when the named grade may be made authoritative for the attempt. */
  function GradeRefusal(s: Store, a: nat, grade: Option<nat>): Option<Refusal> {
    if grade.None? then None
    else if grade.value >= |s.grades| || s.grades[grade.value].attempt != a then Some(Unauthorized)
    else
      var g := s.grades[grade.value];
      if g.state.Graded? && g.result.None? then Some(Invalid)
      else if g.state.Grading? || (g.state.GraderError? && g.result.Some?) then Some(Invalid)
      else None
  }

  /** What the official grader reports: a reward, or its own failure. */
  datatype Verdict = Scored(reward: real) | GraderFailed

  /** The executor's grade row, written only while it owns the item; a reward outside 0..1 leaves the attempt
      unscored. */
  function InsertGrade(s: Store, w: nat, epoch: nat, version: nat, verdict: Verdict): (Store, Reply) {
    if !Owned(s, w, epoch, version) then (s, Refused(OwnershipRefusal(s, w)))
    else
      match verdict
      case Scored(reward) =>
        if !(0.0 <= reward <= 1.0) then (s, Done)
        else
          var result := if reward == 1.0 then Pass else Fail;
          (s.(grades := s.grades + [Grade(s.works[w].business, Graded, Some(result), Some(reward))]), Done)
      case GraderFailed =>
        (s.(grades := s.grades + [Grade(s.works[w].business, GraderError, None, None)]), Done)
  }

  function EndWork(s: Store, w: nat, e: Evidence, elapsed: nat): Store
    requires IsItem(s, w)
  {
    var a := s.works[w].business;
    s.(attempts := s.attempts[a := s.attempts[a].(exec := e.exec, error := e.error, cleanup := e.cleanup,
                                                  elapsed := Some(elapsed), outcome := e.outcome, grade := e.grade)],
       works := s.works[w := s.works[w].(state := if e.cleanup.Clean? then Finished else Reconciling,
                                         version := s.works[w].version + 1)])
  }

  function Finish(s: Store, w: nat, epoch: nat, version: nat, evidence: Evidence, now: int): (Store, Reply) {
    if !TerminalArguments(evidence) then (s, Refused(Invalid))
    else if !Owned(s, w, epoch, version) then (s, Refused(OwnershipRefusal(s, w)))
    else
      var e, a := Normalized(evidence), s.works[w].business;
      var refusal := GradeRefusal(s, a, e.grade);
      if refusal.Some? then (s, Refused(refusal.value))
      else if s.attempts[a].start.None? then (s, Refused(Fault))
      else (SettleRun(EndWork(s, w, e, Max(0, now - s.attempts[a].start.value)), RunOf(s, w)), Done)
  }

  /** What cancelling a run does to a work row: queued rows end, running rows are asked to stop. */
  function CancelledWork(s: Store, r: nat, w: nat): Work
    requires w < |s.works|
  {
    var row := s.works[w];
    if !ItemOf(s, w, r) then row
    else if row.state.Queued? then row.(state := Finished, version := row.version + 1)
    else if row.state.Running? then row.(state := CancelRequested)
    else row
  }

  function CancelledRow(s: Store, r: nat, a: nat): Attempt
    requires a < |s.attempts|
  {
    var w := s.attempts[a].work;
    if w < |s.works| && ItemOf(s, w, r) && s.works[w].state.Queued?
    then CancelledAttempt(s.attempts[a], AgentCancelled)
    else s.attempts[a]
  }

  function CancelRows(s: Store, r: nat): Store {
    s.(works := seq(|s.works|, w requires 0 <= w < |s.works| => CancelledWork(s, r, w)),
       attempts := seq(|s.attempts|, a requires 0 <= a < |s.attempts| => CancelledRow(s, r, a)))
  }

  /** `EvaluationScheduler.cancel`. */
  function CancelItems(s: Store, r: nat): Store {
    SettleRun(CancelRows(s, r), r)
  }

  /** The accepted cancel request: the service marks the run, then the scheduler cancels its items. */
  function CancelRun(s: Store, r: nat): (Store, Reply) {
    if r >= |s.runs| then (s, Refused(NotFound))
    else
      var state := s.runs[r].state;
      if state.RunCompleted? || state.RunFailed? || state.RunCancelled? then (s, Done)
      else (CancelItems(SetRunState(s, r, RunCancelRequested), r), Done)
  }

  datatype Observation = Observation(epoch: Option<nat>, work: nat, clean: bool, remaining: int)

  function Reconciled(s: Store, w: nat): Store
    requires IsItem(s, w)
  {
    var a := s.works[w].business;
    s.(attempts := s.attempts[a := s.attempts[a].(exec := ExecError, error := Some(RunnerCrash), cleanup := Clean,
                                                  outcome := Some(Indeterminate))],
       works := s.works[w := s.works[w].(state := Finished, version := s.works[w].version + 1)])
  }

  function Reconcile(s: Store, w: nat, expected: nat, seen: Observation): (Store, Reply) {
    if !IsItem(s, w) then (s, Refused(NotFound))
    else if !s.works[w].state.Reconciling? || s.works[w].version != expected then (s, Refused(Stale))
    else if seen.epoch != s.works[w].owner || seen.work != w || !seen.clean || seen.remaining != 0 then
      (s, Refused(Unconfirmed))
    else (SettleRun(Reconciled(s, w), RunOf(s, w)), Done)
  }

  // ---------------------------------------------------------------- the callers that own acceptance

  predicate NoRepeats(tasks: seq<nat>) { forall i, j :: 0 <= i < j < |tasks| ==> tasks[i] != tasks[j] }

  /** The planned trials of a run: task by task, repeat by repeat. */
  function PlannedTrials(r: nat, tasks: seq<nat>, repeats: nat): (trials: seq<Trial>)
    ensures forall t :: 0 <= t < |trials| ==> trials[t].run == r && trials[t].selected.None?
    ensures tasks != [] && repeats > 0 ==> trials != []
  {
    if tasks == [] then []
    else PlannedTrials(r, tasks[..|tasks| - 1], repeats)
         + seq(repeats, k requires 0 <= k < repeats => Trial(r, tasks[|tasks| - 1], k, None))
  }

  predicate PlanValid(run: Run) {
    run.tasks != [] && NoRepeats(run.tasks) && run.repeats >= 1 && run.maxAttempts >= 1
    && |run.tasks| * run.repeats <= MAX_TRIALS
  }

  function CreateRun(s: Store, run: Run): (Store, Reply) {
    if !PlanValid(run) then (s, Refused(Invalid))
    else (s.(runs := s.runs + [run.(state := RunCreated)],
             trials := s.trials + PlannedTrials(|s.runs|, run.tasks, run.repeats)), Done)
  }

  /** Queue a first attempt for every trial of the run among the first `n` trials. */
  function QueueTrials(s: Store, r: nat, n: nat): Store
    requires n <= |s.trials|
    ensures |QueueTrials(s, r, n).trials| == |s.trials|
  {
    if n == 0 then s
    else
      var before := QueueTrials(s, r, n - 1);
      if before.trials[n - 1].run == r then QueueAttempt(before, n - 1) else before
  }

  function StartRun(s: Store, r: nat): (Store, Reply) {
    if r >= |s.runs| then (s, Refused(NotFound))
    else if s.runs[r].state.RunQueued? || s.runs[r].state.RunRunning? then (s, Done)
    else if !s.runs[r].state.RunCreated? then (s, Refused(Stale))
    else (SetRunState(QueueTrials(s, r, |s.trials|), r, RunQueued), Done)
  }

  predicate Infrastructure(e: Option<ErrorOrigin>) { e.Some? && !e.value.TaskLogic? }

  function Retry(s: Store, t: nat): (Store, Reply) {
    if t >= |s.trials| || s.trials[t].run >= |s.runs| then (s, Refused(NotFound))
    else
      var run, selected := s.runs[s.trials[t].run], s.trials[t].selected;
      if run.state.RunCancelRequested? || run.state.RunCancelled? || run.state.RunIndeterminate? || selected.None?
         || selected.value >= |s.attempts| || s.attempts[selected.value].work >= |s.works|
         || !s.works[s.attempts[selected.value].work].state.Finished? || !s.attempts[selected.value].cleanup.Clean? then
        (s, Refused(Unconfirmed))
      else
        var previous := s.attempts[selected.value];
        if !Infrastructure(previous.error) || previous.error.value !in run.retryable then (s, Refused(Unauthorized))
        else if previous.number >= run.maxAttempts then (s, Refused(Unauthorized))
        else (SetRunState(QueueAttempt(s, t), s.trials[t].run, RunQueued), Done)
  }

  /** The store is opened by a new engine process: whatever the old one owned must be reconciled. */
  function RestartedWork(row: Work): Work {
    if row.state.Running? || row.state.CancelRequested? then row.(state := Reconciling, version := row.version + 1)
       else row
  }

  predicate AwaitsReconciliation(row: Work) {
    row.state.Running? || row.state.CancelRequested? || row.state.Reconciling?
  }

  function RestartedAttempt(s: Store, a: nat): Attempt
    requires a < |s.attempts|
  {
    var w := s.attempts[a].work;
    if w < |s.works| && s.works[w].kind.AttemptWork? && AwaitsReconciliation(s.works[w])
    then s.attempts[a].(cleanup := Unknown)
    else s.attempts[a]
  }

  predicate RunInterrupted(s: Store, r: nat) {
    exists w :: 0 <= w < |s.works| && ItemOf(s, w, r) && AwaitsReconciliation(s.works[w])
  }

  function Restart(s: Store): Store {
    Store(s.epoch + 1,
          seq(|s.works|, w requires 0 <= w < |s.works| => RestartedWork(s.works[w])),
          seq(|s.attempts|, a requires 0 <= a < |s.attempts| => RestartedAttempt(s, a)),
          s.trials,
          seq(|s.runs|, r requires 0 <= r < |s.runs| =>
            if RunInterrupted(s, r) then s.runs[r].(state := RunIndeterminate) else s.runs[r]),
          s.grades)
  }

  /** The interactive engine adds and moves its own (turn) items; it claims one only while the worker is free. */
  function MoveTurn(s: Store, w: nat, state: WorkState): (Store, Reply) {
    if w >= |s.works| || !s.works[w].kind.TurnWork? then (s, Refused(NotFound))
    else if state.Running? && WorkerTaken(s) then (s, Refused(Unconfirmed))
    else (s.(works := s.works[w := s.works[w].(state := state, owner := Some(s.epoch),
                                               version := s.works[w].version + 1)]), Done)
  }

  datatype Event =
    | ECreateRun(run: Run)
    | EStart(run_: nat)
    | ERetry(trial: nat)
    | EClaim(work: nat, expected: nat, now: int, turnsBlocked: bool)
    | EHeartbeat(work: nat, epoch: nat, version: nat, now: int)
    | EFinish(work: nat, epoch: nat, version: nat, evidence: Evidence, now: int)
    | ECancel(run_: nat)
    | EReconcile(work: nat, expected: nat, seen: Observation)
    | EGrade(work: nat, epoch: nat, version: nat, verdict: Verdict)
    | ENewTurn(turn: nat)
    | EMoveTurn(work: nat, state: WorkState)
    | ERestart

  function Step(s: Store, e: Event): (Store, Reply) {
    match e
    case ECreateRun(run) => CreateRun(s, run)
    case EStart(r) => StartRun(s, r)
    case ERetry(t) => Retry(s, t)
    case EClaim(w, expected, now, turnsBlocked) => Claim(s, w, expected, now, turnsBlocked)
    case EHeartbeat(w, epoch, version, now) => Heartbeat(s, w, epoch, version, now)
    case EFinish(w, epoch, version, evidence, now) => Finish(s, w, epoch, version, evidence, now)
    case ECancel(r) => CancelRun(s, r)
    case EReconcile(w, expected, seen) => Reconcile(s, w, expected, seen)
    case EGrade(w, epoch, version, verdict) => InsertGrade(s, w, epoch, version, verdict)
    case ENewTurn(turn) => (s.(works := s.works + [Work(TurnWork, turn, Queued, None, 0)]), Done)
    case EMoveTurn(w, state) => MoveTurn(s, w, state)
    case ERestart => (Restart(s), Done)
  }

  /** The store after a whole history of transactions. */
  function After(s: Store, events: seq<Event>): Store
    decreases |events|
  {
    if events == [] then s else After(Step(s, events[0]).0, events[1..])
  }
}
