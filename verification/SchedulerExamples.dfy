/** Histories of the scheduler, from the empty store, that reach each of its limits. */
module SchedulerExamples {
  import opened Options
  import opened SchedulerModel
  import opened SchedulerReachable
  import opened SchedulerTheorems
  import opened SchedulerLimits

  const WALL := 10 * NANOSECONDS

  /** A plan of one trial, and one of two. */
  const ONCE := Run(RunCreated, 10, 10, 2, {}, [0], 1)
  const TWICE := Run(RunCreated, 10, 10, 2, {}, [0], 2)

  const START := EStart(0)
  const CLAIM := EClaim(0, 0, 0, false)
  const CANCEL := ECancel(0)
  const CRASH := EFinish(0, 0, 1, Evidence(ExecError, Unknown, None, Some(RunnerCrash), None), 0)
  const CONFIRM := EReconcile(0, 2, Observation(Some(0), 0, true, 0))

  // ---------------------------------------------------------------- the stores along the way

  const TWO_CREATED := Store(
    0,
    [],
    [],
    [Trial(0, 0, 0, None), Trial(1, 0, 0, None)],
    [ONCE, ONCE],
    [])

  const FIRST_STARTED := Store(
    0,
    [Work(AttemptWork, 0, Queued, None, 0)],
    [NewAttempt(0, 1, 0)],
    [Trial(0, 0, 0, Some(0)), Trial(1, 0, 0, None)],
    [ONCE.(state := RunQueued), ONCE],
    [])

  const BOTH_STARTED := Store(
    0,
    [Work(AttemptWork, 0, Queued, None, 0), Work(AttemptWork, 1, Queued, None, 0)],
    [NewAttempt(0, 1, 0),
     NewAttempt(1, 1, 1)],
    [Trial(0, 0, 0, Some(0)), Trial(1, 0, 0, Some(1))],
    [ONCE.(state := RunQueued), ONCE.(state := RunQueued)],
    [])

  const FIRST_CLAIMED := Store(
    0,
    [Work(AttemptWork, 0, Running, Some(0), 1), Work(AttemptWork, 1, Queued, None, 0)],
    [NewAttempt(0, 1, 0).(exec := ExecRunning, start := Some(0), grant := Some(WALL), heartbeat := Some(0)),
     NewAttempt(1, 1, 1)],
    [Trial(0, 0, 0, Some(0)), Trial(1, 0, 0, Some(1))],
    [ONCE.(state := RunRunning), ONCE.(state := RunQueued)],
    [])

  const FIRST_ASKED := Store(
    0,
    [Work(AttemptWork, 0, CancelRequested, Some(0), 1), Work(AttemptWork, 1, Queued, None, 0)],
    [NewAttempt(0, 1, 0).(exec := ExecRunning, start := Some(0), grant := Some(WALL), heartbeat := Some(0)),
     NewAttempt(1, 1, 1)],
    [Trial(0, 0, 0, Some(0)), Trial(1, 0, 0, Some(1))],
    [ONCE.(state := RunCancelRequested), ONCE.(state := RunQueued)],
    [])

  const PAIR_CREATED := Store(
    0,
    [],
    [],
    [Trial(0, 0, 0, None), Trial(0, 0, 1, None)],
    [TWICE],
    [])

  const PAIR_STARTED := Store(
    0,
    [Work(AttemptWork, 0, Queued, None, 0), Work(AttemptWork, 1, Queued, None, 0)],
    [NewAttempt(0, 1, 0),
     NewAttempt(1, 1, 1)],
    [Trial(0, 0, 0, Some(0)), Trial(0, 0, 1, Some(1))],
    [TWICE.(state := RunQueued)],
    [])

  const PAIR_CLAIMED := Store(
    0,
    [Work(AttemptWork, 0, Running, Some(0), 1), Work(AttemptWork, 1, Queued, None, 0)],
    [NewAttempt(0, 1, 0).(exec := ExecRunning, start := Some(0), grant := Some(WALL), heartbeat := Some(0)),
     NewAttempt(1, 1, 1)],
    [Trial(0, 0, 0, Some(0)), Trial(0, 0, 1, Some(1))],
    [TWICE.(state := RunRunning)],
    [])

  const PAIR_CRASHED := Store(
    0,
    [Work(AttemptWork, 0, Reconciling, Some(0), 2), Work(AttemptWork, 1, Queued, None, 0)],
    [NewAttempt(0, 1, 0).(exec := ExecError, error := Some(RunnerCrash), cleanup := Unknown, start := Some(0),
                          elapsed := Some(0),
                    grant := Some(WALL), heartbeat := Some(0)),
     NewAttempt(1, 1, 1)],
    [Trial(0, 0, 0, Some(0)), Trial(0, 0, 1, Some(1))],
    [TWICE.(state := RunIndeterminate)],
    [])

  const PAIR_RECONCILED := Store(
    0,
    [Work(AttemptWork, 0, Finished, Some(0), 3), Work(AttemptWork, 1, Queued, None, 0)],
    [NewAttempt(0, 1, 0).(exec := ExecError, error := Some(RunnerCrash), cleanup := Clean, start := Some(0),
                          elapsed := Some(0),
                    grant := Some(WALL), heartbeat := Some(0), outcome := Some(Indeterminate)),
     NewAttempt(1, 1, 1)],
    [Trial(0, 0, 0, Some(0)), Trial(0, 0, 1, Some(1))],
    [TWICE.(state := RunIndeterminate)],
    [])

  const CREATED := Store(
    0,
    [],
    [],
    [Trial(0, 0, 0, None)],
    [ONCE],
    [])

  const STARTED := Store(
    0,
    [Work(AttemptWork, 0, Queued, None, 0)],
    [NewAttempt(0, 1, 0)],
    [Trial(0, 0, 0, Some(0))],
    [ONCE.(state := RunQueued)],
    [])

  const CLAIMED := Store(
    0,
    [Work(AttemptWork, 0, Running, Some(0), 1)],
    [NewAttempt(0, 1, 0).(exec := ExecRunning, start := Some(0), grant := Some(WALL), heartbeat := Some(0))],
    [Trial(0, 0, 0, Some(0))],
    [ONCE.(state := RunRunning)],
    [])

  const ASKED := Store(
    0,
    [Work(AttemptWork, 0, CancelRequested, Some(0), 1)],
    [NewAttempt(0, 1, 0).(exec := ExecRunning, start := Some(0), grant := Some(WALL), heartbeat := Some(0))],
    [Trial(0, 0, 0, Some(0))],
    [ONCE.(state := RunCancelRequested)],
    [])

  const CRASHED := Store(
    0,
    [Work(AttemptWork, 0, Reconciling, Some(0), 2)],
    [NewAttempt(0, 1, 0).(exec := ExecError, error := Some(RunnerCrash), cleanup := Unknown, start := Some(0),
                          elapsed := Some(0),
                    grant := Some(WALL), heartbeat := Some(0))],
    [Trial(0, 0, 0, Some(0))],
    [ONCE.(state := RunIndeterminate)],
    [])

  const RECONCILED := Store(
    0,
    [Work(AttemptWork, 0, Finished, Some(0), 3)],
    [NewAttempt(0, 1, 0).(exec := ExecError, error := Some(RunnerCrash), cleanup := Clean, start := Some(0),
                          elapsed := Some(0),
                    grant := Some(WALL), heartbeat := Some(0), outcome := Some(Indeterminate))],
    [Trial(0, 0, 0, Some(0))],
    [ONCE.(state := RunFailed)],
    [])

  // ---------------------------------------------------------------- single steps

  lemma {:induction false} NothingSpent(rows: seq<Attempt>, t: nat)
    requires forall a :: 0 <= a < |rows| ==> rows[a].elapsed.None?
    ensures Spent(rows, t) == 0
  {
    if rows != [] { NothingSpent(rows[..|rows| - 1], t); }
  }

  lemma {:induction false} NoNumberYet(rows: seq<Attempt>, t: nat)
    requires forall a :: 0 <= a < |rows| ==> rows[a].trial != t
    ensures LastNumber(rows, t) == 0
  {
    if rows != [] { NoNumberYet(rows[..|rows| - 1], t); }
  }

  lemma PlannedOnce(r: nat)
    ensures PlannedTrials(r, [0], 1) == [Trial(r, 0, 0, None)]
  {
    assert [0][..0] == [];
    assert PlannedTrials(r, [], 1) == [];
  }

  lemma PlannedTwice(r: nat)
    ensures PlannedTrials(r, [0], 2) == [Trial(r, 0, 0, None), Trial(r, 0, 1, None)]
  {
    assert [0][..0] == [];
    assert PlannedTrials(r, [], 2) == [];
  }

  lemma TwoCreated()
    ensures Step(EMPTY, ECreateRun(ONCE)).0 == CREATED && Step(CREATED, ECreateRun(ONCE)).0 == TWO_CREATED
  {
    PlannedOnce(0);
    PlannedOnce(1);
  }

  lemma BothStarted()
    ensures Step(TWO_CREATED, START).0 == FIRST_STARTED && Step(FIRST_STARTED, EStart(1)).0 == BOTH_STARTED
  {
    assert QueueTrials(TWO_CREATED, 0, 0) == TWO_CREATED && QueueTrials(FIRST_STARTED, 1, 0) == FIRST_STARTED;
    NoNumberYet([], 0);
    assert QueueTrials(TWO_CREATED, 0, 1) == QueueAttempt(TWO_CREATED, 0);
    assert QueueTrials(TWO_CREATED, 0, 2) == QueueAttempt(TWO_CREATED, 0);
    NoNumberYet(FIRST_STARTED.attempts, 1);
    assert QueueTrials(FIRST_STARTED, 1, 1) == FIRST_STARTED;
    assert QueueTrials(FIRST_STARTED, 1, 2) == QueueAttempt(FIRST_STARTED, 1);
  }

  lemma FirstClaimed()
    ensures Step(BOTH_STARTED, CLAIM).0 == FIRST_CLAIMED
  {
    NothingSpent(BOTH_STARTED.attempts, 0);
    assert !CleanupBlocked(BOTH_STARTED) && !WorkerTaken(BOTH_STARTED);
  }

  lemma FirstAsked()
    ensures Step(FIRST_CLAIMED, CANCEL).0 == FIRST_ASKED
  {
    var rows := CancelRows(SetRunState(FIRST_CLAIMED, 0, RunCancelRequested), 0);
    assert rows.works == FIRST_ASKED.works && rows.attempts == FIRST_ASKED.attempts && rows.runs == FIRST_ASKED.runs;
    assert ItemOf(rows, 0, 0) && HasOpen(rows, 0) && !HasReconciling(rows, 0);
  }

  /** Two runs are started, the first one's item is claimed and its run cancelled: the second one's item is granted. */
  const TO_FIRST_ASKED := [ECreateRun(ONCE), ECreateRun(ONCE), START, EStart(1), CLAIM, CANCEL]

  lemma SixEvents(s: Store, a: Event, b: Event, c: Event, d: Event, e: Event, f: Event)
    ensures After(s, [a, b, c, d, e, f]) == Step(After(s, [a, b, c, d, e]), f).0
    ensures After(s, [a, b, c, d, e]) == Step(Step(Step(Step(Step(s, a).0, b).0, c).0, d).0, e).0
  {
    FiveEvents(s, a, b, c, d, e);
    AfterOne(s, [a, b, c, d, e], f);
    assert [a, b, c, d, e] + [f] == [a, b, c, d, e, f];
  }

  lemma ClaimedBesideAsked()
    ensures var s := After(EMPTY, TO_FIRST_ASKED);
            |s.works| == 2 && s.works[0].state.CancelRequested? && Claim(s, 1, 0, 0, false).1.Granted?
            && Claim(s, 1, 0, 0, false).0.works[0].state.CancelRequested?
            && Claim(s, 1, 0, 0, false).0.works[1].state.Running?
  {
    SixEvents(EMPTY, ECreateRun(ONCE), ECreateRun(ONCE), START, EStart(1), CLAIM, CANCEL);
    TwoCreated();
    BothStarted();
    FirstClaimed();
    FirstAsked();
    NothingSpent(FIRST_ASKED.attempts, 1);
    assert !CleanupBlocked(FIRST_ASKED) && !WorkerTaken(FIRST_ASKED);
  }

  // ---------------------------------------------------------------- a stranded run

  lemma PairCreated()
    ensures Step(EMPTY, ECreateRun(TWICE)).0 == PAIR_CREATED
  {
    PlannedTwice(0);
  }

  lemma PairStarted()
    ensures Step(PAIR_CREATED, START).0 == PAIR_STARTED
  {
    NoNumberYet([], 0);
    var one := QueueAttempt(PAIR_CREATED, 0);
    assert QueueTrials(PAIR_CREATED, 0, 0) == PAIR_CREATED && QueueTrials(PAIR_CREATED, 0, 1) == one;
    NoNumberYet(one.attempts, 1);
    assert QueueTrials(PAIR_CREATED, 0, 2) == QueueAttempt(one, 1);
  }

  lemma PairClaimed()
    ensures Step(PAIR_STARTED, CLAIM).0 == PAIR_CLAIMED
  {
    NothingSpent(PAIR_STARTED.attempts, 0);
    assert !CleanupBlocked(PAIR_STARTED) && !WorkerTaken(PAIR_STARTED);
  }

  lemma PairCrashed()
    ensures Step(PAIR_CLAIMED, CRASH).0 == PAIR_CRASHED
  {
    var ended := EndWork(PAIR_CLAIMED, 0, CRASH.evidence, 0);
    assert ItemOf(ended, 0, 0) && ended.works[0].state.Reconciling?;
  }

  lemma PairReconciled()
    ensures Step(PAIR_CRASHED, CONFIRM).0 == PAIR_RECONCILED
  {
    var after := Reconciled(PAIR_CRASHED, 0);
    assert ItemOf(after, 1, 0) && Open(after.works[1].state);
    assert !HasReconciling(after, 0);
  }

  const TO_STRANDED := [ECreateRun(TWICE), START, CLAIM, CRASH, CONFIRM]

  lemma FiveEvents(s: Store, a: Event, b: Event, c: Event, d: Event, e: Event)
    ensures After(s, [a, b, c, d, e]) == Step(After(s, [a, b, c, d]), e).0
    ensures After(s, [a, b, c, d]) == Step(Step(Step(Step(s, a).0, b).0, c).0, d).0
  {
    FourEvents(s, a, b, c, d);
    AfterOne(s, [a, b, c, d], e);
    assert [a, b, c, d] + [e] == [a, b, c, d, e];
  }

  /** One of two items crashes and is reconciled: the other stays queued in an indeterminate run. */
  lemma StrandedReached()
    ensures var s := After(EMPTY, TO_STRANDED); |s.works| == 2 && Stranded(s, 0) && s.works[1].state.Queued?
  {
    FiveEvents(EMPTY, ECreateRun(TWICE), START, CLAIM, CRASH, CONFIRM);
    PairCreated();
    PairStarted();
    PairClaimed();
    PairCrashed();
    PairReconciled();
  }

  // ---------------------------------------------------------------- a forgotten cancel

  lemma OneStarted()
    ensures Step(CREATED, START).0 == STARTED
  {
    NoNumberYet([], 0);
    assert QueueTrials(CREATED, 0, 0) == CREATED && QueueTrials(CREATED, 0, 1) == QueueAttempt(CREATED, 0);
  }

  lemma OneClaimed()
    ensures Step(STARTED, CLAIM).0 == CLAIMED
  {
    NothingSpent(STARTED.attempts, 0);
    assert !CleanupBlocked(STARTED) && !WorkerTaken(STARTED);
  }

  lemma OneAsked()
    ensures Step(CLAIMED, CANCEL).0 == ASKED
  {
    var rows := CancelRows(SetRunState(CLAIMED, 0, RunCancelRequested), 0);
    assert rows.works == ASKED.works && rows.attempts == ASKED.attempts && rows.runs == ASKED.runs;
    assert ItemOf(rows, 0, 0) && HasOpen(rows, 0) && !HasReconciling(rows, 0);
  }

  lemma OneCrashed()
    ensures Step(ASKED, CRASH).0 == CRASHED && Step(CLAIMED, CRASH).0 == CRASHED
  {
    var asked, claimed := EndWork(ASKED, 0, CRASH.evidence, 0), EndWork(CLAIMED, 0, CRASH.evidence, 0);
    assert ItemOf(asked, 0, 0) && asked.works[0].state.Reconciling?;
    assert ItemOf(claimed, 0, 0) && claimed.works[0].state.Reconciling?;
  }

  lemma CancelLeavesCrashed()
    ensures Step(CRASHED, CANCEL).0 == CRASHED
  {
    var rows := CancelRows(SetRunState(CRASHED, 0, RunCancelRequested), 0);
    assert rows.works == CRASHED.works && rows.attempts == CRASHED.attempts;
    assert ItemOf(rows, 0, 0) && HasReconciling(rows, 0);
  }

  lemma OneReconciled()
    ensures Step(CRASHED, CONFIRM).0 == RECONCILED
  {
    var after := Reconciled(CRASHED, 0);
    assert ItemOf(after, 0, 0) && !HasReconciling(after, 0) && !HasOpen(after, 0);
    assert BadSelection(after, 0);
  }

  const TO_LATE_CRASH := [ECreateRun(ONCE), START, CLAIM, CANCEL, CRASH, CONFIRM]
  const TO_EARLY_CRASH := [ECreateRun(ONCE), START, CLAIM, CRASH, CANCEL, CONFIRM]

  /** The cancel is accepted while nothing reconciles, the stopping item then ends uncleanly, and the run settles as
      failed. */
  lemma CancelForgottenByLateCrash()
    ensures After(EMPTY, TO_LATE_CRASH[..4]).runs == [ONCE.(state := RunCancelRequested)]
    ensures !HasReconciling(After(EMPTY, TO_LATE_CRASH[..4]), 0)
    ensures After(EMPTY, TO_LATE_CRASH).runs == [ONCE.(state := RunFailed)]
  {
    SixEvents(EMPTY, ECreateRun(ONCE), START, CLAIM, CANCEL, CRASH, CONFIRM);
    TwoCreated();
    OneStarted();
    OneClaimed();
    OneAsked();
    OneCrashed();
    OneReconciled();
    FourEvents(EMPTY, ECreateRun(ONCE), START, CLAIM, CANCEL);
    assert TO_LATE_CRASH[..4] == [ECreateRun(ONCE), START, CLAIM, CANCEL];
  }

  lemma FourEvents(s: Store, a: Event, b: Event, c: Event, d: Event)
    ensures After(s, [a, b, c, d]) == Step(Step(Step(Step(s, a).0, b).0, c).0, d).0
  {
    AfterOne(s, [], a);
    AfterOne(s, [a], b);
    AfterOne(s, [a, b], c);
    AfterOne(s, [a, b, c], d);
    assert [] + [a] == [a] && [a] + [b] == [a, b] && [a, b] + [c] == [a, b, c] && [a, b, c] + [d] == [a, b, c, d];
  }

  /** The cancel is accepted while the item reconciles, and the run settles as failed. */
  lemma CancelForgottenAfterCrash()
    ensures HasReconciling(After(EMPTY, TO_EARLY_CRASH[..4]), 0)
    ensures After(EMPTY, TO_EARLY_CRASH).runs == [ONCE.(state := RunFailed)]
  {
    SixEvents(EMPTY, ECreateRun(ONCE), START, CLAIM, CRASH, CANCEL, CONFIRM);
    TwoCreated();
    OneStarted();
    OneClaimed();
    OneCrashed();
    CancelLeavesCrashed();
    OneReconciled();
    FourEvents(EMPTY, ECreateRun(ONCE), START, CLAIM, CRASH);
    assert TO_EARLY_CRASH[..4] == [ECreateRun(ONCE), START, CLAIM, CRASH];
    assert ItemOf(CRASHED, 0, 0);
  }
}
