/**
The invariant every transaction of the evaluation store keeps, one clause group per table, and its preservation step
by step.
*/
module SchedulerInvariant {
  import opened Options
  import opened SchedulerModel

  // ---------------------------------------------------------------- the clauses

  /** The foreign keys, and one work item per attempt. */
  predicate LinkedAttempt(s: Store, a: nat)
    requires a < |s.attempts|
  {
    var row := s.attempts[a];
    row.trial < |s.trials| && row.work < |s.works|
    && s.works[row.work].kind.AttemptWork? && s.works[row.work].business == a
    && (row.grade.Some? ==> row.grade.value < |s.grades| && s.grades[row.grade.value].attempt == a
                            && !s.grades[row.grade.value].state.Grading?)
  }

  predicate LinkedWork(s: Store, w: nat)
    requires w < |s.works|
  {
    s.works[w].kind.AttemptWork? ==> s.works[w].business < |s.attempts| && s.attempts[s.works[w].business].work == w
  }

  predicate LinkedTrial(s: Store, t: nat)
    requires t < |s.trials|
  {
    s.trials[t].run < |s.runs|
    && (s.trials[t].selected.Some? ==>
          s.trials[t].selected.value < |s.attempts| && s.attempts[s.trials[t].selected.value].trial == t)
  }

  predicate Linked(s: Store) {
    (forall a :: 0 <= a < |s.attempts| ==> LinkedAttempt(s, a))
    && (forall w :: 0 <= w < |s.works| ==> LinkedWork(s, w))
    && (forall t :: 0 <= t < |s.trials| ==> LinkedTrial(s, t))
  }

  /** Work state and attempt state say the same thing. */
  predicate Matches(state: WorkState, a: Attempt) {
    match state
    case Queued => a.exec.ExecQueued? && a.cleanup.Pending? && a.elapsed.None?
    case Running => a.exec.ExecRunning? && a.cleanup.Pending? && a.start.Some? && a.elapsed.None? && a.grant.Some?
    case CancelRequested =>
      a.exec.ExecRunning? && a.cleanup.Pending? && a.start.Some? && a.elapsed.None? && a.grant.Some?
    case Reconciling =>
      (a.cleanup.Residual? || a.cleanup.Unknown?)
      && (a.exec.ExecFinished? || a.exec.ExecError? || a.exec.ExecBlocked? || (a.exec.ExecRunning? && a.elapsed.None?))
    case Finished => a.cleanup.Clean? && !a.exec.ExecQueued? && !a.exec.ExecRunning?
  }

  predicate CoupledAttempt(s: Store, a: nat)
    requires a < |s.attempts|
  {
    s.attempts[a].work < |s.works| && Matches(s.works[s.attempts[a].work].state, s.attempts[a])
  }

  predicate Coupled(s: Store) {
    forall a :: 0 <= a < |s.attempts| ==> CoupledAttempt(s, a)
  }

  predicate OwnedRow(s: Store, w: nat)
    requires w < |s.works|
  {
    var row := s.works[w];
    row.kind.AttemptWork? ==>
      (row.state.Running? || row.state.CancelRequested? ==> row.owner == Some(s.epoch))
      && (row.state.Queued? ==> row.owner.None?)
  }

  /** At most one item of either kind runs, and it belongs to this engine process. */
  predicate Exclusive(s: Store) {
    (forall v, w :: 0 <= v < |s.works| && 0 <= w < |s.works| && s.works[v].state.Running? && s.works[w].state.Running?
                    ==> v == w)
    && (forall w :: 0 <= w < |s.works| ==> OwnedRow(s, w))
  }

  /** How many of the rows belong to the trial. */
  function CountOf(attempts: seq<Attempt>, t: nat): nat {
    if attempts == [] then 0
    else CountOf(attempts[..|attempts| - 1], t) + (if attempts[|attempts| - 1].trial == t then 1 else 0)
  }

  /** Attempt `a` carries the number of its position among its trial's attempts. */
  predicate NumberedAttempt(s: Store, a: nat)
    requires a < |s.attempts|
  {
    s.attempts[a].number == CountOf(s.attempts[..a], s.attempts[a].trial) + 1
  }

  /** Only the selected attempt of a trial can still be unfinished. */
  predicate SupersededFinished(s: Store, a: nat)
    requires a < |s.attempts|
  {
    var row := s.attempts[a];
    row.trial < |s.trials| && row.work < |s.works|
    && s.trials[row.trial].selected.Some? && a <= s.trials[row.trial].selected.value
    && (a < s.trials[row.trial].selected.value ==> s.works[row.work].state.Finished?)
  }

  predicate WithinRetryBound(s: Store, a: nat)
    requires a < |s.attempts|
  {
    var row := s.attempts[a];
    row.trial < |s.trials| && s.trials[row.trial].run < |s.runs|
    && row.number <= s.runs[s.trials[row.trial].run].maxAttempts
  }

  predicate Numbered(s: Store) {
    forall a :: 0 <= a < |s.attempts| ==>
      NumberedAttempt(s, a) && SupersededFinished(s, a) && WithinRetryBound(s, a)
  }

  // ---------------------------------------------------------------- wall budgets

  function TrialWall(s: Store, t: nat): int
    requires t < |s.trials| && s.trials[t].run < |s.runs|
  {
    s.runs[s.trials[t].run].trialWall * NANOSECONDS
  }

  /** How far an ended attempt ran past what it was granted. */
  function Overshoot(a: Attempt): nat {
    if a.elapsed.Some? && a.grant.Some? && a.elapsed.value > a.grant.value && a.grant.value >= 0
    then a.elapsed.value - a.grant.value else 0
  }

  /** A running attempt's grant still fits in what the trial has not spent. */
  predicate FundedAttempt(s: Store, a: nat)
    requires a < |s.attempts|
  {
    var row := s.attempts[a];
    row.trial < |s.trials| && s.trials[row.trial].run < |s.runs|
    && (row.grant.Some? ==> 0 < row.grant.value <= s.runs[s.trials[row.trial].run].attemptWall * NANOSECONDS)
    && (row.grant.Some? && row.exec.ExecRunning? ==>
          Spent(s.attempts, row.trial) + row.grant.value <= TrialWall(s, row.trial))
  }

  /** The recorded time of a trial exceeds its budget by at most one attempt's overshoot. */
  predicate WithinOneOvershoot(s: Store, t: nat)
    requires t < |s.trials| && s.trials[t].run < |s.runs|
  {
    Spent(s.attempts, t) <= TrialWall(s, t)
    || exists a :: 0 <= a < |s.attempts| && s.attempts[a].trial == t
                   && Spent(s.attempts, t) <= TrialWall(s, t) + Overshoot(s.attempts[a])
  }

  predicate Funded(s: Store) {
    (forall a :: 0 <= a < |s.attempts| ==> FundedAttempt(s, a))
    && (forall t :: 0 <= t < |s.trials| ==> s.trials[t].run < |s.runs| && WithinOneOvershoot(s, t))
  }

  // ---------------------------------------------------------------- settled runs

  predicate AllFinished(s: Store, r: nat) {
    forall w :: 0 <= w < |s.works| && ItemOf(s, w, r) ==> s.works[w].state.Finished?
  }

  predicate RunOk(s: Store, r: nat)
    requires r < |s.runs|
  {
    match s.runs[r].state
    case RunCreated => !HasItems(s, r)
    case RunQueued => HasOpen(s, r) && !HasReconciling(s, r)
    case RunRunning => HasOpen(s, r) && !HasReconciling(s, r)
    case RunCancelRequested => HasOpen(s, r) && !HasReconciling(s, r)
    case RunCompleted => AllFinished(s, r) && !HasBadSelection(s, r)
    case RunFailed => AllFinished(s, r) && HasBadSelection(s, r)
    case RunCancelled => AllFinished(s, r)
    case RunIndeterminate => HasOpen(s, r) || HasReconciling(s, r)
  }

  predicate RunsOk(s: Store) {
    forall r :: 0 <= r < |s.runs| ==> RunOk(s, r)
  }

  predicate HasTrial(s: Store, r: nat) {
    exists t :: 0 <= t < |s.trials| && s.trials[t].run == r
  }

  predicate RunShape(s: Store, r: nat)
    requires r < |s.runs|
  {
    s.runs[r].maxAttempts >= 1 && HasTrial(s, r)
    && (s.runs[r].state.RunCreated? ==> forall t :: 0 <= t < |s.trials| && s.trials[t].run == r
                                           ==> s.trials[t].selected.None?)
  }

  predicate RunShapes(s: Store) {
    forall r :: 0 <= r < |s.runs| ==> RunShape(s, r)
  }

  /** Everything but the run states. */
  predicate Core(s: Store) {
    var kept := Linked(s) && Coupled(s) && Exclusive(s) && Numbered(s) && Funded(s);
    kept
  }

  predicate Inv(s: Store) {
    var kept := Core(s) && RunShapes(s) && RunsOk(s);
    kept
  }

  // ---------------------------------------------------------------- lemmas about the recursive columns

  lemma {:induction false} SpentUpdate(rows: seq<Attempt>, a: nat, row: Attempt, t: nat)
    requires a < |rows| && row.trial == rows[a].trial
    ensures Spent(rows[a := row], t) ==
            Spent(rows, t) + (if row.trial == t then Elapsed(row) - Elapsed(rows[a]) else 0)
  {
    var n := |rows| - 1;
    if a == n {
      assert rows[a := row][..n] == rows[..n];
    } else {
      assert rows[a := row][..n] == rows[..n][a := row];
      SpentUpdate(rows[..n], a, row, t);
    }
  }

  /** Rows that keep trial and recorded time keep what every trial has spent. */
  lemma {:induction false} SpentPointwise(rows: seq<Attempt>, others: seq<Attempt>, t: nat)
    requires |rows| == |others|
    requires forall a :: 0 <= a < |rows| ==> rows[a].trial == others[a].trial && Elapsed(rows[a]) == Elapsed(others[a])
    ensures Spent(rows, t) == Spent(others, t)
  {
    if rows != [] {
      var n := |rows| - 1;
      assert others != [];
      SpentPointwise(rows[..n], others[..n], t);
    }
  }

  lemma SpentAppend(rows: seq<Attempt>, row: Attempt, t: nat)
    ensures Spent(rows + [row], t) == Spent(rows, t) + (if row.trial == t then Elapsed(row) else 0)
  {
    assert (rows + [row])[..|rows|] == rows;
  }

  lemma {:induction false} CountPointwise(rows: seq<Attempt>, others: seq<Attempt>, t: nat)
    requires |rows| == |others| && forall a :: 0 <= a < |rows| ==> rows[a].trial == others[a].trial
    ensures CountOf(rows, t) == CountOf(others, t)
  {
    if rows != [] {
      var n := |rows| - 1;
      assert others != [];
      CountPointwise(rows[..n], others[..n], t);
    }
  }

  /** In a numbered table the largest number of a trial is the number of its attempts. */
  lemma {:induction false} LastNumberIsCount(rows: seq<Attempt>, t: nat)
    requires forall a :: 0 <= a < |rows| ==> rows[a].number == CountOf(rows[..a], rows[a].trial) + 1
    ensures LastNumber(rows, t) == CountOf(rows, t)
  {
    if rows != [] {
      var n := |rows| - 1;
      forall a | 0 <= a < n ensures rows[..n][a].number == CountOf(rows[..n][..a], rows[..n][a].trial) + 1 {
        assert rows[..n][..a] == rows[..a];
      }
      LastNumberIsCount(rows[..n], t);
    }
  }

  lemma {:induction false} NoRowsNoCount(rows: seq<Attempt>, t: nat)
    requires forall a :: 0 <= a < |rows| ==> rows[a].trial != t
    ensures CountOf(rows, t) == 0 && Spent(rows, t) == 0
  {
    if rows != [] { NoRowsNoCount(rows[..|rows| - 1], t); }
  }

  /** Nothing of the trial lies between row `a` and the end, so the counts agree. */
  lemma {:induction false} CountTail(rows: seq<Attempt>, a: nat, t: nat)
    requires a <= |rows| && forall b :: a <= b < |rows| ==> rows[b].trial != t
    ensures CountOf(rows, t) == CountOf(rows[..a], t)
  {
    if a == |rows| {
      assert rows[..a] == rows;
    } else {
      var n := |rows| - 1;
      CountTail(rows[..n], a, t);
      assert rows[..n][..a] == rows[..a];
    }
  }
}
