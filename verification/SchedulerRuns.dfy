/** What accepting a request does to runs, trials and grades, and when a settled run is completed or failed. */
module SchedulerRuns {
  import opened Options
  import opened SchedulerModel
  import opened SchedulerInvariant
  import opened SchedulerPreservation
  import opened SchedulerReachable
  import opened SchedulerTheorems

  // ---------------------------------------------------------------- new attempts

  /** Attempt `a` is queued and untouched, and its trial selects it. */
  predicate FreshAttempt(s: Store, a: nat, t: nat, number: nat) {
    a < |s.attempts| && t < |s.trials| && s.trials[t].selected == Some(a)
    && s.attempts[a] == Attempt(t, number, ExecQueued, None, Pending, s.attempts[a].work, None, None, None, None, None,
                                None)
    && s.attempts[a].work < |s.works| && s.works[s.attempts[a].work] == Work(AttemptWork, a, Queued, None, 0)
  }

  /** After the first `n` trials: those of the run have a fresh attempt each, and every new attempt is one of those. */
  predicate StartedUpTo(s: Store, mid: Store, r: nat, n: nat) {
    |mid.trials| == |s.trials| && |mid.attempts| >= |s.attempts| && |mid.works| >= |s.works|
    && (forall t :: 0 <= t < |s.trials| ==>
          mid.trials[t] == if t < n && s.trials[t].run == r then s.trials[t].(selected := mid.trials[t].selected)
            else s.trials[t])
    && (forall t :: 0 <= t < n && t < |s.trials| && s.trials[t].run == r ==>
          mid.trials[t].selected.Some? && mid.trials[t].selected.value >= |s.attempts|
          && FreshAttempt(mid, mid.trials[t].selected.value, t, 1))
    && (forall a :: |s.attempts| <= a < |mid.attempts| ==>
          mid.attempts[a].trial < n && mid.attempts[a].trial < |s.trials| && s.trials[mid.attempts[a].trial].run == r
          && mid.trials[mid.attempts[a].trial].selected == Some(a))
    && (forall a :: 0 <= a < |s.attempts| ==> mid.attempts[a] == s.attempts[a])
    && (forall w :: 0 <= w < |s.works| ==> mid.works[w] == s.works[w])
  }

  lemma {:induction false} NoRowsNoNumber(rows: seq<Attempt>, t: nat)
    requires forall a :: 0 <= a < |rows| ==> rows[a].trial != t
    ensures LastNumber(rows, t) == 0
  {
    if rows != [] { NoRowsNoNumber(rows[..|rows| - 1], t); }
  }

  lemma StartOneMore(s: Store, mid: Store, r: nat, t: nat)
    requires StartedUpTo(s, mid, r, t) && t < |s.trials| && s.trials[t].run == r
    requires forall a :: 0 <= a < |s.attempts| ==> s.attempts[a].trial != t
    ensures StartedUpTo(s, QueueAttempt(mid, t), r, t + 1)
  {
    NoRowsNoNumber(mid.attempts, t);
    var after := QueueAttempt(mid, t);
    assert FreshAttempt(after, |mid.attempts|, t, 1);
    forall u | 0 <= u < t && s.trials[u].run == r
      ensures after.trials[u].selected.Some? && after.trials[u].selected.value >= |s.attempts|
              && FreshAttempt(after, after.trials[u].selected.value, u, 1)
    {
      FreshStays(mid, mid.trials[u].selected.value, u, 1, t);
    }
  }

  lemma FreshStays(s: Store, a: nat, u: nat, number: nat, t: nat)
    requires FreshAttempt(s, a, u, number) && u < t < |s.trials|
    ensures FreshAttempt(QueueAttempt(s, t), a, u, number)
  {
  }

  lemma StartSkips(s: Store, mid: Store, r: nat, t: nat)
    requires StartedUpTo(s, mid, r, t) && t < |s.trials| && s.trials[t].run != r
    ensures StartedUpTo(s, mid, r, t + 1)
  {
  }

  lemma {:induction false} StartsUpTo(s: Store, r: nat, n: nat)
    requires n <= |s.trials|
    requires forall a :: 0 <= a < |s.attempts| ==>
               s.attempts[a].trial < |s.trials| && s.trials[s.attempts[a].trial].run != r
    ensures StartedUpTo(s, QueueTrials(s, r, n), r, n)
  {
    if n > 0 {
      StartsUpTo(s, r, n - 1);
      var before := QueueTrials(s, r, n - 1);
      assert before.trials[n - 1].run == s.trials[n - 1].run;
      if s.trials[n - 1].run == r { StartOneMore(s, before, r, n - 1); } else { StartSkips(s, before, r, n - 1); }
    }
  }

  /** Starting a created run gives each of its trials one fresh attempt numbered 1, and nothing else changes but the
      run's state. */
  lemma StartQueuesEveryTrial(s: Store, r: nat)
    requires Inv(s) && r < |s.runs| && s.runs[r].state.RunCreated?
    ensures var (after, reply) := StartRun(s, r);
            reply.Done? && StartedUpTo(s, after, r, |s.trials|)
            && after.runs == s.runs[r := s.runs[r].(state := RunQueued)]
            && after.epoch == s.epoch && after.grades == s.grades
  {
    NoAttemptsYet(s, r);
    StartsUpTo(s, r, |s.trials|);
    QueueTrialsAppends(s, r, |s.trials|);
    StartKeepsGrades(s, r, |s.trials|);
    RunStateKeepsStarted(s, QueueTrials(s, r, |s.trials|), r);
  }

  lemma NoAttemptsYet(s: Store, r: nat)
    requires Inv(s) && r < |s.runs| && s.runs[r].state.RunCreated?
    ensures forall a :: 0 <= a < |s.attempts| ==>
              s.attempts[a].trial < |s.trials| && s.trials[s.attempts[a].trial].run != r
  {
    assert RunOk(s, r);
    forall a | 0 <= a < |s.attempts|
      ensures s.attempts[a].trial < |s.trials| && s.trials[s.attempts[a].trial].run != r
    {
      assert LinkedAttempt(s, a);
      assert !ItemOf(s, s.attempts[a].work, r);
    }
  }

  lemma RunStateKeepsStarted(s: Store, mid: Store, r: nat)
    requires StartedUpTo(s, mid, r, |s.trials|)
    ensures StartedUpTo(s, SetRunState(mid, r, RunQueued), r, |s.trials|)
  {
    var after := SetRunState(mid, r, RunQueued);
    forall t | 0 <= t < |s.trials| && s.trials[t].run == r
      ensures after.trials[t].selected.Some? && after.trials[t].selected.value >= |s.attempts|
              && FreshAttempt(after, after.trials[t].selected.value, t, 1)
    {
      assert FreshAttempt(mid, mid.trials[t].selected.value, t, 1);
    }
  }

  lemma {:induction false} StartKeepsGrades(s: Store, r: nat, n: nat)
    requires n <= |s.trials|
    ensures QueueTrials(s, r, n).grades == s.grades
  {
    if n > 0 { StartKeepsGrades(s, r, n - 1); }
  }

  /** The trial's last attempt has ended cleanly in an infrastructure failure the plan lets be retried, within its
      number of attempts, and the run is neither cancelled nor indeterminate. */
  predicate MayRetry(s: Store, t: nat) {
    t < |s.trials| && s.trials[t].run < |s.runs| && s.trials[t].selected.Some?
    && s.trials[t].selected.value < |s.attempts|
    && var (run, last) := (s.runs[s.trials[t].run], s.attempts[s.trials[t].selected.value]);
       !run.state.RunCancelRequested? && !run.state.RunCancelled? && !run.state.RunIndeterminate?
       && last.work < |s.works| && s.works[last.work].state.Finished? && last.cleanup.Clean?
       && last.error.Some? && last.error.value != TaskLogic && last.error.value in run.retryable
       && last.number < run.maxAttempts
  }

  /** A retry is accepted exactly then, and adds one fresh attempt with the next number. */
  lemma RetriedExactlyWhen(s: Store, t: nat)
    requires Inv(s)
    ensures var (after, reply) := Retry(s, t);
            (reply.Done? <==> MayRetry(s, t)) && (reply.Done? || (reply.Refused? && after == s))
            && (reply.Done? ==>
                  var r := s.trials[t].run;
                  after.attempts[..|s.attempts|] == s.attempts && |after.attempts| == |s.attempts| + 1
                  && FreshAttempt(after, |s.attempts|, t, s.attempts[s.trials[t].selected.value].number + 1)
                  && after.works[..|s.works|] == s.works && |after.works| == |s.works| + 1
                  && after.trials == s.trials[t := s.trials[t].(selected := Some(|s.attempts|))]
                  && after.runs == s.runs[r := s.runs[r].(state := RunQueued)])
  {
    if t < |s.trials| {
      assert LinkedTrial(s, t);
      SelectedIsLast(s, t);
    }
  }

  // ---------------------------------------------------------------- runs and grades

  /** A plan is accepted exactly with distinct tasks, at least one of each count, and at most the quota of trials; the
      run starts out as created with the plan as given. */
  lemma CreatedExactlyWhen(s: Store, run: Run)
    ensures var (after, reply) := CreateRun(s, run);
            (reply.Done? <==> |run.tasks| >= 1 && run.repeats >= 1 && run.maxAttempts >= 1
                              && |run.tasks| * run.repeats <= 10_000
                              && forall i, j :: 0 <= i < j < |run.tasks| ==> run.tasks[i] != run.tasks[j])
            && (reply.Done? ==>
                  after.runs
                  == s.runs + [Run(RunCreated, run.attemptWall, run.trialWall, run.maxAttempts, run.retryable,
                                   run.tasks, run.repeats)]
                  && after.trials == s.trials + PlannedTrials(|s.runs|, run.tasks, run.repeats)
                  && after.works == s.works && after.attempts == s.attempts && after.grades == s.grades)
            && (reply.Done? || after == s)
  {
  }

  /** The executor's verdict becomes a grade of the attempt exactly while it owns the item: full reward passes, less
      fails, and a reward outside 0..1 leaves no row. */
  lemma GradedExactlyWhen(s: Store, w: nat, epoch: nat, version: nat, verdict: Verdict)
    ensures var (after, reply) := InsertGrade(s, w, epoch, version, verdict);
            (reply.Done? <==> Owned(s, w, epoch, version)) && after == s.(grades := after.grades)
            && after.grades[..|s.grades|] == s.grades
            && (reply.Done? ==>
                  var a := s.works[w].business;
                  match verdict
                  case GraderFailed => after.grades[|s.grades|..] == [Grade(a, GraderError, None, None)]
                  case Scored(reward) =>
                    if reward == 1.0 then after.grades[|s.grades|..] == [Grade(a, Graded, Some(Pass), Some(1.0))]
                    else if 0.0 <= reward < 1.0
                    then after.grades[|s.grades|..] == [Grade(a, Graded, Some(Fail), Some(reward))]
                    else after.grades == s.grades)
  {
  }

  /** The run's other rows never move with an item; a granted claim sets its own run running. */
  lemma GrantSetsRunRunning(s: Store, w: nat, expected: nat, now: int, turnsBlocked: bool)
    requires Inv(s) && Claim(s, w, expected, now, turnsBlocked).1.Granted?
    ensures var after := Claim(s, w, expected, now, turnsBlocked).0;
            IsItem(s, w) && RunOf(s, w) < |s.runs|
            && after.runs == s.runs[RunOf(s, w) := s.runs[RunOf(s, w)].(state := RunRunning)]
            && after.trials == s.trials && after.grades == s.grades
  {
  }

  /** The trial's selected attempt neither crashed, nor was blocked, nor failed to be graded. */
  predicate SelectedWell(s: Store, t: nat)
    requires t < |s.trials|
  {
    s.trials[t].selected.Some? && s.trials[t].selected.value < |s.attempts| ==>
      var row := s.attempts[s.trials[t].selected.value];
      row.exec != ExecError && row.exec != ExecBlocked
      && (row.grade.Some? && row.grade.value < |s.grades| ==> s.grades[row.grade.value].state != GraderError)
  }

  /** Of the runs that ended by themselves, exactly those are completed whose every trial selected well. */
  lemma CompletedExactlyWhen(s: Store, r: nat)
    requires Reachable(s) && r < |s.runs| && (s.runs[r].state.RunCompleted? || s.runs[r].state.RunFailed?)
    ensures s.runs[r].state.RunCompleted?
            <==> forall t :: 0 <= t < |s.trials| && s.trials[t].run == r ==> SelectedWell(s, t)
  {
    ReachableInv(s);
    assert RunOk(s, r);
    if s.runs[r].state.RunFailed? {
      var t :| 0 <= t < |s.trials| && s.trials[t].run == r && BadSelection(s, t);
      assert !SelectedWell(s, t);
    }
  }
}
