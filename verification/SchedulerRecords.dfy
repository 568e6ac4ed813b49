/** The records a reachable store exports pass every relation check of the offline validator. */
module SchedulerRecords {
  import opened Options
  import opened SchedulerModel
  import opened SchedulerInvariant
  import opened SchedulerReachable
  import opened SchedulerTheorems
  import opened Records

  function ExportTrials(s: Store): seq<TrialRecord> {
    seq(|s.trials|, t requires 0 <= t < |s.trials| =>
      TrialRecord(t, s.trials[t].run, s.trials[t].task, s.trials[t].repeat, s.trials[t].selected))
  }

  function ExportGrades(s: Store): seq<GradeRecord> {
    seq(|s.grades|, g requires 0 <= g < |s.grades| =>
      GradeRecord(g, s.grades[g].attempt, s.grades[g].state, s.grades[g].result, s.grades[g].reward))
  }

  function ExportAttempts(s: Store): seq<AttemptRecord> {
    seq(|s.attempts|, a requires 0 <= a < |s.attempts| =>
      var row := s.attempts[a];
      var graded := row.grade.Some? && row.grade.value < |s.grades|;
      AttemptRecord(a, row.trial, row.number, row.grade,
                    if graded then Some(s.grades[row.grade.value].state) else None,
                    if graded then s.grades[row.grade.value].result else None))
  }

  function TaskSet(tasks: seq<nat>): set<nat> { set task | task in tasks }

  function PlanOf(run: Run): Plan { Plan(TaskSet(run.tasks), run.repeats, run.maxAttempts) }

  function ExportPlans(s: Store): Plans { map r: nat | 0 <= r < |s.runs| :: PlanOf(s.runs[r]) }

  // ---------------------------------------------------------------- the plan of a run never changes

  predicate SameCell(before: Trial, after: Trial) {
    after.run == before.run && after.task == before.task && after.repeat == before.repeat
  }

  predicate SamePlanOf(before: Run, after: Run) {
    after.tasks == before.tasks && after.repeats == before.repeats && after.maxAttempts == before.maxAttempts
  }

  lemma {:induction false} QueueTrialsKeepsCells(s: Store, r: nat, n: nat)
    requires n <= |s.trials|
    ensures forall t :: 0 <= t < |s.trials| ==> SameCell(s.trials[t], QueueTrials(s, r, n).trials[t])
    ensures QueueTrials(s, r, n).runs == s.runs && QueueTrials(s, r, n).grades == s.grades
  {
    if n > 0 { QueueTrialsKeepsCells(s, r, n - 1); }
  }

  /** No step changes a trial's cell or a run's plan. */
  lemma CellsAreFixed(s: Store, e: Event)
    ensures var after := Step(s, e).0;
            |after.trials| >= |s.trials| && |after.runs| >= |s.runs|
            && (forall t :: 0 <= t < |s.trials| ==> SameCell(s.trials[t], after.trials[t]))
            && (forall r :: 0 <= r < |s.runs| ==> SamePlanOf(s.runs[r], after.runs[r]))
  {
    if e.EStart? { QueueTrialsKeepsCells(s, e.run_, |s.trials|); } else if OnItem(e) { ItemEventKeepsCells(s, e); }
  }

  lemma ItemEventKeepsCells(s: Store, e: Event)
    requires OnItem(e)
    ensures var after := Step(s, e).0;
            after.trials == s.trials && |after.runs| == |s.runs| && after.grades == s.grades
            && |after.attempts| == |s.attempts| && forall r :: 0 <= r < |s.runs|
                                                      ==> SamePlanOf(s.runs[r], after.runs[r])
  {
  }

  /** Only an accepted plan adds a run. */
  lemma RunsGrow(s: Store, e: Event)
    ensures |Step(s, e).0.runs| > |s.runs|
            ==> e.ECreateRun? && PlanValid(e.run) && |Step(s, e).0.runs| == |s.runs| + 1
  {
    if e.EStart? { QueueTrialsKeepsCells(s, e.run_, |s.trials|); } else if OnItem(e) { ItemEventKeepsCells(s, e); }
  }

  /** The run's trials are exactly its planned cells, each once. */
  ghost predicate Planned(s: Store, r: nat)
    requires r < |s.runs|
  {
    PlanValid(s.runs[r]) && PlanCovered(ExportTrials(s), r, PlanOf(s.runs[r]))
  }

  lemma {:induction false} DistinctTasks(tasks: seq<nat>)
    requires NoRepeats(tasks)
    ensures |TaskSet(tasks)| == |tasks|
  {
    if tasks != [] {
      var shorter, last := tasks[..|tasks| - 1], tasks[|tasks| - 1];
      assert tasks == shorter + [last];
      DistinctTasks(shorter);
      assert TaskSet(tasks) == TaskSet(shorter) + {last};
    }
  }

  predicate PlansCell(trials: seq<Trial>, task: nat, k: nat) {
    exists t :: 0 <= t < |trials| && trials[t].task == task && trials[t].repeat == k
  }

  predicate OnPlan(trials: seq<Trial>, tasks: seq<nat>, repeats: nat) {
    forall t :: 0 <= t < |trials| ==> trials[t].task in tasks && trials[t].repeat < repeats
  }

  predicate EachOnce(trials: seq<Trial>) {
    forall t, u :: 0 <= t < u < |trials| ==> (trials[t].task, trials[t].repeat) != (trials[u].task, trials[u].repeat)
  }

  ghost predicate AllCells(trials: seq<Trial>, tasks: seq<nat>, repeats: nat) {
    forall task: nat, k: nat :: task in tasks && k < repeats ==> PlansCell(trials, task, k)
  }

  lemma OneMoreTask(r: nat, first: seq<Trial>, tasks: seq<nat>, last: nat, repeats: nat)
    requires OnPlan(first, tasks, repeats) && EachOnce(first) && AllCells(first, tasks, repeats) && last !in tasks
    ensures var trials := first + seq(repeats, k requires 0 <= k < repeats => Trial(r, last, k, None));
            OnPlan(trials, tasks + [last], repeats) && EachOnce(trials) && AllCells(trials, tasks + [last], repeats)
  {
    var trials := first + seq(repeats, k requires 0 <= k < repeats => Trial(r, last, k, None));
    forall t | 0 <= t < |trials|
      ensures trials[t] == if t < |first| then first[t] else Trial(r, last, t - |first|, None)
    {
    }
    forall task: nat, k: nat | task in tasks + [last] && k < repeats ensures PlansCell(trials, task, k) {
      if task == last {
        assert trials[|first| + k].task == task && trials[|first| + k].repeat == k;
      } else {
        assert PlansCell(first, task, k);
        var t :| 0 <= t < |first| && first[t].task == task && first[t].repeat == k;
        assert trials[t] == first[t];
      }
    }
  }

  /** The planned trials hold every cell of the plan once and nothing else. */
  lemma {:induction false} PlannedTrialsCover(r: nat, tasks: seq<nat>, repeats: nat)
    requires NoRepeats(tasks)
    ensures var trials := PlannedTrials(r, tasks, repeats);
            OnPlan(trials, tasks, repeats) && EachOnce(trials) && AllCells(trials, tasks, repeats)
  {
    if tasks != [] {
      var shorter, last := tasks[..|tasks| - 1], tasks[|tasks| - 1];
      assert tasks == shorter + [last];
      PlannedTrialsCover(r, shorter, repeats);
      OneMoreTask(r, PlannedTrials(r, shorter, repeats), shorter, last, repeats);
    }
  }

  /** A run that was there keeps its denominator. */
  lemma PlanStays(s: Store, e: Event, r: nat)
    requires r < |s.runs| && Planned(s, r)
    ensures r < |Step(s, e).0.runs| && Planned(Step(s, e).0, r)
  {
    var after := Step(s, e).0;
    CellsAreFixed(s, e);
    PlanIsFixed(s, e, r);
    SameDenominator(ExportTrials(s), ExportTrials(after), r, PlanOf(s.runs[r]));
    assert PlanOf(after.runs[r]) == PlanOf(s.runs[r]);
  }

  lemma SameDenominator(trials: seq<TrialRecord>, more: seq<TrialRecord>, r: nat, plan: Plan)
    requires PlanCovered(trials, r, plan) && |more| >= |trials|
    requires forall t :: 0 <= t < |trials| ==>
               more[t].run == trials[t].run && more[t].task == trials[t].task && more[t].repeat == trials[t].repeat
    requires forall t :: |trials| <= t < |more| ==> more[t].run != r
    ensures PlanCovered(more, r, plan)
  {
    forall task, k: nat | task in plan.tasks && k < plan.repeats ensures HasCell(more, r, task, k) {
      assert HasCell(trials, r, task, k);
      var t :| 0 <= t < |trials| && trials[t].run == r && trials[t].task == task && trials[t].repeat == k;
      assert more[t].run == r;
    }
    forall i, j | 0 <= i < j < |more| && more[i].run == r && more[j].run == r
      ensures (more[i].task, more[i].repeat) != (more[j].task, more[j].repeat)
    {
      assert (trials[i].task, trials[i].repeat) != (trials[j].task, trials[j].repeat);
    }
  }

  /** A new run's trials are its denominator. */
  lemma NewRunPlanned(s: Store, run: Run)
    requires Linked(s) && PlanValid(run)
    ensures var after := CreateRun(s, run).0; |s.runs| < |after.runs| && Planned(after, |s.runs|)
  {
    var after, r := CreateRun(s, run).0, |s.runs|;
    PlannedTrialsCover(r, run.tasks, run.repeats);
    DistinctTasks(run.tasks);
    forall t | 0 <= t < |s.trials| ensures s.trials[t].run != r { assert LinkedTrial(s, t); }
    AppendedCover(ExportTrials(after), s.trials, PlannedTrials(r, run.tasks, run.repeats), r, PlanOf(run), run.tasks);
    assert PlanOf(after.runs[r]) == PlanOf(run);
  }

  lemma AppendedCover(rows: seq<TrialRecord>, old_: seq<Trial>, fresh_: seq<Trial>, r: nat, plan: Plan, tasks: seq<nat>)
    requires |rows| == |old_| + |fresh_| && plan.tasks == TaskSet(tasks) && |plan.tasks| * plan.repeats <= MAX_TRIALS
    requires forall t :: 0 <= t < |old_| ==> rows[t].run == old_[t].run != r
    requires forall t :: 0 <= t < |fresh_| ==>
               rows[|old_| + t].run == r && rows[|old_| + t].task == fresh_[t].task
               && rows[|old_| + t].repeat == fresh_[t].repeat
    requires OnPlan(fresh_, tasks, plan.repeats) && EachOnce(fresh_) && AllCells(fresh_, tasks, plan.repeats)
    ensures PlanCovered(rows, r, plan)
  {
    var n := |old_|;
    forall t | 0 <= t < |rows| && rows[t].run == r
      ensures n <= t && rows[t].task == fresh_[t - n].task && rows[t].repeat == fresh_[t - n].repeat
    {
      assert t >= n ==> rows[n + (t - n)].task == fresh_[t - n].task;
    }
    forall task, k: nat | task in plan.tasks && k < plan.repeats ensures HasCell(rows, r, task, k) {
      assert PlansCell(fresh_, task, k);
      var t :| 0 <= t < |fresh_| && fresh_[t].task == task && fresh_[t].repeat == k;
      assert rows[n + t].run == r;
    }
  }

  // ---------------------------------------------------------------- grade rows

  predicate GradeRowOk(s: Store, g: nat)
    requires g < |s.grades|
  {
    s.grades[g].attempt < |s.attempts|
    && VerdictOk(GradeRecord(g, s.grades[g].attempt, s.grades[g].state, s.grades[g].result, s.grades[g].reward))
  }

  /** What the offline checks need beyond the invariant. */
  ghost predicate Exportable(s: Store) {
    Inv(s) && (forall r :: 0 <= r < |s.runs| ==> Planned(s, r)) && forall g :: 0 <= g < |s.grades| ==> GradeRowOk(s, g)
  }

  lemma {:induction false} QueueTrialsKeepsAttempts(s: Store, r: nat, n: nat)
    requires n <= |s.trials|
    ensures |QueueTrials(s, r, n).attempts| >= |s.attempts|
  {
    if n > 0 { QueueTrialsKeepsAttempts(s, r, n - 1); }
  }

  lemma GradeRowsStay(s: Store, e: Event)
    requires forall g :: 0 <= g < |s.grades| ==> GradeRowOk(s, g)
    ensures forall g :: 0 <= g < |Step(s, e).0.grades| ==> GradeRowOk(Step(s, e).0, g)
  {
    if e.EStart? {
      QueueTrialsKeepsCells(s, e.run_, |s.trials|);
      QueueTrialsKeepsAttempts(s, e.run_, |s.trials|);
    }
    if OnItem(e) { ItemEventKeepsCells(s, e); }
    var after := Step(s, e).0;
    assert |after.attempts| >= |s.attempts| && s.grades <= after.grades;
    forall g | 0 <= g < |s.grades| ensures GradeRowOk(after, g) {
      assert GradeRowOk(s, g) && after.grades[g] == s.grades[g];
    }
  }

  lemma StepKeepsExportable(s: Store, e: Event)
    requires Exportable(s)
    ensures Exportable(Step(s, e).0)
  {
    var after := Step(s, e).0;
    StepKeepsInv(s, e);
    GradeRowsStay(s, e);
    RunsGrow(s, e);
    forall r | 0 <= r < |after.runs| ensures Planned(after, r) {
      if r < |s.runs| { PlanStays(s, e, r); } else { NewRunPlanned(s, e.run); }
    }
  }

  lemma {:induction false} HistoryKeepsExportable(s: Store, events: seq<Event>)
    requires Exportable(s)
    ensures Exportable(After(s, events))
    decreases |events|
  {
    if events != [] {
      StepKeepsExportable(s, events[0]);
      HistoryKeepsExportable(Step(s, events[0]).0, events[1..]);
    }
  }

  lemma ReachableExportable(s: Store)
    requires Reachable(s)
    ensures Exportable(s)
  {
    var events :| s == After(EMPTY, events);
    HistoryKeepsExportable(EMPTY, events);
  }

  // ---------------------------------------------------------------- numbers and selections

  lemma {:induction false} CountsGrow(rows: seq<Attempt>, i: nat, j: nat, t: nat)
    requires i < j <= |rows|
    ensures CountOf(rows[..i], t) + (if rows[i].trial == t then 1 else 0) <= CountOf(rows[..j], t)
  {
    assert rows[..j][..j - 1] == rows[..j - 1];
    if i < j - 1 { CountsGrow(rows, i, j - 1, t); }
  }

  /** Every number up to the count is some row's position among its trial's rows. */
  lemma {:induction false} EveryNumberIsUsed(rows: seq<Attempt>, t: nat, k: nat)
    requires 1 <= k <= CountOf(rows, t)
    ensures exists i :: 0 <= i < |rows| && rows[i].trial == t && CountOf(rows[..i], t) + 1 == k
  {
    var n := |rows| - 1;
    if k == CountOf(rows, t) && rows[n].trial == t {
      assert CountOf(rows[..n], t) + 1 == k;
    } else {
      EveryNumberIsUsed(rows[..n], t, k);
      var i :| 0 <= i < n && rows[..n][i].trial == t && CountOf(rows[..n][..i], t) + 1 == k;
      assert rows[..n][..i] == rows[..i];
    }
  }

  lemma TrialHistoryOk(s: Store, t: nat)
    requires Inv(s) && t < |s.trials|
    ensures HistoryOk(ExportAttempts(s), ExportTrials(s)[t])
  {
    var records, n := ExportAttempts(s), CountOf(s.attempts, t);
    SelectedIsLast(s, t);
    forall i | 0 <= i < |records| && records[i].trial == t ensures 1 <= records[i].number <= n {
      assert NumberedAttempt(s, i);
      CountsGrow(s.attempts, i, |s.attempts|, t);
      assert s.attempts[..|s.attempts|] == s.attempts;
    }
    forall i, j | 0 <= i < j < |records| && records[i].trial == t && records[j].trial == t
      ensures records[i].number != records[j].number
    {
      assert NumberedAttempt(s, i) && NumberedAttempt(s, j);
      CountsGrow(s.attempts, i, j, t);
    }
    forall k | 1 <= k <= n ensures HasNumber(records, t, k) {
      EveryNumberIsUsed(s.attempts, t, k);
      var i :| 0 <= i < |s.attempts| && s.attempts[i].trial == t && CountOf(s.attempts[..i], t) + 1 == k;
      assert NumberedAttempt(s, i);
      assert records[i].number == k;
    }
    assert NumbersRunTo(records, t, n);
    assert LinkedTrial(s, t);
    var trial := ExportTrials(s)[t];
    if n > 0 {
      var a := s.trials[t].selected.value;
      assert records[a].trial == t && records[a].number == n && trial.selected == Some(records[a].id);
    }
    assert SelectsNumber(records, trial, n);
  }

  lemma AttemptRowsPlaced(s: Store, a: nat)
    requires Inv(s) && a < |s.attempts|
    ensures AttemptPlaced(ExportTrials(s), ExportPlans(s), ExportAttempts(s)[a])
    ensures GradeOwned(ExportGrades(s), ExportAttempts(s)[a])
  {
    var t, grades := s.attempts[a].trial, ExportGrades(s);
    assert LinkedAttempt(s, a) && NumberedAttempt(s, a) && WithinRetryBound(s, a) && LinkedTrial(s, t);
    assert ExportTrials(s)[t].id == t && ExportTrials(s)[t].run in ExportPlans(s);
    if s.attempts[a].grade.Some? { assert grades[s.attempts[a].grade.value].id == s.attempts[a].grade.value; }
  }

  lemma TrialRowsPlanned(s: Store, t: nat)
    requires Exportable(s) && t < |s.trials|
    ensures TrialPlanned(ExportPlans(s), ExportTrials(s)[t])
  {
    assert LinkedTrial(s, t);
    assert Planned(s, s.trials[t].run);
  }

  lemma GradeRowsAccepted(s: Store, g: nat)
    requires Exportable(s) && g < |s.grades|
    ensures GradeOk(ExportAttempts(s), ExportGrades(s)[g])
  {
    assert GradeRowOk(s, g);
    assert ExportAttempts(s)[s.grades[g].attempt].id == s.grades[g].attempt;
  }

  /** No history of the scheduler produces records off the plan, with a gap, a repeated number, a best-of selection, an
      attempt past the retry bound, a verdict that is not the reward's or a foreign grade. */
  lemma ReachableRecordsAccepted(s: Store)
    requires Reachable(s)
    ensures RelationsHold(ExportTrials(s), ExportAttempts(s), ExportGrades(s), ExportPlans(s))
  {
    ReachableExportable(s);
    forall t | 0 <= t < |s.trials|
      ensures TrialPlanned(ExportPlans(s), ExportTrials(s)[t]) && HistoryOk(ExportAttempts(s), ExportTrials(s)[t])
    {
      TrialRowsPlanned(s, t);
      TrialHistoryOk(s, t);
    }
    forall r | r in ExportPlans(s) ensures PlanCovered(ExportTrials(s), r, ExportPlans(s)[r]) { assert Planned(s, r); }
    forall a | 0 <= a < |s.attempts|
      ensures AttemptPlaced(ExportTrials(s), ExportPlans(s), ExportAttempts(s)[a])
              && GradeOwned(ExportGrades(s), ExportAttempts(s)[a])
    {
      AttemptRowsPlaced(s, a);
    }
    forall g | 0 <= g < |s.grades| ensures GradeOk(ExportAttempts(s), ExportGrades(s)[g]) { GradeRowsAccepted(s, g); }
  }
}
