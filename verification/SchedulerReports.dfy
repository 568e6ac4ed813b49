/** What the scheduler's own stores give to the paired comparison. */
module SchedulerReports {
  import opened Options
  import opened SchedulerModel
  import opened SchedulerReachable
  import opened SchedulerRecords
  import opened Records
  import opened PairedReport

  /** One run's report rows, as the store exports them. */
  function ReportTrials(s: Store, r: nat): seq<TrialRecord> { TrialsOfRun(ExportTrials(s), r) }

  function ReportAttempts(s: Store, r: nat): seq<AttemptRecord> { AttemptsOf(ExportAttempts(s), ReportTrials(s, r)) }

  /** Whatever the scheduler did, the never-best-of checks accept the report of each of its runs. */
  lemma ReachableReportsSelectable(s: Store, r: nat)
    requires Reachable(s)
    ensures Selectable(ReportTrials(s, r), ReportAttempts(s, r))
    ensures r < |s.runs| ==> PlannedKeys(ReportTrials(s, r)) == PlannedCells(PlanOf(s.runs[r]))
  {
    ReachableRecordsAccepted(s);
    AcceptedIsSelectable(ExportTrials(s), ExportAttempts(s), ExportGrades(s), ExportPlans(s), r);
  }

  /** Two runs of one store are compared, without a selection or denominator complaint, exactly when their plans name
      the same cells and the bootstrap is affordable. */
  method CompareRuns(s: Store, a: nat, b: nat, samples: nat, rng: (nat, nat) -> nat)
    returns (report: Report, error: Option<ReportError>)
    requires Reachable(s) && a < |s.runs| && b < |s.runs|
    ensures error.None? <==> 100 <= samples <= 10000
                             && Affordable(PlannedCells(PlanOf(s.runs[a])), PlannedCells(PlanOf(s.runs[b])), samples)
    ensures error.None? ==> ReportRight(report, ReportTrials(s, a), ReportAttempts(s, a), ReportTrials(s, b),
                                        ReportAttempts(s, b))
  {
    ReachableReportsSelectable(s, a);
    ReachableReportsSelectable(s, b);
    report, error := Paired(ReportTrials(s, a), ReportAttempts(s, a), ReportTrials(s, b), ReportAttempts(s, b), samples,
                            rng);
  }
}
