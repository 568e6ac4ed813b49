/** The remaining transactions keep the invariant too; so it holds after every history. */
module SchedulerReachable {
  import opened Options
  import opened SchedulerModel
  import opened SchedulerInvariant
  import opened SchedulerPreservation

  // ---------------------------------------------------------------- queueing an attempt

  predicate MayQueue(s: Store, t: nat) {
    t < |s.trials| && s.trials[t].run < |s.runs|
    && LastNumber(s.attempts, t) + 1 <= s.runs[s.trials[t].run].maxAttempts
    && (s.trials[t].selected.Some? ==>
          s.trials[t].selected.value < |s.attempts|
          && s.attempts[s.trials[t].selected.value].work < |s.works|
          && s.works[s.attempts[s.trials[t].selected.value].work].state.Finished?)
  }

  lemma NumbersMatchCounts(s: Store, t: nat)
    requires Numbered(s)
    ensures LastNumber(s.attempts, t) == CountOf(s.attempts, t)
  {
    forall a | 0 <= a < |s.attempts| ensures s.attempts[a].number == CountOf(s.attempts[..a], s.attempts[a].trial) + 1 {
      assert NumberedAttempt(s, a);
    }
    LastNumberIsCount(s.attempts, t);
  }

  lemma QueueKeepsAttempt(s: Store, t: nat, a: nat)
    requires Core(s) && MayQueue(s, t) && a < |s.attempts|
    ensures var after := QueueAttempt(s, t);
            LinkedAttempt(after, a) && CoupledAttempt(after, a) && FundedAttempt(after, a)
            && NumberedAttempt(after, a) && SupersededFinished(after, a) && WithinRetryBound(after, a)
  {
    var after := QueueAttempt(s, t);
    assert NumberedAttempt(s, a) && SupersededFinished(s, a) && WithinRetryBound(s, a);
    assert LinkedAttempt(s, a) && CoupledAttempt(s, a) && FundedAttempt(s, a);
    assert after.attempts[..a] == s.attempts[..a];
    SpentAppend(s.attempts, after.attempts[|s.attempts|], s.attempts[a].trial);
  }

  lemma QueueFreshAttempt(s: Store, t: nat)
    requires Core(s) && MayQueue(s, t)
    ensures var (after, a) := (QueueAttempt(s, t), |s.attempts|);
            LinkedAttempt(after, a) && CoupledAttempt(after, a) && FundedAttempt(after, a)
            && NumberedAttempt(after, a) && SupersededFinished(after, a) && WithinRetryBound(after, a)
  {
    assert QueueAttempt(s, t).attempts[..|s.attempts|] == s.attempts;
    NumbersMatchCounts(s, t);
  }

  lemma QueueKeepsTrial(s: Store, t: nat, u: nat)
    requires Core(s) && MayQueue(s, t) && u < |s.trials|
    ensures var after := QueueAttempt(s, t);
            LinkedTrial(after, u) && after.trials[u].run < |after.runs| && WithinOneOvershoot(after, u)
  {
    var after := QueueAttempt(s, t);
    assert LinkedTrial(s, u) && WithinOneOvershoot(s, u);
    SpentAppend(s.attempts, after.attempts[|s.attempts|], u);
    if Spent(s.attempts, u) > TrialWall(s, u) {
      var a :| 0 <= a < |s.attempts| && s.attempts[a].trial == u
               && Spent(s.attempts, u) <= TrialWall(s, u) + Overshoot(s.attempts[a]);
      assert after.attempts[a] == s.attempts[a];
    }
  }

  lemma QueueKeepsCore(s: Store, t: nat)
    requires Core(s) && MayQueue(s, t)
    ensures Core(QueueAttempt(s, t))
  {
    var after := QueueAttempt(s, t);
    forall a | 0 <= a < |after.attempts|
      ensures LinkedAttempt(after, a) && CoupledAttempt(after, a) && FundedAttempt(after, a)
      ensures NumberedAttempt(after, a) && SupersededFinished(after, a) && WithinRetryBound(after, a)
    {
      if a < |s.attempts| { QueueKeepsAttempt(s, t, a); } else { QueueFreshAttempt(s, t); }
    }
    forall w | 0 <= w < |after.works| ensures LinkedWork(after, w) && OwnedRow(after, w) {
      assert w < |s.works| ==> LinkedWork(s, w) && OwnedRow(s, w);
    }
    forall u | 0 <= u < |after.trials|
      ensures LinkedTrial(after, u) && after.trials[u].run < |after.runs| && WithinOneOvershoot(after, u)
    {
      QueueKeepsTrial(s, t, u);
    }
  }

  /** Queueing for one run leaves every other run's items and selections as they were. */
  lemma QueueFrame(s: Store, t: nat, q: nat)
    requires Linked(s) && t < |s.trials| && q != s.trials[t].run
    ensures SameView(s, QueueAttempt(s, t), q)
  {
    var after := QueueAttempt(s, t);
    QueueItems(s, t, q);
    forall u | 0 <= u < |s.trials| && s.trials[u].run == q ensures BadSelection(s, u) <==> BadSelection(after, u) {
      assert LinkedTrial(s, u);
    }
  }

  lemma QueueItems(s: Store, t: nat, q: nat)
    requires Linked(s) && t < |s.trials|
    ensures var after := QueueAttempt(s, t);
            (forall w :: 0 <= w < |s.works| ==>
               (ItemOf(s, w, q) <==> ItemOf(after, w, q)) && after.works[w] == s.works[w])
            && (ItemOf(after, |s.works|, q) <==> q == s.trials[t].run)
  {
    var after := QueueAttempt(s, t);
    forall w | 0 <= w < |s.works| ensures ItemOf(s, w, q) <==> ItemOf(after, w, q) {
      assert LinkedWork(s, w);
      if s.works[w].kind.AttemptWork? { assert LinkedAttempt(s, s.works[w].business); }
    }
  }

  lemma QueueKeepsOwnRun(s: Store, t: nat)
    requires Linked(s) && t < |s.trials| && !HasReconciling(s, s.trials[t].run)
    ensures var (after, r) := (QueueAttempt(s, t), s.trials[t].run); HasOpen(after, r) && !HasReconciling(after, r)
  {
    var after, r := QueueAttempt(s, t), s.trials[t].run;
    QueueItems(s, t, r);
    assert ItemOf(after, |s.works|, r);
    forall w | 0 <= w < |after.works| && ItemOf(after, w, r) ensures !after.works[w].state.Reconciling? {}
  }

  lemma RetryKeepsInv(s: Store, t: nat)
    requires Inv(s)
    ensures Inv(Retry(s, t).0)
  {
    if Retry(s, t).1.Done? {
      var r, a, queued := s.trials[t].run, s.trials[t].selected.value, QueueAttempt(s, t);
      assert RunOk(s, r) && LinkedTrial(s, t) && LinkedAttempt(s, a);
      SelectedIsLast(s, t);
      QueueKeepsCore(s, t);
      QueueKeepsOwnRun(s, t);
      QueueKeepsShapes(s, t);
      RunStateKeepsCore(queued, r, RunQueued);
      RunStateKeepsShapes(queued, r, RunQueued);
      forall q | 0 <= q < |s.runs| ensures RunOk(SetRunState(queued, r, RunQueued), q) {
        assert RunOk(s, q);
        RunStateFrame(queued, r, RunQueued, q);
        if q != r { QueueFrame(s, t, q); SameViewSameVerdict(s, queued, q); }
      }
    }
  }

  lemma QueueKeepsShapes(s: Store, t: nat)
    requires RunShapes(s) && t < |s.trials| && s.trials[t].run < |s.runs| && !s.runs[s.trials[t].run].state.RunCreated?
    ensures RunShapes(QueueAttempt(s, t))
  {
    var after := QueueAttempt(s, t);
    forall r | 0 <= r < |after.runs| ensures RunShape(after, r) {
      assert RunShape(s, r);
      var u :| 0 <= u < |s.trials| && s.trials[u].run == r;
      assert after.trials[u].run == r;
    }
  }

  /** The selected attempt is the trial's last one, and carries the largest number. */
  lemma SelectedIsLast(s: Store, t: nat)
    requires Linked(s) && Numbered(s) && t < |s.trials|
    ensures s.trials[t].selected.None? ==> CountOf(s.attempts, t) == 0
    ensures s.trials[t].selected.Some? ==>
              s.trials[t].selected.value < |s.attempts|
              && s.attempts[s.trials[t].selected.value].number == CountOf(s.attempts, t)
    ensures LastNumber(s.attempts, t) == CountOf(s.attempts, t)
  {
    NumbersMatchCounts(s, t);
    assert LinkedTrial(s, t);
    if s.trials[t].selected.None? {
      forall a | 0 <= a < |s.attempts| ensures s.attempts[a].trial != t { assert SupersededFinished(s, a); }
      NoRowsNoCount(s.attempts, t);
    } else {
      var a := s.trials[t].selected.value;
      forall b | a + 1 <= b < |s.attempts| ensures s.attempts[b].trial != t { assert SupersededFinished(s, b); }
      CountTail(s.attempts, a + 1, t);
      assert NumberedAttempt(s, a) && s.attempts[..a + 1][..a] == s.attempts[..a];
    }
  }

  // ---------------------------------------------------------------- starting a run

  /** What holds after queueing the first `n` trials of a run that was only created. */
  predicate PartlyQueued(s: Store, mid: Store, r: nat, n: nat) {
    Core(mid) && mid.runs == s.runs && |mid.trials| == |s.trials| && !HasReconciling(mid, r)
    && (forall t :: 0 <= t < |s.trials| ==> mid.trials[t].run == s.trials[t].run)
    && (forall t :: n <= t < |s.trials| ==> mid.trials[t] == s.trials[t])
    && (forall t :: 0 <= t < |s.trials| && s.trials[t].run != r ==> mid.trials[t] == s.trials[t])
    && (forall t :: 0 <= t < n && t < |s.trials| && s.trials[t].run == r ==> HasOpen(mid, r))
    && (forall q :: 0 <= q < |s.runs| && q != r ==> RunOk(mid, q))
  }

  lemma QueueOneMore(s: Store, before: Store, r: nat, t: nat)
    requires Inv(s) && r < |s.runs| && s.runs[r].state.RunCreated? && t < |s.trials| && s.trials[t].run == r
    requires PartlyQueued(s, before, r, t)
    ensures PartlyQueued(s, QueueAttempt(before, t), r, t + 1)
  {
    var after := QueueAttempt(before, t);
    assert RunShape(s, r) && before.trials[t] == s.trials[t];
    SelectedIsLast(before, t);
    QueueKeepsCore(before, t);
    QueueKeepsOwnRun(before, t);
    forall q | 0 <= q < |s.runs| && q != r ensures RunOk(after, q) {
      assert RunOk(before, q);
      QueueFrame(before, t, q);
      SameViewSameVerdict(before, after, q);
    }
  }

  lemma {:induction false} QueueTrialsKeepsCore(s: Store, r: nat, n: nat)
    requires Inv(s) && r < |s.runs| && s.runs[r].state.RunCreated? && n <= |s.trials|
    ensures PartlyQueued(s, QueueTrials(s, r, n), r, n)
  {
    if n == 0 {
      assert RunOk(s, r);
    } else {
      QueueTrialsKeepsCore(s, r, n - 1);
      var before := QueueTrials(s, r, n - 1);
      if before.trials[n - 1].run == r { QueueOneMore(s, before, r, n - 1); }
    }
  }

  lemma StartRunKeepsInv(s: Store, r: nat)
    requires Inv(s)
    ensures Inv(StartRun(s, r).0)
  {
    if r < |s.runs| && s.runs[r].state.RunCreated? {
      var mid := QueueTrials(s, r, |s.trials|);
      QueueTrialsKeepsCore(s, r, |s.trials|);
      assert RunShape(s, r);
      RunStateKeepsCore(mid, r, RunQueued);
      var after := SetRunState(mid, r, RunQueued);
      forall q | 0 <= q < |s.runs| ensures RunOk(after, q) && RunShape(after, q) {
        assert RunShape(s, q);
        var t :| 0 <= t < |s.trials| && s.trials[t].run == q;
        assert after.trials[t].run == q;
        RunStateFrame(mid, r, RunQueued, q);
        assert q != r ==> RunOk(mid, q);
      }
    }
  }

  // ---------------------------------------------------------------- steps that change many rows at once

  /** Every row keeps its identity, its recorded time and its grant; nothing finished is reopened. */
  predicate PointwiseStep(s: Store, after: Store) {
    after.trials == s.trials && after.grades == s.grades
    && |after.runs| == |s.runs| && |after.works| == |s.works| && |after.attempts| == |s.attempts|
    && (forall r :: 0 <= r < |s.runs| ==> after.runs[r] == s.runs[r].(state := after.runs[r].state))
    && (forall w :: 0 <= w < |s.works| ==> SameWorkIdentity(s.works[w], after.works[w]))
    && (forall a :: 0 <= a < |s.attempts| ==> SameAttemptIdentity(s.attempts[a], after.attempts[a]))
  }

  predicate SameWorkIdentity(before: Work, after: Work) {
    after.kind == before.kind && after.business == before.business
    && (before.state.Finished? && before.kind.AttemptWork? ==> after.state.Finished?)
  }

  predicate SameAttemptIdentity(before: Attempt, after: Attempt) {
    after.trial == before.trial && after.number == before.number && after.work == before.work
      && after.grade == before.grade
    && after.grant == before.grant && Elapsed(after) == Elapsed(before) && Overshoot(after) == Overshoot(before)
    && (after.exec.ExecRunning? ==> before.exec.ExecRunning?)
  }

  lemma PointwiseKeepsAttempt(s: Store, after: Store, a: nat)
    requires Core(s) && PointwiseStep(s, after) && a < |s.attempts|
    ensures LinkedAttempt(after, a) && FundedAttempt(after, a)
    ensures NumberedAttempt(after, a) && SupersededFinished(after, a) && WithinRetryBound(after, a)
  {
    assert LinkedAttempt(s, a) && FundedAttempt(s, a);
    assert NumberedAttempt(s, a) && SupersededFinished(s, a) && WithinRetryBound(s, a);
    forall b | 0 <= b < |s.attempts| ensures SameAttemptIdentity(s.attempts[b], after.attempts[b]) {}
    SpentPointwise(s.attempts, after.attempts, s.attempts[a].trial);
    CountPointwise(s.attempts[..a], after.attempts[..a], s.attempts[a].trial);
  }

  lemma PointwiseKeepsTrial(s: Store, after: Store, t: nat)
    requires Core(s) && PointwiseStep(s, after) && t < |s.trials|
    ensures LinkedTrial(after, t) && WithinOneOvershoot(after, t)
  {
    assert LinkedTrial(s, t) && WithinOneOvershoot(s, t);
    forall b | 0 <= b < |s.attempts| ensures SameAttemptIdentity(s.attempts[b], after.attempts[b]) {}
    SpentPointwise(s.attempts, after.attempts, t);
    if Spent(s.attempts, t) > TrialWall(s, t) {
      var a :| 0 <= a < |s.attempts| && s.attempts[a].trial == t
               && Spent(s.attempts, t) <= TrialWall(s, t) + Overshoot(s.attempts[a]);
      assert after.attempts[a].trial == t;
    }
  }

  lemma PointwiseKeepsCore(s: Store, after: Store)
    requires Core(s) && RunShapes(s) && PointwiseStep(s, after) && Coupled(after) && Exclusive(after)
    requires forall r :: 0 <= r < |s.runs| && after.runs[r].state.RunCreated? ==> s.runs[r].state.RunCreated?
    ensures Core(after) && RunShapes(after)
  {
    forall a | 0 <= a < |after.attempts|
      ensures LinkedAttempt(after, a) && FundedAttempt(after, a)
      ensures NumberedAttempt(after, a) && SupersededFinished(after, a) && WithinRetryBound(after, a)
    {
      PointwiseKeepsAttempt(s, after, a);
    }
    forall w | 0 <= w < |after.works| ensures LinkedWork(after, w) {
      assert LinkedWork(s, w) && SameWorkIdentity(s.works[w], after.works[w]);
      if s.works[w].kind.AttemptWork? {
        assert SameAttemptIdentity(s.attempts[s.works[w].business], after.attempts[s.works[w].business]);
      }
    }
    forall t | 0 <= t < |after.trials|
      ensures LinkedTrial(after, t) && after.trials[t].run < |after.runs| && WithinOneOvershoot(after, t)
    {
      PointwiseKeepsTrial(s, after, t);
    }
    forall q | 0 <= q < |after.runs| ensures RunShape(after, q) {
      assert RunShape(s, q);
      var t :| 0 <= t < |s.trials| && s.trials[t].run == q;
      assert after.trials[t].run == q;
    }
  }

  // ---------------------------------------------------------------- cancelling a run

  lemma CancelRowsIsPointwise(s: Store, r: nat)
    requires Core(s)
    ensures PointwiseStep(s, CancelRows(s, r))
    ensures Coupled(CancelRows(s, r)) && Exclusive(CancelRows(s, r))
  {
    var after := CancelRows(s, r);
    forall a | 0 <= a < |s.attempts|
      ensures SameAttemptIdentity(s.attempts[a], after.attempts[a]) && CoupledAttempt(after, a)
    {
      assert LinkedAttempt(s, a) && CoupledAttempt(s, a) && FundedAttempt(s, a);
    }
    forall w | 0 <= w < |s.works| ensures SameWorkIdentity(s.works[w], after.works[w]) && OwnedRow(after, w) {
      assert OwnedRow(s, w);
    }
  }

  lemma CancelRowsKeepsCore(s: Store, r: nat)
    requires Inv(s)
    ensures Core(CancelRows(s, r)) && RunShapes(CancelRows(s, r))
  {
    CancelRowsIsPointwise(s, r);
    PointwiseKeepsCore(s, CancelRows(s, r));
  }

  lemma CancelRowsKeepsOtherRun(s: Store, r: nat, q: nat)
    requires Inv(s) && q < |s.runs| && q != r
    ensures RunOk(CancelRows(s, r), q)
  {
    var after := CancelRows(s, r);
    CancelRowsIsPointwise(s, r);
    assert RunOk(s, q);
    forall w | 0 <= w < |s.works|
      ensures (ItemOf(s, w, q) <==> ItemOf(after, w, q)) && (ItemOf(s, w, q) ==> after.works[w] == s.works[w])
    {
      if s.works[w].kind.AttemptWork? {
        assert LinkedWork(s, w);
        assert SameAttemptIdentity(s.attempts[s.works[w].business], after.attempts[s.works[w].business]);
      }
    }
    forall t | 0 <= t < |s.trials| && s.trials[t].run == q ensures BadSelection(s, t) <==> BadSelection(after, t) {
      assert LinkedTrial(s, t);
      if s.trials[t].selected.Some? { assert LinkedAttempt(s, s.trials[t].selected.value); }
    }
    SameViewSameVerdict(s, after, q);
  }

  /** Marking the run first makes no difference to its rows. */
  lemma RequestThenRows(s: Store, r: nat)
    requires r < |s.runs|
    ensures CancelRows(SetRunState(s, r, RunCancelRequested), r) == SetRunState(CancelRows(s, r), r, RunCancelRequested)
  {
    var rows := CancelRows(SetRunState(s, r, RunCancelRequested), r);
    assert rows.works == CancelRows(s, r).works;
    assert rows.attempts == CancelRows(s, r).attempts;
  }

  lemma CancelRunKeepsInv(s: Store, r: nat)
    requires Inv(s)
    ensures Inv(CancelRun(s, r).0)
  {
    if r < |s.runs| && CancelRun(s, r).0 != s {
      var rows := CancelRows(SetRunState(s, r, RunCancelRequested), r);
      RequestedRowsOk(s, r);
      SettleTellsTheTruth(rows, r);
      SettleKeepsTheRest(rows, r);
    }
  }

  /** After the request and the row changes everything holds but the run's own verdict. */
  lemma RequestedRowsOk(s: Store, r: nat)
    requires Inv(s) && r < |s.runs|
    ensures var rows := CancelRows(SetRunState(s, r, RunCancelRequested), r);
            Core(rows) && RunShapes(rows) && |rows.runs| == |s.runs| && rows.runs[r].state.RunCancelRequested?
            && forall q :: 0 <= q < |s.runs| && q != r ==> RunOk(rows, q)
  {
    RequestThenRows(s, r);
    RowsThenRequestOk(s, r);
  }

  lemma RowsThenRequestOk(s: Store, r: nat)
    requires Inv(s) && r < |s.runs|
    ensures var rows := SetRunState(CancelRows(s, r), r, RunCancelRequested);
            Core(rows) && RunShapes(rows) && |rows.runs| == |s.runs| && rows.runs[r].state.RunCancelRequested?
            && forall q :: 0 <= q < |s.runs| && q != r ==> RunOk(rows, q)
  {
    var cancelled := CancelRows(s, r);
    CancelRowsKeepsCore(s, r);
    RunStateKeepsCore(cancelled, r, RunCancelRequested);
    RunStateKeepsShapes(cancelled, r, RunCancelRequested);
    forall q | 0 <= q < |s.runs| && q != r ensures RunOk(SetRunState(cancelled, r, RunCancelRequested), q) {
      CancelRowsKeepsOtherRun(s, r, q);
      RunStateFrame(cancelled, r, RunCancelRequested, q);
    }
  }

  // ---------------------------------------------------------------- restart, creation, grades, turns

  lemma RestartKeepsCore(s: Store)
    requires Inv(s)
    ensures Core(Restart(s)) && RunShapes(Restart(s))
  {
    var after := Restart(s);
    forall a | 0 <= a < |s.attempts|
      ensures SameAttemptIdentity(s.attempts[a], after.attempts[a]) && CoupledAttempt(after, a)
    {
      assert LinkedAttempt(s, a) && CoupledAttempt(s, a);
    }
    forall w | 0 <= w < |s.works| ensures OwnedRow(after, w) { assert OwnedRow(s, w); }
    PointwiseKeepsCore(s, after);
  }

  lemma RestartKeepsRun(s: Store, r: nat)
    requires Inv(s) && r < |s.runs|
    ensures RunOk(Restart(s), r)
  {
    var after := Restart(s);
    assert RunOk(s, r);
    if RunInterrupted(s, r) {
      var w :| 0 <= w < |s.works| && ItemOf(s, w, r) && AwaitsReconciliation(s.works[w]);
      assert ItemOf(after, w, r) && after.works[w].state.Reconciling?;
    } else {
      SameViewSameVerdict(s, after, r);
    }
  }

  lemma CreateRunKeepsInv(s: Store, run: Run)
    requires Inv(s)
    ensures Inv(CreateRun(s, run).0)
  {
    var (after, reply) := CreateRun(s, run);
    if reply.Done? {
      var r := |s.runs|;
      forall a | 0 <= a < |after.attempts|
        ensures LinkedAttempt(after, a) && CoupledAttempt(after, a) && FundedAttempt(after, a)
        ensures NumberedAttempt(after, a) && SupersededFinished(after, a) && WithinRetryBound(after, a)
      {
        assert LinkedAttempt(s, a) && CoupledAttempt(s, a) && FundedAttempt(s, a);
        assert NumberedAttempt(s, a) && SupersededFinished(s, a) && WithinRetryBound(s, a);
        assert LinkedTrial(s, s.attempts[a].trial);
      }
      forall w | 0 <= w < |after.works| ensures LinkedWork(after, w) && OwnedRow(after, w) {
        assert LinkedWork(s, w) && OwnedRow(s, w);
      }
      forall t | 0 <= t < |after.trials|
        ensures LinkedTrial(after, t) && after.trials[t].run < |after.runs| && WithinOneOvershoot(after, t)
      {
        if t < |s.trials| {
          assert LinkedTrial(s, t) && WithinOneOvershoot(s, t);
        } else {
          forall a | 0 <= a < |s.attempts| ensures s.attempts[a].trial != t { assert LinkedAttempt(s, a); }
          NoRowsNoCount(s.attempts, t);
        }
      }
      forall q | 0 <= q < |after.runs| ensures RunOk(after, q) && RunShape(after, q) {
        CreateRunRun(s, run, q);
      }
    }
  }

  lemma CreateRunRun(s: Store, run: Run, q: nat)
    requires Inv(s) && PlanValid(run) && q <= |s.runs|
    ensures var after := CreateRun(s, run).0; RunOk(after, q) && RunShape(after, q)
  {
    var after := CreateRun(s, run).0;
    forall t | 0 <= t < |s.trials| ensures s.trials[t].run < |s.runs| { assert LinkedTrial(s, t); }
    forall w | 0 <= w < |s.works| && IsItem(after, w) ensures IsItem(s, w) {
      assert LinkedWork(s, w) && LinkedAttempt(s, s.works[w].business);
    }
    if q < |s.runs| {
      assert RunOk(s, q) && RunShape(s, q);
      var t :| 0 <= t < |s.trials| && s.trials[t].run == q;
      assert after.trials[t].run == q;
      CreateRunView(s, run, q);
    } else {
      assert after.trials[|s.trials|].run == q;
    }
  }

  lemma CreateRunView(s: Store, run: Run, q: nat)
    requires Inv(s) && PlanValid(run) && q < |s.runs|
    ensures RunOk(CreateRun(s, run).0, q)
  {
    var after := CreateRun(s, run).0;
    assert RunOk(s, q);
    forall w | 0 <= w < |s.works| ensures ItemOf(after, w, q) <==> ItemOf(s, w, q) {
      assert LinkedWork(s, w);
      if s.works[w].kind.AttemptWork? { assert LinkedAttempt(s, s.works[w].business); }
    }
    SameItemsSameStates(s, after, q);
    if HasBadSelection(s, q) {
      var t :| 0 <= t < |s.trials| && s.trials[t].run == q && BadSelection(s, t);
      assert after.trials[t] == s.trials[t] && BadSelection(after, t);
    }
    if HasBadSelection(after, q) {
      var t :| 0 <= t < |after.trials| && after.trials[t].run == q && BadSelection(after, t);
      assert after.trials[t] == s.trials[t] && BadSelection(s, t);
    }
  }

  lemma GradeKeepsInv(s: Store, w: nat, epoch: nat, version: nat, verdict: Verdict)
    requires Inv(s)
    ensures Inv(InsertGrade(s, w, epoch, version, verdict).0)
  {
    var after := InsertGrade(s, w, epoch, version, verdict).0;
    if after != s { MoreGradesKeepInv(s, after); }
  }

  /** Grade rows are only added. */
  lemma MoreGradesKeepInv(s: Store, after: Store)
    requires Inv(s) && after == s.(grades := after.grades) && s.grades <= after.grades
    ensures Inv(after)
  {
    MoreGradesKeepCore(s, after);
    forall a | 0 <= a < |s.attempts| ensures BadAttempt(s, a) <==> BadAttempt(after, a) { assert LinkedAttempt(s, a); }
    forall q | 0 <= q < |after.runs| ensures RunOk(after, q) && RunShape(after, q) {
      assert RunOk(s, q) && RunShape(s, q);
      var t :| 0 <= t < |s.trials| && s.trials[t].run == q;
      assert after.trials[t].run == q;
      SameViewSameVerdict(s, after, q);
    }
  }

  lemma MoreGradesKeepCore(s: Store, after: Store)
    requires Core(s) && after == s.(grades := after.grades) && s.grades <= after.grades
    ensures Core(after)
  {
    forall a | 0 <= a < |after.attempts|
      ensures LinkedAttempt(after, a) && CoupledAttempt(after, a) && FundedAttempt(after, a)
      ensures NumberedAttempt(after, a) && SupersededFinished(after, a) && WithinRetryBound(after, a)
    {
      assert LinkedAttempt(s, a) && CoupledAttempt(s, a) && FundedAttempt(s, a);
      assert NumberedAttempt(s, a) && SupersededFinished(s, a) && WithinRetryBound(s, a);
    }
    forall w | 0 <= w < |after.works| ensures LinkedWork(after, w) && OwnedRow(after, w) {
      assert LinkedWork(s, w) && OwnedRow(s, w);
    }
    forall t | 0 <= t < |after.trials|
      ensures LinkedTrial(after, t) && after.trials[t].run < |after.runs| && WithinOneOvershoot(after, t)
    {
      assert LinkedTrial(s, t) && WithinOneOvershoot(s, t);
    }
  }

  /** A change to the interactive engine's own items, which no attempt refers to. */
  predicate TurnStep(s: Store, after: Store) {
    after == s.(works := after.works) && |s.works| <= |after.works|
    && (forall w :: 0 <= w < |s.works| && s.works[w].kind.AttemptWork? ==> after.works[w] == s.works[w])
    && (forall w :: 0 <= w < |after.works| && (w >= |s.works| || s.works[w].kind.TurnWork?)
           ==> after.works[w].kind.TurnWork?)
    && (forall v, w :: (0 <= v < |after.works| && 0 <= w < |after.works| && after.works[v].state.Running?
                        && after.works[w].state.Running?) ==> v == w)
  }

  lemma TurnStepKeepsInv(s: Store, after: Store)
    requires Inv(s) && TurnStep(s, after)
    ensures Inv(after)
  {
    forall a | 0 <= a < |after.attempts|
      ensures LinkedAttempt(after, a) && CoupledAttempt(after, a) && FundedAttempt(after, a)
      ensures NumberedAttempt(after, a) && SupersededFinished(after, a) && WithinRetryBound(after, a)
    {
      assert LinkedAttempt(s, a) && CoupledAttempt(s, a) && FundedAttempt(s, a);
      assert NumberedAttempt(s, a) && SupersededFinished(s, a) && WithinRetryBound(s, a);
    }
    forall w | 0 <= w < |after.works| ensures LinkedWork(after, w) && OwnedRow(after, w) {
      assert w < |s.works| ==> LinkedWork(s, w) && OwnedRow(s, w);
    }
    forall t | 0 <= t < |after.trials|
      ensures LinkedTrial(after, t) && after.trials[t].run < |after.runs| && WithinOneOvershoot(after, t)
    {
      assert LinkedTrial(s, t) && WithinOneOvershoot(s, t);
    }
    forall q | 0 <= q < |after.runs| ensures RunOk(after, q) && RunShape(after, q) {
      assert RunOk(s, q) && RunShape(s, q);
      var t :| 0 <= t < |s.trials| && s.trials[t].run == q;
      assert after.trials[t].run == q;
      SameViewSameVerdict(s, after, q);
    }
  }

  lemma RestartKeepsInv(s: Store)
    requires Inv(s)
    ensures Inv(Restart(s))
  {
    RestartKeepsCore(s);
    forall r | 0 <= r < |s.runs| ensures RunOk(Restart(s), r) { RestartKeepsRun(s, r); }
  }

  // ---------------------------------------------------------------- every history

  lemma StepKeepsInv(s: Store, e: Event)
    requires Inv(s)
    ensures Inv(Step(s, e).0)
  {
    match e
    case ECreateRun(run) => CreateRunKeepsInv(s, run);
    case EStart(r) => StartRunKeepsInv(s, r);
    case ERetry(t) => RetryKeepsInv(s, t);
    case EClaim(w, expected, now, turnsBlocked) => ClaimKeepsInv(s, w, expected, now, turnsBlocked);
    case EHeartbeat(w, epoch, version, now) => HeartbeatKeepsInv(s, w, epoch, version, now);
    case EFinish(w, epoch, version, evidence, now) => FinishKeepsInv(s, w, epoch, version, evidence, now);
    case ECancel(r) => CancelRunKeepsInv(s, r);
    case EReconcile(w, expected, seen) => ReconcileKeepsInv(s, w, expected, seen);
    case EGrade(w, epoch, version, verdict) => GradeKeepsInv(s, w, epoch, version, verdict);
    case ENewTurn(turn) => TurnStepKeepsInv(s, Step(s, e).0);
    case EMoveTurn(w, state) => if Step(s, e).0 != s { TurnStepKeepsInv(s, Step(s, e).0); }
    case ERestart => RestartKeepsInv(s);
  }

  /** Whatever the interleaving of transactions, the invariant survives it. */
  lemma {:induction false} HistoryKeepsInv(s: Store, events: seq<Event>)
    requires Inv(s)
    ensures Inv(After(s, events))
    decreases |events|
  {
    if events != [] {
      StepKeepsInv(s, events[0]);
      HistoryKeepsInv(Step(s, events[0]).0, events[1..]);
    }
  }

  /** A store some engine history leads to from the empty database. */
  ghost predicate Reachable(s: Store) {
    exists events :: s == After(EMPTY, events)
  }

  lemma ReachableInv(s: Store)
    requires Reachable(s)
    ensures Inv(s)
  {
    var events :| s == After(EMPTY, events);
    HistoryKeepsInv(EMPTY, events);
  }
}
