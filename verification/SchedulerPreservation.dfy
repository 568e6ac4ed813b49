/** Each transaction keeps the store invariant, so every reachable store satisfies it. */
module SchedulerPreservation {
  import opened Options
  import opened SchedulerModel
  import opened SchedulerInvariant

  // ---------------------------------------------------------------- changing one item and its attempt

  /** `after` differs from `s` only in item `w` and its attempt, and in neither of their identities. */
  predicate RowStep(s: Store, after: Store, w: nat) {
    IsItem(s, w) && after.epoch == s.epoch && after.trials == s.trials && after.runs == s.runs
      && after.grades == s.grades
    && |after.works| == |s.works| && |after.attempts| == |s.attempts|
    && var a := s.works[w].business;
    after.works == s.works[w := after.works[w]] && after.attempts == s.attempts[a := after.attempts[a]]
    && after.works[w].kind == s.works[w].kind && after.works[w].business == a
    && after.attempts[a].trial == s.attempts[a].trial && after.attempts[a].number == s.attempts[a].number
    && after.attempts[a].work == s.attempts[a].work
  }

  lemma RowKeepsLinks(s: Store, after: Store, w: nat)
    requires RowStep(s, after, w) && Linked(s) && LinkedAttempt(after, s.works[w].business)
    ensures Linked(after)
  {
    forall a | 0 <= a < |after.attempts| ensures LinkedAttempt(after, a) { assert LinkedAttempt(s, a); }
    forall v | 0 <= v < |after.works| ensures LinkedWork(after, v) { assert LinkedWork(s, v); }
    forall t | 0 <= t < |after.trials| ensures LinkedTrial(after, t) { assert LinkedTrial(s, t); }
  }

  lemma RowKeepsCoupling(s: Store, after: Store, w: nat)
    requires RowStep(s, after, w) && Linked(s) && Coupled(s)
    requires Matches(after.works[w].state, after.attempts[s.works[w].business])
    ensures Coupled(after)
  {
    assert LinkedWork(s, w);
    forall a | 0 <= a < |after.attempts| ensures CoupledAttempt(after, a) {
      assert LinkedAttempt(s, a) && CoupledAttempt(s, a);
    }
  }

  lemma RowKeepsNumbers(s: Store, after: Store, w: nat)
    requires RowStep(s, after, w) && Linked(s) && Numbered(s) && !s.works[w].state.Finished?
    ensures Numbered(after)
  {
    assert LinkedWork(s, w);
    forall a | 0 <= a < |after.attempts|
      ensures NumberedAttempt(after, a) && SupersededFinished(after, a) && WithinRetryBound(after, a)
    {
      assert NumberedAttempt(s, a) && SupersededFinished(s, a) && WithinRetryBound(s, a) && LinkedAttempt(s, a);
      CountPointwise(s.attempts[..a], after.attempts[..a], s.attempts[a].trial);
    }
  }

  /** A row that was not running before, or whose time is recorded now, keeps every budget clause. */
  lemma RowKeepsFunds(s: Store, after: Store, w: nat)
    requires RowStep(s, after, w) && Linked(s) && Numbered(s) && Funded(s) && Coupled(s) && !s.works[w].state.Finished?
    requires var a := s.works[w].business;
             FundedAttempt(after, a) && Overshoot(s.attempts[a]) <= Overshoot(after.attempts[a])
             && WithinOneOvershoot(after, s.attempts[a].trial)
    ensures Funded(after)
  {
    var a := s.works[w].business;
    assert LinkedWork(s, w) && LinkedAttempt(s, a);
    forall b | 0 <= b < |after.attempts| ensures FundedAttempt(after, b) {
      assert FundedAttempt(s, b) && SupersededFinished(s, a) && SupersededFinished(s, b) && LinkedAttempt(s, b);
      assert CoupledAttempt(s, b) && CoupledAttempt(s, a);
      if b != a { SpentUpdate(s.attempts, a, after.attempts[a], s.attempts[b].trial); }
    }
    forall t | 0 <= t < |after.trials| ensures after.trials[t].run < |after.runs| && WithinOneOvershoot(after, t) {
      assert WithinOneOvershoot(s, t);
      if t != s.attempts[a].trial {
        SpentUpdate(s.attempts, a, after.attempts[a], t);
        if Spent(s.attempts, t) > TrialWall(s, t) {
          var b :| 0 <= b < |s.attempts| && s.attempts[b].trial == t
                   && Spent(s.attempts, t) <= TrialWall(s, t) + Overshoot(s.attempts[b]);
          assert after.attempts[b] == s.attempts[b];
        }
      }
    }
  }

  /** When recorded time does not change, the trial's budget clause carries over. */
  lemma RowKeepsOvershoot(s: Store, after: Store, w: nat)
    requires RowStep(s, after, w) && Linked(s) && Funded(s)
    requires var a := s.works[w].business;
             Elapsed(s.attempts[a]) == Elapsed(after.attempts[a])
             && Overshoot(s.attempts[a]) <= Overshoot(after.attempts[a])
    ensures var t := s.attempts[s.works[w].business].trial;
            Spent(after.attempts, t) == Spent(s.attempts, t) && WithinOneOvershoot(after, t)
  {
    var a := s.works[w].business;
    var t := s.attempts[a].trial;
    assert LinkedAttempt(s, a) && LinkedTrial(s, t) && WithinOneOvershoot(s, t);
    SpentUpdate(s.attempts, a, after.attempts[a], t);
    if Spent(s.attempts, t) > TrialWall(s, t) {
      var b :| 0 <= b < |s.attempts| && s.attempts[b].trial == t
               && Spent(s.attempts, t) <= TrialWall(s, t) + Overshoot(s.attempts[b]);
      assert after.attempts[b].trial == t && Overshoot(s.attempts[b]) <= Overshoot(after.attempts[b]);
    }
  }

  lemma RowKeepsShapes(s: Store, after: Store, w: nat)
    requires RowStep(s, after, w) && RunShapes(s)
    ensures RunShapes(after)
  {
    forall r | 0 <= r < |after.runs| ensures RunShape(after, r) {
      assert RunShape(s, r);
      var t :| 0 <= t < |s.trials| && s.trials[t].run == r;
      assert after.trials[t].run == r;
    }
  }

  // ---------------------------------------------------------------- what a run sees of the tables

  /** The items and selections of run `q` are the same in both stores. */
  predicate SameView(s: Store, after: Store, q: nat) {
    SameItems(s, after, q) && SameSelections(s, after, q)
  }

  predicate SameItems(s: Store, after: Store, q: nat) {
    |s.works| <= |after.works|
    && (forall w :: 0 <= w < |s.works| ==>
          (ItemOf(s, w, q) <==> ItemOf(after, w, q)) && (ItemOf(s, w, q) ==> after.works[w].state == s.works[w].state))
    && (forall w :: |s.works| <= w < |after.works| ==> !ItemOf(after, w, q))
  }

  predicate SameSelections(s: Store, after: Store, q: nat) {
    |s.trials| == |after.trials|
    && (forall t :: 0 <= t < |s.trials| ==>
          (after.trials[t].run == q <==> s.trials[t].run == q)
          && (s.trials[t].run == q ==> (BadSelection(s, t) <==> BadSelection(after, t))))
  }

  lemma SameItemsSameStates(s: Store, after: Store, q: nat)
    requires SameItems(s, after, q)
    ensures HasItems(s, q) <==> HasItems(after, q)
    ensures HasOpen(s, q) <==> HasOpen(after, q)
    ensures HasReconciling(s, q) <==> HasReconciling(after, q)
    ensures AllFinished(s, q) <==> AllFinished(after, q)
  {
    if HasItems(s, q) { var w :| 0 <= w < |s.works| && ItemOf(s, w, q); assert ItemOf(after, w, q); }
    if HasOpen(s, q) {
      var w :| 0 <= w < |s.works| && ItemOf(s, w, q) && Open(s.works[w].state);
      assert ItemOf(after, w, q) && Open(after.works[w].state);
    }
    if HasReconciling(s, q) {
      var w :| 0 <= w < |s.works| && ItemOf(s, w, q) && s.works[w].state.Reconciling?;
      assert ItemOf(after, w, q) && after.works[w].state.Reconciling?;
    }
  }

  lemma SameSelectionsSameVerdict(s: Store, after: Store, q: nat)
    requires SameSelections(s, after, q)
    ensures HasBadSelection(s, q) <==> HasBadSelection(after, q)
  {
    if HasBadSelection(s, q) {
      var t :| 0 <= t < |s.trials| && s.trials[t].run == q && BadSelection(s, t);
      assert BadSelection(after, t);
    }
    if HasBadSelection(after, q) {
      var t :| 0 <= t < |after.trials| && after.trials[t].run == q && BadSelection(after, t);
      assert BadSelection(s, t);
    }
  }

  /** A run whose view and state are the same is as right or wrong as before. */
  lemma SameViewSameVerdict(s: Store, after: Store, q: nat)
    requires SameView(s, after, q) && q < |s.runs| && q < |after.runs| && after.runs[q].state == s.runs[q].state
    ensures RunOk(s, q) <==> RunOk(after, q)
  {
    SameItemsSameStates(s, after, q);
    SameSelectionsSameVerdict(s, after, q);
  }

  /** The other runs do not notice. */
  lemma RowKeepsOtherRun(s: Store, after: Store, w: nat, r: nat)
    requires RowStep(s, after, w) && Linked(s) && r < |s.runs| && r != RunOf(s, w) && RunOk(s, r)
    ensures RunOk(after, r)
  {
    forall t | 0 <= t < |s.trials| && s.trials[t].run == r ensures BadSelection(s, t) <==> BadSelection(after, t) {
      assert LinkedTrial(s, t);
    }
    SameViewSameVerdict(s, after, r);
  }

  // ---------------------------------------------------------------- run states

  /** Changing a run's state touches nothing but that state. */
  lemma RunStateKeepsCore(s: Store, r: nat, state: RunState)
    requires Core(s)
    ensures Core(SetRunState(s, r, state))
  {
    var after := SetRunState(s, r, state);
    forall a | 0 <= a < |after.attempts|
      ensures LinkedAttempt(after, a) && CoupledAttempt(after, a) && FundedAttempt(after, a)
      ensures NumberedAttempt(after, a) && SupersededFinished(after, a) && WithinRetryBound(after, a)
    {
      assert LinkedAttempt(s, a) && CoupledAttempt(s, a) && FundedAttempt(s, a);
      assert NumberedAttempt(s, a) && SupersededFinished(s, a) && WithinRetryBound(s, a);
    }
    forall w | 0 <= w < |after.works| ensures LinkedWork(after, w) && OwnedRow(after, w) {
      assert LinkedWork(s, w) && OwnedRow(s, w);
    }
    forall t | 0 <= t < |after.trials|
      ensures LinkedTrial(after, t) && after.trials[t].run < |after.runs| && WithinOneOvershoot(after, t)
    {
      assert LinkedTrial(s, t) && WithinOneOvershoot(s, t);
    }
  }

  lemma RunStateFrame(s: Store, r: nat, state: RunState, q: nat)
    ensures HasItems(s, q) <==> HasItems(SetRunState(s, r, state), q)
    ensures HasOpen(s, q) <==> HasOpen(SetRunState(s, r, state), q)
    ensures HasReconciling(s, q) <==> HasReconciling(SetRunState(s, r, state), q)
    ensures AllFinished(s, q) <==> AllFinished(SetRunState(s, r, state), q)
    ensures HasBadSelection(s, q) <==> HasBadSelection(SetRunState(s, r, state), q)
  {
    var after := SetRunState(s, r, state);
    SameItemsSameStates(s, after, q);
    SameSelectionsSameVerdict(s, after, q);
  }

  lemma RunStateKeepsShapes(s: Store, r: nat, state: RunState)
    requires RunShapes(s) && (state.RunCreated? ==> r < |s.runs| && s.runs[r].state.RunCreated?)
    ensures RunShapes(SetRunState(s, r, state))
  {
    var after := SetRunState(s, r, state);
    forall q | 0 <= q < |after.runs| ensures RunShape(after, q) {
      assert RunShape(s, q);
      var t :| 0 <= t < |s.trials| && s.trials[t].run == q;
      assert after.trials[t].run == q;
    }
  }

  /** Settling a run that has started makes its state say the truth about its items. */
  lemma SettleTellsTheTruth(s: Store, r: nat)
    requires r < |s.runs|
    requires s.runs[r].state.RunQueued? || s.runs[r].state.RunRunning? || s.runs[r].state.RunCancelRequested?
             || s.runs[r].state.RunIndeterminate?
    requires HasItems(s, r) || s.runs[r].state.RunCancelRequested?
    ensures RunOk(SettleRun(s, r), r)
  {
    RunStateFrame(s, r, SettledState(s, r), r);
    if !HasReconciling(s, r) && !HasOpen(s, r) {
      forall w | 0 <= w < |s.works| && ItemOf(s, w, r) ensures s.works[w].state.Finished? {}
      assert AllFinished(s, r);
    }
  }

  lemma SettleKeepsTheRest(s: Store, r: nat)
    requires Core(s) && RunShapes(s) && r < |s.runs|
    requires forall q :: 0 <= q < |s.runs| && q != r ==> RunOk(s, q)
    ensures Core(SettleRun(s, r)) && RunShapes(SettleRun(s, r))
    ensures forall q :: 0 <= q < |s.runs| && q != r ==> RunOk(SettleRun(s, r), q)
  {
    RunStateKeepsCore(s, r, SettledState(s, r));
    RunStateKeepsShapes(s, r, SettledState(s, r));
    forall q | 0 <= q < |s.runs| && q != r ensures RunOk(SettleRun(s, r), q) {
      assert RunOk(s, q);
      RunStateFrame(s, r, SettledState(s, r), q);
    }
  }

  // ---------------------------------------------------------------- one item changes

  /** The selected attempt of a live item is the item's own attempt, so a live item's run has a selection. */
  lemma LiveItemFacts(s: Store, w: nat)
    requires Inv(s) && IsItem(s, w) && !s.works[w].state.Finished?
    ensures var a := s.works[w].business;
            LinkedAttempt(s, a) && CoupledAttempt(s, a) && FundedAttempt(s, a) && SupersededFinished(s, a)
            && s.attempts[a].work == w && LinkedTrial(s, s.attempts[a].trial) && RunOf(s, w) < |s.runs|
            && s.trials[s.attempts[a].trial].selected == Some(a)
    ensures ItemOf(s, w, RunOf(s, w)) && HasItems(s, RunOf(s, w)) && !AllFinished(s, RunOf(s, w))
    ensures var state := s.runs[RunOf(s, w)].state;
            state.RunQueued? || state.RunRunning? || state.RunCancelRequested? || state.RunIndeterminate?
  {
    var a := s.works[w].business;
    assert LinkedWork(s, w) && LinkedAttempt(s, a) && CoupledAttempt(s, a) && FundedAttempt(s, a);
    assert SupersededFinished(s, a) && LinkedTrial(s, s.attempts[a].trial);
    assert ItemOf(s, w, RunOf(s, w));
    assert RunOk(s, RunOf(s, w));
  }

  /** Ending or reconciling one live item, then settling its run, keeps the invariant. */
  lemma EndingKeepsInv(s: Store, after: Store, w: nat)
    requires Inv(s) && RowStep(s, after, w) && !s.works[w].state.Finished?
    requires after.works[w].state.Finished? || after.works[w].state.Reconciling?
    requires var a := s.works[w].business;
             LinkedAttempt(after, a) && Matches(after.works[w].state, after.attempts[a])
             && FundedAttempt(after, a) && Overshoot(s.attempts[a]) <= Overshoot(after.attempts[a])
             && WithinOneOvershoot(after, s.attempts[a].trial)
    ensures Inv(SettleRun(after, RunOf(s, w)))
  {
    var r := RunOf(s, w);
    LiveItemFacts(s, w);
    RowKeepsLinks(s, after, w);
    RowKeepsCoupling(s, after, w);
    RowKeepsNumbers(s, after, w);
    RowKeepsFunds(s, after, w);
    RowKeepsShapes(s, after, w);
    forall v | 0 <= v < |after.works| ensures OwnedRow(after, v) { assert OwnedRow(s, v); }
    forall q | 0 <= q < |after.runs| && q != r ensures RunOk(after, q) {
      assert RunOk(s, q);
      RowKeepsOtherRun(s, after, w, q);
    }
    assert ItemOf(after, w, r);
    SettleTellsTheTruth(after, r);
    SettleKeepsTheRest(after, r);
  }

  lemma CancelQueuedKeepsInv(s: Store, w: nat, outcome: AgentOutcome)
    requires Inv(s) && IsItem(s, w) && s.works[w].state.Queued?
    ensures Inv(SettleRun(CancelQueued(s, w, outcome), RunOf(s, w)))
  {
    var after := CancelQueued(s, w, outcome);
    LiveItemFacts(s, w);
    RowKeepsOvershoot(s, after, w);
    EndingKeepsInv(s, after, w);
  }

  lemma ReconcileKeepsInv(s: Store, w: nat, expected: nat, seen: Observation)
    requires Inv(s)
    ensures Inv(Reconcile(s, w, expected, seen).0)
  {
    if Reconcile(s, w, expected, seen).1.Done? {
      var after := Reconciled(s, w);
      LiveItemFacts(s, w);
      RowKeepsOvershoot(s, after, w);
      EndingKeepsInv(s, after, w);
    }
  }

  /** Recording a finish adds the elapsed time to the trial, and only its excess over the grant can break the budget. */
  lemma EndWorkFunds(s: Store, w: nat, e: Evidence, elapsed: nat)
    requires Inv(s) && IsItem(s, w) && (s.works[w].state.Running? || s.works[w].state.CancelRequested?)
    ensures var after := EndWork(s, w, e, elapsed);
            var a := s.works[w].business;
            s.attempts[a].trial < |after.trials| && after.trials[s.attempts[a].trial].run < |after.runs|
            && WithinOneOvershoot(after, s.attempts[a].trial)
               && Overshoot(s.attempts[a]) <= Overshoot(after.attempts[a])
  {
    var after := EndWork(s, w, e, elapsed);
    var a := s.works[w].business;
    var t := s.attempts[a].trial;
    LiveItemFacts(s, w);
    SpentUpdate(s.attempts, a, after.attempts[a], t);
    assert Spent(after.attempts, t) == Spent(s.attempts, t) + elapsed;
    assert after.attempts[a].trial == t;
    if elapsed > s.attempts[a].grant.value {
      assert Spent(after.attempts, t) <= TrialWall(after, t) + Overshoot(after.attempts[a]);
    }
  }

  lemma FinishKeepsInv(s: Store, w: nat, epoch: nat, version: nat, evidence: Evidence, now: int)
    requires Inv(s)
    ensures Inv(Finish(s, w, epoch, version, evidence, now).0)
  {
    if Finish(s, w, epoch, version, evidence, now).1.Done? {
      var e, a := Normalized(evidence), s.works[w].business;
      var elapsed := Max(0, now - s.attempts[a].start.value);
      var after := EndWork(s, w, e, elapsed);
      LiveItemFacts(s, w);
      EndWorkFunds(s, w, e, elapsed);
      assert !after.attempts[a].exec.ExecRunning?;
      EndingKeepsInv(s, after, w);
    }
  }

  lemma HeartbeatKeepsInv(s: Store, w: nat, epoch: nat, version: nat, now: int)
    requires Inv(s)
    ensures Inv(Heartbeat(s, w, epoch, version, now).0)
  {
    if Owned(s, w, epoch, version) {
      var after := Heartbeat(s, w, epoch, version, now).0;
      LiveItemFacts(s, w);
      RowKeepsLinks(s, after, w);
      RowKeepsCoupling(s, after, w);
      RowKeepsNumbers(s, after, w);
      RowKeepsOvershoot(s, after, w);
      RowKeepsFunds(s, after, w);
      RowKeepsShapes(s, after, w);
      forall v | 0 <= v < |after.works| ensures OwnedRow(after, v) { assert OwnedRow(s, v); }
      forall r | 0 <= r < |after.runs| ensures RunOk(after, r) {
        assert RunOk(s, r);
        if r == RunOf(s, w) { LiveRunStaysOpen(s, after, w); } else { RowKeepsOtherRun(s, after, w, r); }
      }
    }
  }

  /** A run whose item changes only within the open states keeps an open item and gains no reconciling one. */
  lemma LiveRunStaysOpen(s: Store, after: Store, w: nat)
    requires Inv(s) && RowStep(s, after, w) && !s.works[w].state.Finished?
    requires Open(s.works[w].state) && Open(after.works[w].state)
    ensures RunOk(after, RunOf(s, w))
  {
    var r := RunOf(s, w);
    LiveItemFacts(s, w);
    assert RunOk(s, r);
    assert ItemOf(after, w, r);
    assert HasOpen(after, r);
    if HasReconciling(after, r) {
      var v :| 0 <= v < |after.works| && ItemOf(after, v, r) && after.works[v].state.Reconciling?;
      assert ItemOf(s, v, r) && s.works[v].state.Reconciling?;
    }
  }

  lemma ClaimKeepsInv(s: Store, w: nat, expected: nat, now: int, turnsBlocked: bool)
    requires Inv(s)
    ensures Inv(Claim(s, w, expected, now, turnsBlocked).0)
  {
    var (after, reply) := Claim(s, w, expected, now, turnsBlocked);
    if reply.Exhausted? {
      CancelQueuedKeepsInv(s, w, BudgetExhausted);
    } else if reply.Granted? {
      StartKeepsInv(s, w, now, reply.duration);
    }
  }

  lemma StartKeepsInv(s: Store, w: nat, now: int, duration: int)
    requires Inv(s) && IsItem(s, w) && s.works[w].state.Queued? && !WorkerTaken(s) && RunOf(s, w) < |s.runs|
    requires s.runs[RunOf(s, w)].state.RunQueued? || s.runs[RunOf(s, w)].state.RunRunning?
    requires 0 < duration == Grant(s.runs[RunOf(s, w)], Spent(s.attempts, s.attempts[s.works[w].business].trial))
    ensures Inv(SetRunState(StartWork(s, w, now, duration), RunOf(s, w), RunRunning))
  {
    var after, r, a := StartWork(s, w, now, duration), RunOf(s, w), s.works[w].business;
    LiveItemFacts(s, w);
    RowKeepsLinks(s, after, w);
    RowKeepsCoupling(s, after, w);
    RowKeepsNumbers(s, after, w);
    RowKeepsOvershoot(s, after, w);
    RowKeepsFunds(s, after, w);
    RowKeepsShapes(s, after, w);
    forall v | 0 <= v < |after.works| ensures OwnedRow(after, v) { assert OwnedRow(s, v); }
    assert Core(after);
    RunStateKeepsCore(after, r, RunRunning);
    RunStateKeepsShapes(after, r, RunRunning);
    forall q | 0 <= q < |after.runs| ensures RunOk(SetRunState(after, r, RunRunning), q) {
      assert RunOk(s, q);
      RunStateFrame(after, r, RunRunning, q);
      if q == r { LiveRunStaysOpen(s, after, w); } else { RowKeepsOtherRun(s, after, w, q); }
    }
  }
}
