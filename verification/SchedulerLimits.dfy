/** Where the scheduler does less than one might expect: the exact conditions, and histories that reach each case. */
module SchedulerLimits {
  import opened Options
  import opened SchedulerModel
  import opened SchedulerInvariant
  import opened SchedulerPreservation
  import opened SchedulerReachable
  import opened SchedulerTheorems

  // ---------------------------------------------------------------- who holds the worker

  /** Everything a claim asks for; a cancel-requested item plays no part in it. */
  predicate MayBeGranted(s: Store, w: nat, expected: nat, turnsBlocked: bool) {
    !turnsBlocked && !WorkerTaken(s) && IsItem(s, w) && RunOf(s, w) < |s.runs|
    && s.works[w].state.Queued? && s.works[w].version == expected
    && (s.runs[RunOf(s, w)].state.RunQueued? || s.runs[RunOf(s, w)].state.RunRunning?)
    && Grant(s.runs[RunOf(s, w)], Spent(s.attempts, s.attempts[s.works[w].business].trial)) > 0
  }

  /** A claim is granted exactly when the worker is free of running and reconciling items, and the item is current,
      queued in a live run and funded. */
  lemma GrantedExactlyWhen(s: Store, w: nat, expected: nat, now: int, turnsBlocked: bool)
    requires Inv(s)
    ensures Claim(s, w, expected, now, turnsBlocked).1.Granted? <==> MayBeGranted(s, w, expected, turnsBlocked)
  {
    BlockedMeansReconciling(s);
  }

  /** Beside a cancelled item that has not stopped, another item is granted exactly when it would be granted anyway;
      then both are under way. */
  lemma CancelRequestedDoesNotHoldTheWorker(s: Store, v: nat, w: nat, expected: nat, now: int, turnsBlocked: bool)
    requires Inv(s) && v < |s.works| && s.works[v].state.CancelRequested?
    ensures var (after, reply) := Claim(s, w, expected, now, turnsBlocked);
            (reply.Granted? <==> MayBeGranted(s, w, expected, turnsBlocked))
            && (reply.Granted? ==> after.works[v].state.CancelRequested? && after.works[w].state.Running?)
  {
    GrantedExactlyWhen(s, w, expected, now, turnsBlocked);
  }

  // ---------------------------------------------------------------- reconciliation

  /** Every other item of the run has finished. */
  predicate OthersFinished(s: Store, r: nat, w: nat) {
    forall v :: 0 <= v < |s.works| && ItemOf(s, v, r) && v != w ==> s.works[v].state.Finished?
  }

  /** A confirmed reconciliation settles the run exactly when every other item of it has finished. */
  lemma ReconcileSettlesExactlyWhen(s: Store, w: nat, expected: nat, seen: Observation)
    requires Inv(s) && Reconcile(s, w, expected, seen).1.Done?
    ensures var r := RunOf(s, w);
            r < |s.runs| && (Settled(Reconcile(s, w, expected, seen).0.runs[r].state) <==> OthersFinished(s, r, w))
  {
    var r, after := RunOf(s, w), Reconciled(s, w);
    LiveItemFacts(s, w);
    assert RunOk(s, r) && ItemOf(s, w, r) && HasReconciling(s, r);
    assert s.runs[r].state.RunIndeterminate? && after.runs == s.runs;
    SameItemsAfterReconciling(s, w, r);
    if OthersFinished(s, r, w) {
      assert ItemOf(after, w, r);
      assert !HasReconciling(after, r) && !HasOpen(after, r);
    } else {
      var v :| 0 <= v < |s.works| && ItemOf(s, v, r) && v != w && !s.works[v].state.Finished?;
      assert ItemOf(after, v, r) && after.works[v] == s.works[v];
    }
  }

  lemma SameItemsAfterReconciling(s: Store, w: nat, r: nat)
    requires IsItem(s, w)
    ensures var after := Reconciled(s, w);
            |after.works| == |s.works|
            && forall v :: 0 <= v < |s.works| ==>
                 (ItemOf(after, v, r) <==> ItemOf(s, v, r)) && (v != w ==> after.works[v] == s.works[v])
  {
  }

  /** Cancelling a stranded run ends it: its queued items finish and it settles as cancelled. */
  lemma CancelEndsStranding(s: Store, r: nat)
    requires Inv(s) && Stranded(s, r)
    ensures var after := CancelRun(s, r).0;
            r < |after.runs| && after.runs[r].state.RunCancelled?
            && forall w :: 0 <= w < |s.works| && ItemOf(s, w, r) ==> w < |after.works| && after.works[w].state.Finished?
  {
    var asked := SetRunState(s, r, RunCancelRequested);
    var rows := CancelRows(asked, r);
    CancelRowsIdentity(s, r);
    assert rows.runs[r].state.RunCancelRequested?;
    forall w | 0 <= w < |rows.works| && ItemOf(rows, w, r) ensures rows.works[w].state.Finished? {
      assert ItemOf(s, w, r) && ItemOf(asked, w, r);
    }
  }

  lemma CancelRowsIdentity(s: Store, r: nat)
    requires Inv(s) && r < |s.runs|
    ensures var rows := CancelRows(SetRunState(s, r, RunCancelRequested), r);
            |rows.works| == |s.works| && forall w :: 0 <= w < |s.works| ==> (ItemOf(rows, w, r) <==> ItemOf(s, w, r))
  {
    var asked := SetRunState(s, r, RunCancelRequested);
    var rows := CancelRows(asked, r);
    assert forall a :: 0 <= a < |s.attempts| ==> rows.attempts[a].trial == s.attempts[a].trial;
  }

  // ---------------------------------------------------------------- accepted cancels

  /** Along the history some item of the run reconciles. */
  predicate PassesReconciling(s: Store, events: seq<Event>, r: nat)
    decreases |events|
  {
    HasReconciling(s, r) || (events != [] && PassesReconciling(Step(s, events[0]).0, events[1..], r))
  }

  /** The history ends where the run settles, and not before. */
  predicate SettlesAtEnd(s: Store, events: seq<Event>, r: nat)
    decreases |events|
  {
    r < |s.runs|
    && if events == [] then Settled(s.runs[r].state)
       else !Settled(s.runs[r].state) && SettlesAtEnd(Step(s, events[0]).0, events[1..], r)
  }

  predicate NoCancelOf(events: seq<Event>, r: nat) { forall i :: 0 <= i < |events| ==> events[i] != ECancel(r) }

  /** A run asked to stop either still waits, or has stopped, or an item of it reconciles. */
  lemma AskedStep(s: Store, e: Event, r: nat)
    requires Inv(s) && r < |s.runs| && s.runs[r].state.RunCancelRequested? && e != ECancel(r)
    ensures var after := Step(s, e).0;
            r < |after.runs|
            && (after.runs[r].state.RunCancelRequested? || after.runs[r].state.RunCancelled?
                || (after.runs[r].state.RunIndeterminate? && HasReconciling(after, r)))
  {
    StepKeepsInv(s, e);
    assert RunOk(s, r);
    if e.EStart? {
      QueueTrialsAppends(s, e.run_, |s.trials|);
    } else if OnItem(e) {
      AskedItemEvent(s, e, r);
    } else if e.ERestart? {
      AskedRestart(s, r);
    } else if e.ECancel? {
      OtherRunCancelled(s, e.run_, r);
    }
  }

  lemma AskedItemEvent(s: Store, e: Event, r: nat)
    requires Inv(s) && r < |s.runs| && s.runs[r].state.RunCancelRequested? && OnItem(e)
    ensures var after := Step(s, e).0;
            r < |after.runs|
            && (after.runs[r].state.RunCancelRequested? || after.runs[r].state.RunCancelled?
                || (after.runs[r].state.RunIndeterminate? && HasReconciling(after, r)))
  {
  }

  lemma AskedRestart(s: Store, r: nat)
    requires Inv(s) && r < |s.runs| && s.runs[r].state.RunCancelRequested?
    ensures var after := Restart(s);
            after.runs[r].state.RunCancelRequested? || (after.runs[r].state.RunIndeterminate?
                                                        && HasReconciling(after, r))
  {
    if RunInterrupted(s, r) {
      var w :| 0 <= w < |s.works| && ItemOf(s, w, r) && AwaitsReconciliation(s.works[w]);
      assert ItemOf(Restart(s), w, r) && Restart(s).works[w].state.Reconciling?;
    }
  }

  lemma OtherRunCancelled(s: Store, q: nat, r: nat)
    requires r < |s.runs| && q != r
    ensures CancelRun(s, q).0.runs[r] == s.runs[r]
  {
  }

  /** An indeterminate run never settles as cancelled without a further cancel. */
  lemma IndeterminateStep(s: Store, e: Event, r: nat)
    requires Inv(s) && r < |s.runs| && s.runs[r].state.RunIndeterminate? && e != ECancel(r)
    ensures var after := Step(s, e).0;
            r < |after.runs| && (after.runs[r].state.RunIndeterminate? || after.runs[r].state.RunCompleted?
                                 || after.runs[r].state.RunFailed?)
  {
    if e.EStart? {
      QueueTrialsAppends(s, e.run_, |s.trials|);
    } else if OnItem(e) {
      IndeterminateItemEvent(s, e, r);
    } else if e.ECancel? {
      OtherRunCancelled(s, e.run_, r);
    }
  }

  lemma IndeterminateItemEvent(s: Store, e: Event, r: nat)
    requires Inv(s) && r < |s.runs| && s.runs[r].state.RunIndeterminate? && OnItem(e)
    ensures var after := Step(s, e).0;
            r < |after.runs| && (after.runs[r].state.RunIndeterminate? || after.runs[r].state.RunCompleted?
                                 || after.runs[r].state.RunFailed?)
  {
  }

  lemma {:induction false} IndeterminateForgets(s: Store, events: seq<Event>, r: nat)
    requires Inv(s) && r < |s.runs| && NoCancelOf(events, r) && SettlesAtEnd(s, events, r)
    requires s.runs[r].state.RunIndeterminate? || s.runs[r].state.RunCompleted? || s.runs[r].state.RunFailed?
    ensures var after := After(s, events); r < |after.runs| && !after.runs[r].state.RunCancelled?
    decreases |events|
  {
    if events != [] {
      StepKeepsInv(s, events[0]);
      IndeterminateStep(s, events[0], r);
      IndeterminateForgets(Step(s, events[0]).0, events[1..], r);
    }
  }

  lemma {:induction false} AskedHonoured(s: Store, events: seq<Event>, r: nat)
    requires Inv(s) && r < |s.runs| && NoCancelOf(events, r) && SettlesAtEnd(s, events, r)
    requires s.runs[r].state.RunCancelRequested? || s.runs[r].state.RunCancelled?
             || (s.runs[r].state.RunIndeterminate? && HasReconciling(s, r))
    ensures var after := After(s, events);
            r < |after.runs| && (after.runs[r].state.RunCancelled? <==> !PassesReconciling(s, events, r))
    decreases |events|
  {
    assert RunOk(s, r);
    if s.runs[r].state.RunIndeterminate? {
      IndeterminateForgets(s, events, r);
    } else if events != [] {
      StepKeepsInv(s, events[0]);
      AskedStep(s, events[0], r);
      AskedHonoured(Step(s, events[0]).0, events[1..], r);
    }
  }

  /** What an accepted cancel leaves: a run that waits, has stopped, or has an item to reconcile. */
  lemma CancelAsks(s: Store, r: nat)
    requires Inv(s) && r < |s.runs| && !Settled(s.runs[r].state)
    ensures var asked := CancelRun(s, r).0;
            Inv(asked) && r < |asked.runs|
            && (asked.runs[r].state.RunCancelRequested? || asked.runs[r].state.RunCancelled?
                || (asked.runs[r].state.RunIndeterminate? && HasReconciling(asked, r)))
  {
    CancelRunKeepsInv(s, r);
    var rows := CancelRows(SetRunState(s, r, RunCancelRequested), r);
    RunStateFrame(rows, r, SettledState(rows, r), r);
  }

  /** After an accepted cancel, and without another, the run settles as cancelled exactly when no item of it passes
      through reconciling before it settles. */
  lemma CancelHonouredExactlyWhen(s: Store, events: seq<Event>, r: nat)
    requires Inv(s) && r < |s.runs| && !Settled(s.runs[r].state) && NoCancelOf(events, r)
    requires SettlesAtEnd(CancelRun(s, r).0, events, r)
    ensures var (asked, after) := (CancelRun(s, r).0, After(CancelRun(s, r).0, events));
            r < |after.runs| && (after.runs[r].state.RunCancelled? <==> !PassesReconciling(asked, events, r))
  {
    CancelAsks(s, r);
    AskedHonoured(CancelRun(s, r).0, events, r);
  }

  // ---------------------------------------------------------------- histories that reach each case

  lemma {:induction false} AfterOne(s: Store, events: seq<Event>, e: Event)
    ensures After(s, events + [e]) == Step(After(s, events), e).0
    decreases |events|
  {
    if events == [] {
      assert [e][1..] == [] && events + [e] == [e];
    } else {
      assert (events + [e])[0] == events[0] && (events + [e])[1..] == events[1..] + [e];
      AfterOne(Step(s, events[0]).0, events[1..], e);
    }
  }
}
