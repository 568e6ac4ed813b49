/** What the scheduler guarantees over whole histories. */
module SchedulerTheorems {
  import opened Options
  import opened SchedulerModel
  import opened SchedulerInvariant
  import opened SchedulerPreservation
  import opened SchedulerReachable

  // ---------------------------------------------------------------- exclusion and coupling

  /** Two items of any kind never run at the same time, so the schema's single-active index never fires. */
  lemma AtMostOneRunning(s: Store, v: nat, w: nat)
    requires Reachable(s) && v < |s.works| && w < |s.works|
    requires s.works[v].state.Running? && s.works[w].state.Running?
    ensures v == w
  {
    ReachableInv(s);
  }

  /** A claim succeeds only on a free worker, and then its item is the one running. */
  lemma ClaimTakesTheWorker(s: Store, w: nat, expected: nat, now: int, turnsBlocked: bool)
    requires Reachable(s) && Claim(s, w, expected, now, turnsBlocked).1.Granted?
    ensures forall v :: 0 <= v < |s.works| ==> !s.works[v].state.Running? && !s.works[v].state.Reconciling?
    ensures var after := Claim(s, w, expected, now, turnsBlocked).0;
            w < |after.works| && forall v :: 0 <= v < |after.works| ==> (after.works[v].state.Running? <==> v == w)
  {
    ReachableInv(s);
    ClaimKeepsInv(s, w, expected, now, turnsBlocked);
  }

  /** The attempt half of `cleanup_blocked` never blocks a worker that the state test would let through. */
  lemma CleanupBlockedMeansReconciling(s: Store)
    requires Reachable(s) && CleanupBlocked(s)
    ensures exists w :: 0 <= w < |s.works| && s.works[w].state.Reconciling?
  {
    ReachableInv(s);
    BlockedMeansReconciling(s);
  }

  lemma BlockedMeansReconciling(s: Store)
    requires Inv(s)
    ensures CleanupBlocked(s) ==> exists w :: 0 <= w < |s.works| && s.works[w].state.Reconciling?
  {
    if CleanupBlocked(s) {
      var a :| 0 <= a < |s.attempts| && s.attempts[a].work < |s.works| && !s.attempts[a].cleanup.Clean?
               && var w := s.works[s.attempts[a].work];
               (w.state.Finished? || (w.owner.Some? && w.owner.value != s.epoch));
      var w := s.attempts[a].work;
      assert CoupledAttempt(s, a) && LinkedAttempt(s, a) && OwnedRow(s, w);
    }
  }

  /** Item state and attempt state determine each other. */
  lemma StatesAreCoupled(s: Store, a: nat)
    requires Reachable(s) && a < |s.attempts|
    ensures s.attempts[a].work < |s.works|
    ensures var (row, state) := (s.attempts[a], s.works[s.attempts[a].work].state);
            (state.Queued? <==> row.exec.ExecQueued? && row.cleanup.Pending?)
            && (state.Running? || state.CancelRequested? <==> row.exec.ExecRunning? && row.cleanup.Pending?)
            && (state.Reconciling? <==> row.cleanup.Residual? || row.cleanup.Unknown?)
            && (state.Finished? <==> row.cleanup.Clean?)
            && (row.exec.ExecCancelled? ==> row.cleanup.Clean?)
            && (row.cleanup.Clean? ==> !row.exec.ExecQueued? && !row.exec.ExecRunning?)
  {
    ReachableInv(s);
    assert CoupledAttempt(s, a) && LinkedAttempt(s, a);
  }

  // ---------------------------------------------------------------- items only move forward

  function Rank(state: WorkState): nat {
    match state
    case Queued => 0
    case Running => 1
    case CancelRequested => 2
    case Reconciling => 3
    case Finished => 4
  }

  predicate MovedForward(before: Work, after: Work) {
    after.kind == before.kind && after.version >= before.version
    && (before.kind.AttemptWork? ==> after.business == before.business && Rank(after.state) >= Rank(before.state))
  }

  lemma {:induction false} QueueTrialsAppends(s: Store, r: nat, n: nat)
    requires n <= |s.trials|
    ensures var after := QueueTrials(s, r, n);
            |after.works| >= |s.works| && after.works[..|s.works|] == s.works
            && after.epoch == s.epoch && after.runs == s.runs
            && forall w :: |s.works| <= w < |after.works| ==> after.works[w].state.Queued? && after.works[w].owner.None?
  {
    if n > 0 {
      QueueTrialsAppends(s, r, n - 1);
      var before := QueueTrials(s, r, n - 1);
      if before.trials[n - 1].run == r {
        assert QueueAttempt(before, n - 1).works[..|s.works|] == before.works[..|s.works|];
      }
    }
  }

  lemma StepMovesForward(s: Store, e: Event, w: nat)
    requires w < |s.works|
    ensures var after := Step(s, e).0;
            w < |after.works| && after.epoch >= s.epoch && MovedForward(s.works[w], after.works[w])
  {
    if e.EStart? { StartLeavesWork(s, e.run_, w); } else if OnItem(e) { ItemEventMovesForward(s, e, w); }
  }

  lemma StartLeavesWork(s: Store, r: nat, w: nat)
    requires w < |s.works|
    ensures var after := StartRun(s, r).0;
            w < |after.works| && after.works[w] == s.works[w] && after.epoch == s.epoch
  {
    QueueTrialsAppends(s, r, |s.trials|);
    assert QueueTrials(s, r, |s.trials|).works[..|s.works|][w] == s.works[w];
  }

  /** The event names one work item. */
  predicate OnItem(e: Event) { e.EClaim? || e.EHeartbeat? || e.EFinish? || e.EReconcile? }

  lemma ItemEventMovesForward(s: Store, e: Event, w: nat)
    requires w < |s.works| && OnItem(e)
    ensures var after := Step(s, e).0;
            w < |after.works| && after.epoch >= s.epoch && MovedForward(s.works[w], after.works[w])
  {
  }

  // ---------------------------------------------------------------- the claim token

  predicate Uses(e: Event, w: nat, epoch: nat, version: nat) {
    e.EFinish? && e.work == w && e.epoch == epoch && e.version == version
  }

  /** Some finish with this token succeeds along the way. */
  predicate Spends(s: Store, events: seq<Event>, w: nat, epoch: nat, version: nat)
    decreases |events|
  {
    events != []
    && ((Uses(events[0], w, epoch, version) && Step(s, events[0]).1.Done?)
        || Spends(Step(s, events[0]).0, events[1..], w, epoch, version))
  }

  predicate Restarts(events: seq<Event>) {
    exists i :: 0 <= i < |events| && events[i].ERestart?
  }

  /** The token can never be honoured again. */
  predicate Expired(s: Store, w: nat, epoch: nat, version: nat) {
    w < |s.works| && (s.epoch > epoch || s.works[w].version > version)
  }

  lemma ExpiredStays(s: Store, e: Event, w: nat, epoch: nat, version: nat)
    requires Expired(s, w, epoch, version)
    ensures Expired(Step(s, e).0, w, epoch, version) && !(Uses(e, w, epoch, version) && Step(s, e).1.Done?)
    ensures e == EHeartbeat(w, epoch, version, if e.EHeartbeat? then e.now else 0) ==> Step(s, e).1.Refused?
  {
    StepMovesForward(s, e, w);
  }

  /** Heartbeats, cancels and everything that happens to other items leave the owner's token alone. */
  lemma TokenSurvivesStep(s: Store, e: Event, w: nat, epoch: nat, version: nat)
    requires Inv(s) && Owned(s, w, epoch, version)
    ensures var (after, reply) := Step(s, e);
            if e.ERestart? || (Uses(e, w, epoch, version) && reply.Done?) then Expired(after, w, epoch, version)
            else Owned(after, w, epoch, version)
  {
    StepMovesForward(s, e, w);
    ItemStays(s, e, w);
    if e.EStart? { StartLeavesWork(s, e.run_, w); }
       else if OnItem(e) { TokenSurvivesItemEvent(s, e, w, epoch, version); }
  }

  /** An item is an item of an existing attempt after every step. */
  lemma ItemStays(s: Store, e: Event, w: nat)
    requires Inv(s) && IsItem(s, w)
    ensures IsItem(Step(s, e).0, w)
  {
    StepMovesForward(s, e, w);
    StepKeepsInv(s, e);
    assert LinkedWork(Step(s, e).0, w);
    if LinkedWork(Step(s, e).0, w) { assert LinkedAttempt(Step(s, e).0, s.works[w].business); }
  }

  lemma TokenSurvivesItemEvent(s: Store, e: Event, w: nat, epoch: nat, version: nat)
    requires Owned(s, w, epoch, version) && OnItem(e) && IsItem(Step(s, e).0, w)
    ensures var (after, reply) := Step(s, e);
            if Uses(e, w, epoch, version) && reply.Done? then Expired(after, w, epoch, version)
               else Owned(after, w, epoch, version)
  {
  }

  lemma {:induction false} ExpiredForever(s: Store, events: seq<Event>, w: nat, epoch: nat, version: nat)
    requires Expired(s, w, epoch, version)
    ensures Expired(After(s, events), w, epoch, version) && !Spends(s, events, w, epoch, version)
    decreases |events|
  {
    if events != [] {
      ExpiredStays(s, events[0], w, epoch, version);
      ExpiredForever(Step(s, events[0]).0, events[1..], w, epoch, version);
    }
  }

  /** A token is honoured exactly until a finish spends it or the engine restarts. */
  lemma {:induction false} TokenLife(s: Store, events: seq<Event>, w: nat, epoch: nat, version: nat)
    requires Inv(s) && Owned(s, w, epoch, version)
    ensures Owned(After(s, events), w, epoch, version)
            <==> !Spends(s, events, w, epoch, version) && !Restarts(events)
    decreases |events|
  {
    if events != [] {
      var e, rest := events[0], events[1..];
      var next := Step(s, e).0;
      TokenSurvivesStep(s, e, w, epoch, version);
      StepKeepsInv(s, e);
      assert Restarts(events) <==> e.ERestart? || Restarts(rest) by {
        if Restarts(rest) {
          var i :| 0 <= i < |rest| && rest[i].ERestart?;
          assert events[i + 1] == rest[i];
        }
        if Restarts(events) && !e.ERestart? {
          var i :| 0 <= i < |events| && events[i].ERestart?;
          assert rest[i - 1] == events[i];
        }
      }
      if Owned(next, w, epoch, version) {
        TokenLife(next, rest, w, epoch, version);
        assert !(e.ERestart? || (Uses(e, w, epoch, version) && Step(s, e).1.Done?)) by {
          assert Expired(next, w, epoch, version) ==> !Owned(next, w, epoch, version);
        }
      } else {
        ExpiredForever(next, rest, w, epoch, version);
      }
    }
  }

  /** A granted claim hands its caller a live token. */
  lemma ClaimGrantsToken(s: Store, w: nat, expected: nat, now: int, turnsBlocked: bool)
    requires Inv(s) && Claim(s, w, expected, now, turnsBlocked).1.Granted?
    ensures var (after, reply) := Claim(s, w, expected, now, turnsBlocked); Owned(after, w, s.epoch, reply.version)
  {
  }

  // ---------------------------------------------------------------- claimed once, finished once

  function Grants(s: Store, events: seq<Event>, w: nat): nat
    decreases |events|
  {
    if events == [] then 0
    else (if events[0].EClaim? && events[0].work == w && Step(s, events[0]).1.Granted? then 1 else 0)
         + Grants(Step(s, events[0]).0, events[1..], w)
  }

  function Finishes(s: Store, events: seq<Event>, w: nat): nat
    decreases |events|
  {
    if events == [] then 0
    else (if events[0].EFinish? && events[0].work == w && Step(s, events[0]).1.Done? then 1 else 0)
         + Finishes(Step(s, events[0]).0, events[1..], w)
  }

  predicate PastRank(s: Store, w: nat, rank: nat) {
    w < |s.works| && (s.works[w].kind.TurnWork? || Rank(s.works[w].state) >= rank)
  }

  /** No item is granted twice, by whomever and whatever happens in between. */
  lemma {:induction false} ClaimedAtMostOnce(s: Store, events: seq<Event>, w: nat)
    ensures Grants(s, events, w) <= 1
    ensures PastRank(s, w, 1) ==> Grants(s, events, w) == 0
    decreases |events|
  {
    if events != [] {
      if w < |s.works| { StepMovesForward(s, events[0], w); }
      ClaimedAtMostOnce(Step(s, events[0]).0, events[1..], w);
    }
  }

  /** A finish that names a grade succeeds only with a grade row of the same attempt in a consistent terminal state,
      which then is the attempt's. */
  lemma FinishedGradeIsItsOwn(s: Store, w: nat, epoch: nat, version: nat, evidence: Evidence, now: int)
    requires Inv(s) && Finish(s, w, epoch, version, evidence, now).1.Done? && evidence.grade.Some?
    ensures IsItem(s, w) && evidence.grade.value < |s.grades|
    ensures var (a, g) := (s.works[w].business, s.grades[evidence.grade.value]);
            var after := Finish(s, w, epoch, version, evidence, now).0;
            g.attempt == a && !g.state.Grading? && (g.state.Graded? ==> g.result.Some?)
            && (g.state.GraderError? ==> g.result.None?)
            && a < |after.attempts| && after.attempts[a].grade == evidence.grade
  {
  }

  /** No item is finished by its owner twice. */
  lemma {:induction false} FinishedAtMostOnce(s: Store, events: seq<Event>, w: nat)
    ensures Finishes(s, events, w) <= 1
    ensures PastRank(s, w, 3) ==> Finishes(s, events, w) == 0
    decreases |events|
  {
    if events != [] {
      if w < |s.works| { StepMovesForward(s, events[0], w); }
      FinishedAtMostOnce(Step(s, events[0]).0, events[1..], w);
    }
  }

  // ---------------------------------------------------------------- the driver

  /** The evidence `execute` records when an executor returns without any. */
  const NO_EVIDENCE := Evidence(ExecError, Unknown, None, Some(RunnerCrash), None)

  /** Whatever happened between the claim and the driver's last act, the item is not left owned. */
  lemma DriverReleasesItem(s: Store, w: nat, expected: nat, now: int, turnsBlocked: bool, events: seq<Event>,
                           later: int)
    requires Inv(s) && Claim(s, w, expected, now, turnsBlocked).1.Granted? && !Restarts(events)
    ensures var (claimed, grant) := Claim(s, w, expected, now, turnsBlocked);
            var returned := After(claimed, events);
            var last := Finish(returned, w, s.epoch, grant.version, NO_EVIDENCE, later);
            Spends(claimed, events, w, s.epoch, grant.version) || (last.1.Done? && last.0.works[w].state.Reconciling?)
  {
    var (claimed, grant) := Claim(s, w, expected, now, turnsBlocked);
    var returned := After(claimed, events);
    ClaimKeepsInv(s, w, expected, now, turnsBlocked);
    ClaimGrantsToken(s, w, expected, now, turnsBlocked);
    TokenLife(claimed, events, w, s.epoch, grant.version);
    HistoryKeepsInv(claimed, events);
    if Owned(returned, w, s.epoch, grant.version) { LiveItemFacts(returned, w); }
  }

  // ---------------------------------------------------------------- wall budgets

  /** A trial's recorded time exceeds its wall budget by no more than the largest single overshoot among its attempts.
      */
  lemma OvershootsDoNotAddUp(s: Store, t: nat, largest: nat)
    requires Reachable(s) && t < |s.trials|
    requires forall a :: 0 <= a < |s.attempts| && s.attempts[a].trial == t ==> Overshoot(s.attempts[a]) <= largest
    ensures s.trials[t].run < |s.runs| && Spent(s.attempts, t) <= TrialWall(s, t) + largest
  {
    ReachableInv(s);
    assert WithinOneOvershoot(s, t);
  }

  /** Every grant is positive, within the attempt's budget, and together with the time already recorded within the
      trial's. */
  lemma GrantsAreFunded(s: Store, w: nat, expected: nat, now: int, turnsBlocked: bool)
    requires Reachable(s) && Claim(s, w, expected, now, turnsBlocked).1.Granted?
    ensures IsItem(s, w) && RunOf(s, w) < |s.runs|
    ensures var (run, t) := (s.runs[RunOf(s, w)], s.attempts[s.works[w].business].trial);
            var duration := Claim(s, w, expected, now, turnsBlocked).1.duration;
            0 < duration <= run.attemptWall * NANOSECONDS
            && Spent(s.attempts, t) + duration <= run.trialWall * NANOSECONDS
            && (duration == run.attemptWall * NANOSECONDS
                || Spent(s.attempts, t) + duration == run.trialWall * NANOSECONDS)
  {
  }

  // ---------------------------------------------------------------- settled runs

  predicate Settled(state: RunState) { state.RunCompleted? || state.RunFailed? || state.RunCancelled? }

  /** A settled run has only finished items; it is completed or failed by the quality of its selected attempts. */
  lemma SettledRunIsFinished(s: Store, r: nat)
    requires Reachable(s) && r < |s.runs|
    ensures Settled(s.runs[r].state) ==> AllFinished(s, r)
    ensures s.runs[r].state.RunCompleted? ==> !HasBadSelection(s, r)
    ensures s.runs[r].state.RunFailed? ==> HasBadSelection(s, r)
    ensures HasReconciling(s, r) ==> s.runs[r].state.RunIndeterminate?
    ensures s.runs[r].state.RunQueued? || s.runs[r].state.RunRunning? || s.runs[r].state.RunCancelRequested?
            ==> HasOpen(s, r)
  {
    ReachableInv(s);
    assert RunOk(s, r);
  }

  /** The event does not retry a trial of the run. */
  predicate NoRetryOf(s: Store, e: Event, r: nat) {
    e.ERetry? ==> !(e.trial < |s.trials| && s.trials[e.trial].run == r)
  }

  lemma {:induction false} QueueTrialsKeepsPlan(s: Store, r: nat, n: nat)
    requires n <= |s.trials|
    ensures forall t :: 0 <= t < |s.trials| ==> QueueTrials(s, r, n).trials[t].run == s.trials[t].run
  {
    if n > 0 { QueueTrialsKeepsPlan(s, r, n - 1); }
  }

  /** Which run a trial belongs to never changes, and no later trial joins an existing run. */
  lemma PlanIsFixed(s: Store, e: Event, r: nat)
    requires r < |s.runs|
    ensures var after := Step(s, e).0;
            |after.trials| >= |s.trials| && |after.runs| >= |s.runs|
            && (forall t :: 0 <= t < |s.trials| ==> after.trials[t].run == s.trials[t].run)
            && (forall t :: |s.trials| <= t < |after.trials| ==> after.trials[t].run != r)
  {
    if e.EStart? {
      QueueTrialsAppends(s, e.run_, |s.trials|);
      QueueTrialsKeepsPlan(s, e.run_, |s.trials|);
    }
  }

  lemma SettledSurvivesStep(s: Store, e: Event, r: nat)
    requires Inv(s) && r < |s.runs| && Settled(s.runs[r].state) && NoRetryOf(s, e, r)
    ensures var after := Step(s, e).0; r < |after.runs| && after.runs[r].state == s.runs[r].state
  {
    assert RunOk(s, r);
    if e.EStart? { QueueTrialsAppends(s, e.run_, |s.trials|); } else if OnItem(e) { SettledSurvivesItemEvent(s, e, r); }
  }

  lemma SettledSurvivesItemEvent(s: Store, e: Event, r: nat)
    requires Inv(s) && r < |s.runs| && Settled(s.runs[r].state) && OnItem(e)
    ensures var after := Step(s, e).0; r < |after.runs| && after.runs[r].state == s.runs[r].state
  {
    assert RunOk(s, r);
    if IsItem(s, e.work) { assert ItemOf(s, e.work, RunOf(s, e.work)); }
  }

  /** Until one of its trials is retried, a settled run keeps its state and every item of it stays finished. */
  lemma {:induction false} SettledUntilRetry(s: Store, events: seq<Event>, r: nat)
    requires Inv(s) && r < |s.runs| && Settled(s.runs[r].state)
    requires forall i :: 0 <= i < |events| ==> NoRetryOf(s, events[i], r)
    ensures var after := After(s, events);
            r < |after.runs| && after.runs[r].state == s.runs[r].state && AllFinished(after, r)
    decreases |events|
  {
    if events == [] {
      assert RunOk(s, r);
    } else {
      var next := Step(s, events[0]).0;
      StepKeepsInv(s, events[0]);
      SettledSurvivesStep(s, events[0], r);
      PlanIsFixed(s, events[0], r);
      forall i | 0 <= i < |events[1..]| ensures NoRetryOf(next, events[1..][i], r) {
        assert NoRetryOf(s, events[i + 1], r);
      }
      SettledUntilRetry(next, events[1..], r);
    }
  }

  // ---------------------------------------------------------------- what does not happen

  /** An indeterminate run none of whose items is owned or awaits reconciliation: only queued ones are left. */
  predicate Stranded(s: Store, r: nat) {
    r < |s.runs| && s.runs[r].state.RunIndeterminate?
    && forall w :: 0 <= w < |s.works| && ItemOf(s, w, r) ==> s.works[w].state.Queued? || s.works[w].state.Finished?
  }

  lemma StrandedKeepsState(s: Store, e: Event, r: nat)
    requires Inv(s) && Stranded(s, r) && e != ECancel(r)
    ensures var after := Step(s, e).0; r < |after.runs| && after.runs[r].state.RunIndeterminate?
    ensures forall w :: 0 <= w < |s.works| && ItemOf(s, w, r) ==>
              w < |Step(s, e).0.works| && Step(s, e).0.works[w].state == s.works[w].state
    ensures e.EClaim? && IsItem(s, e.work) && RunOf(s, e.work) == r ==> !Step(s, e).1.Granted?
  {
    if e.EStart? {
      StrandedSurvivesStart(s, e.run_, r);
    } else if OnItem(e) {
      if IsItem(s, e.work) && RunOf(s, e.work) == r { StrandedItemRefuses(s, e, r); } else { OtherItemLeaves(s, e, r); }
    } else {
      assert RunOk(s, r);
    }
  }

  lemma StrandedSurvivesStart(s: Store, started: nat, r: nat)
    requires r < |s.runs| && s.runs[r].state.RunIndeterminate?
    ensures var after := StartRun(s, started).0;
            r < |after.runs| && after.runs[r].state == s.runs[r].state && |s.works| <= |after.works|
            && forall w :: 0 <= w < |s.works| ==> after.works[w] == s.works[w]
  {
    QueueTrialsAppends(s, started, |s.trials|);
    forall w | 0 <= w < |s.works| ensures w < |StartRun(s, started).0.works|
                                          && StartRun(s, started).0.works[w] == s.works[w] {
      StartLeavesWork(s, started, w);
    }
  }

  /** No item of a stranded run is claimed, kept alive, finished or reconciled. */
  lemma StrandedItemRefuses(s: Store, e: Event, r: nat)
    requires Inv(s) && Stranded(s, r) && OnItem(e) && IsItem(s, e.work) && RunOf(s, e.work) == r
    ensures Step(s, e).0 == s && !Step(s, e).1.Granted?
  {
    assert ItemOf(s, e.work, r) && RunOk(s, r);
  }

  lemma OtherItemLeaves(s: Store, e: Event, r: nat)
    requires r < |s.runs| && OnItem(e) && !(IsItem(s, e.work) && RunOf(s, e.work) == r)
    ensures var after := Step(s, e).0; r < |after.runs| && after.runs[r].state == s.runs[r].state
    ensures forall w :: 0 <= w < |s.works| && ItemOf(s, w, r) ==>
              w < |Step(s, e).0.works| && Step(s, e).0.works[w].state == s.works[w].state
  {
  }

  lemma StrandedSurvivesStep(s: Store, e: Event, r: nat)
    requires Inv(s) && Stranded(s, r) && e != ECancel(r)
    ensures Stranded(Step(s, e).0, r)
  {
    var after := Step(s, e).0;
    StrandedKeepsState(s, e, r);
    forall w | 0 <= w < |after.works| && ItemOf(after, w, r)
      ensures after.works[w].state.Queued? || after.works[w].state.Finished?
    {
      ItemsOfStep(s, e, r, w);
    }
  }

  /** An item of an existing run after a step was the same item before, or has just been queued. */
  lemma ItemsOfStep(s: Store, e: Event, r: nat, w: nat)
    requires Inv(s) && r < |s.runs| && w < |Step(s, e).0.works| && ItemOf(Step(s, e).0, w, r)
    ensures if w < |s.works| then ItemOf(s, w, r) else Step(s, e).0.works[w].state.Queued?
  {
    if w < |s.works| { ItemWasItem(s, e, r, w); } else if e.EStart? { QueueTrialsAppends(s, e.run_, |s.trials|); }
  }

  lemma ItemWasItem(s: Store, e: Event, r: nat, w: nat)
    requires Inv(s) && r < |s.runs| && w < |s.works| && w < |Step(s, e).0.works| && ItemOf(Step(s, e).0, w, r)
    ensures ItemOf(s, w, r)
  {
    StepMovesForward(s, e, w);
    PlanIsFixed(s, e, r);
    assert LinkedWork(s, w);
    if s.works[w].kind.AttemptWork? {
      assert LinkedAttempt(s, s.works[w].business);
      AttemptsKeepTrial(s, e, s.works[w].business);
    }
  }

  lemma {:induction false} QueueTrialsAppendsAttempts(s: Store, r: nat, n: nat)
    requires n <= |s.trials|
    ensures var after := QueueTrials(s, r, n);
            |after.attempts| >= |s.attempts| && after.attempts[..|s.attempts|] == s.attempts
  {
    if n > 0 {
      QueueTrialsAppendsAttempts(s, r, n - 1);
      var before := QueueTrials(s, r, n - 1);
      if before.trials[n - 1].run == r {
        assert QueueAttempt(before, n - 1).attempts[..|s.attempts|] == before.attempts[..|s.attempts|];
      }
    }
  }

  lemma AttemptsKeepTrial(s: Store, e: Event, a: nat)
    requires a < |s.attempts|
    ensures a < |Step(s, e).0.attempts| && Step(s, e).0.attempts[a].trial == s.attempts[a].trial
            && Step(s, e).0.attempts[a].number == s.attempts[a].number
  {
    if e.EStart? {
      QueueTrialsAppendsAttempts(s, e.run_, |s.trials|);
      assert QueueTrials(s, e.run_, |s.trials|).attempts[..|s.attempts|][a] == s.attempts[a];
    }
  }

  /** A stranded run stays stranded, and none of its items is ever granted, until the run is cancelled. */
  lemma {:induction false} StrandedUntilCancel(s: Store, events: seq<Event>, r: nat)
    requires Inv(s) && Stranded(s, r)
    requires forall i :: 0 <= i < |events| ==> events[i] != ECancel(r)
    ensures Stranded(After(s, events), r)
    decreases |events|
  {
    if events != [] {
      StepKeepsInv(s, events[0]);
      StrandedSurvivesStep(s, events[0], r);
      StrandedUntilCancel(Step(s, events[0]).0, events[1..], r);
    }
  }
}
