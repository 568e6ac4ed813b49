/** What each transaction writes, row by row, when it is accepted, and how the recorded time adds up over a history. */
module SchedulerLedger {
  import opened Options
  import opened SchedulerModel
  import opened SchedulerInvariant
  import opened SchedulerPreservation
  import opened SchedulerReachable
  import opened SchedulerTheorems

  // ---------------------------------------------------------------- one item on its own

  /** A work item and its attempt, read together. */
  datatype Item = Item(work: Work, attempt: Attempt)

  function ItemAt(s: Store, w: nat): Item
    requires IsItem(s, w)
  {
    Item(s.works[w], s.attempts[s.works[w].business])
  }

  predicate Live(state: WorkState) { state.Running? || state.CancelRequested? }

  function Measured(start: Option<int>, now: int): nat {
    if start.Some? && now > start.value then now - start.value else 0
  }

  /** An item that ends without ever having run. */
  function NeverRan(x: Item, outcome: AgentOutcome): Item {
    Item(Work(x.work.kind, x.work.business, Finished, x.work.owner, x.work.version + 1),
         x.attempt.(exec := ExecCancelled, cleanup := Clean, elapsed := Some(0), outcome := Some(outcome)))
  }

  /** What its owner's evidence makes of an item: an unclean end awaits reconciliation, and an unclean cancellation is
      kept as a crash of unknown outcome. */
  function Ended(x: Item, e: Evidence, now: int): Item {
    var crashed := e.exec.ExecCancelled? && !e.cleanup.Clean?;
    Item(Work(x.work.kind, x.work.business, if e.cleanup.Clean? then Finished else Reconciling, x.work.owner,
              x.work.version + 1),
         Attempt(x.attempt.trial, x.attempt.number, if crashed then ExecError else e.exec,
                 if crashed then Some(RunnerCrash) else e.error, e.cleanup, x.attempt.work, x.attempt.start,
                 Some(Measured(x.attempt.start, now)), x.attempt.grant, x.attempt.heartbeat,
                 if crashed then Some(Indeterminate) else e.outcome, e.grade))
  }

  /** The automaton of a single item: what an answered event does to it, whatever the rest of the store holds. */
  function Next(x: Item, w: nat, run: nat, epoch: nat, e: Event, reply: Reply): Item {
    match e
    case EClaim(v, _, now, _) =>
      if v != w then x
      else if reply.Granted? then
        Item(Work(x.work.kind, x.work.business, Running, Some(epoch), x.work.version + 1),
             x.attempt.(exec := ExecRunning, start := Some(now), heartbeat := Some(now),
                        grant := Some(reply.duration)))
      else if reply.Exhausted? then NeverRan(x, BudgetExhausted) else x
    case EHeartbeat(v, _, _, now) =>
      if v == w && reply.Done? then x.(attempt := x.attempt.(heartbeat := Some(now))) else x
    case EFinish(v, _, _, evidence, now) => if v == w && reply.Done? then Ended(x, evidence, now) else x
    case EReconcile(v, _, _) =>
      if v == w && reply.Done? then
        Item(x.work.(state := Finished, version := x.work.version + 1),
             x.attempt.(exec := ExecError, error := Some(RunnerCrash), cleanup := Clean,
                        outcome := Some(Indeterminate)))
      else x
    case ECancel(r) =>
      if r != run then x
      else if x.work.state.Queued? then NeverRan(x, AgentCancelled)
      else if x.work.state.Running? then x.(work := x.work.(state := CancelRequested)) else x
    case ERestart =>
      if Live(x.work.state) then
        Item(x.work.(state := Reconciling, version := x.work.version + 1), x.attempt.(cleanup := Unknown))
      else if x.work.state.Reconciling? then x.(attempt := x.attempt.(cleanup := Unknown)) else x
    case _ => x
  }

  /** Every step moves every item as its own automaton does: nothing else in the store touches its two rows. */
  lemma StepMovesItem(s: Store, e: Event, w: nat)
    requires Inv(s) && IsItem(s, w)
    ensures var (after, reply) := Step(s, e);
            IsItem(after, w) && ItemAt(after, w) == Next(ItemAt(s, w), w, RunOf(s, w), s.epoch, e, reply)
  {
    ItemStays(s, e, w);
    var a := s.works[w].business;
    assert LinkedWork(s, w) && LinkedAttempt(s, a);
    if e.EStart? {
      StartLeavesWork(s, e.run_, w);
      StartLeavesAttempt(s, e.run_, a);
    } else if e.EClaim? {
      ClaimMovesItem(s, e, w);
    } else if e.EHeartbeat? {
      HeartbeatMovesItem(s, e, w);
    } else if e.EFinish? {
      FinishMovesItem(s, e, w);
    } else if e.EReconcile? {
      ReconcileMovesItem(s, e, w);
    } else if e.ECancel? {
      CancelMovesItem(s, e.run_, w);
    } else if e.ERestart? {
      RestartMovesItem(s, w);
    }
  }

  lemma StartLeavesAttempt(s: Store, r: nat, a: nat)
    requires a < |s.attempts|
    ensures var after := StartRun(s, r).0; a < |after.attempts| && after.attempts[a] == s.attempts[a]
  {
    QueueTrialsAppendsAttempts(s, r, |s.trials|);
    assert QueueTrials(s, r, |s.trials|).attempts[..|s.attempts|][a] == s.attempts[a];
  }

  lemma ClaimMovesItem(s: Store, e: Event, w: nat)
    requires Inv(s) && IsItem(s, w) && e.EClaim?
    ensures var (after, reply) := Step(s, e);
            IsItem(after, w) && ItemAt(after, w) == Next(ItemAt(s, w), w, RunOf(s, w), s.epoch, e, reply)
  {
    assert LinkedWork(s, w);
    if IsItem(s, e.work) { assert LinkedWork(s, e.work); }
  }

  lemma HeartbeatMovesItem(s: Store, e: Event, w: nat)
    requires Inv(s) && IsItem(s, w) && e.EHeartbeat?
    ensures var (after, reply) := Step(s, e);
            IsItem(after, w) && ItemAt(after, w) == Next(ItemAt(s, w), w, RunOf(s, w), s.epoch, e, reply)
  {
    assert LinkedWork(s, w);
    if IsItem(s, e.work) { assert LinkedWork(s, e.work); }
  }

  lemma FinishMovesItem(s: Store, e: Event, w: nat)
    requires Inv(s) && IsItem(s, w) && e.EFinish?
    ensures var (after, reply) := Step(s, e);
            IsItem(after, w) && ItemAt(after, w) == Next(ItemAt(s, w), w, RunOf(s, w), s.epoch, e, reply)
  {
    assert LinkedWork(s, w);
    if IsItem(s, e.work) { assert LinkedWork(s, e.work); }
  }

  lemma ReconcileMovesItem(s: Store, e: Event, w: nat)
    requires Inv(s) && IsItem(s, w) && e.EReconcile?
    ensures var (after, reply) := Step(s, e);
            IsItem(after, w) && ItemAt(after, w) == Next(ItemAt(s, w), w, RunOf(s, w), s.epoch, e, reply)
  {
    assert LinkedWork(s, w);
    if IsItem(s, e.work) { assert LinkedWork(s, e.work); }
  }

  lemma CancelMovesItem(s: Store, r: nat, w: nat)
    requires Inv(s) && IsItem(s, w)
    ensures var (after, reply) := CancelRun(s, r);
            IsItem(after, w) && ItemAt(after, w) == Next(ItemAt(s, w), w, RunOf(s, w), s.epoch, ECancel(r), reply)
  {
    var a := s.works[w].business;
    assert LinkedWork(s, w) && LinkedAttempt(s, a) && LinkedTrial(s, s.attempts[a].trial);
    if RunOf(s, w) == r { assert RunOk(s, r) && ItemOf(s, w, r); }
  }

  lemma RestartMovesItem(s: Store, w: nat)
    requires Inv(s) && IsItem(s, w)
    ensures var after := Restart(s);
            IsItem(after, w) && ItemAt(after, w) == Next(ItemAt(s, w), w, RunOf(s, w), s.epoch, ERestart, Done)
  {
    assert LinkedWork(s, w);
  }

  // ---------------------------------------------------------------- when a request is accepted

  /** The caller's epoch and version still own the item. */
  predicate HoldsToken(s: Store, w: nat, epoch: nat, version: nat) {
    IsItem(s, w) && s.epoch == epoch && s.works[w].owner == Some(epoch) && s.works[w].version == version
    && Live(s.works[w].state)
  }

  predicate Terminal(e: Evidence) {
    (e.exec.ExecFinished? || e.exec.ExecCancelled? || e.exec.ExecError? || e.exec.ExecBlocked?)
    && (e.cleanup.Clean? || e.cleanup.Residual? || e.cleanup.Unknown?)
  }

  /** The named grade is the attempt's own, and its state and result say the same. */
  predicate OwnGrade(s: Store, a: nat, grade: nat) {
    grade < |s.grades| && s.grades[grade].attempt == a
    && match s.grades[grade].state
       case Unscored => true
       case Grading => false
       case Graded => s.grades[grade].result.Some?
       case GraderError => s.grades[grade].result.None?
  }

  /** A finish is accepted exactly from the holder of the token, with terminal evidence and, if any, a grade of its
      own. */
  lemma FinishedExactlyWhen(s: Store, w: nat, epoch: nat, version: nat, evidence: Evidence, now: int)
    requires Inv(s)
    ensures var reply := Finish(s, w, epoch, version, evidence, now).1;
            (reply.Done? <==> Terminal(evidence) && HoldsToken(s, w, epoch, version)
                              && (evidence.grade.Some? ==> OwnGrade(s, s.works[w].business, evidence.grade.value)))
            && (reply.Done? || reply.Refused?)
  {
    if Owned(s, w, epoch, version) { LiveItemFacts(s, w); }
  }

  lemma HeartbeatExactlyWhen(s: Store, w: nat, epoch: nat, version: nat, now: int)
    ensures Heartbeat(s, w, epoch, version, now).1.Done? <==> HoldsToken(s, w, epoch, version)
  {
  }

  /** A clean observation of no remaining process, for this item and by the epoch that owned it. */
  predicate Confirms(seen: Observation, owner: Option<nat>, w: nat) {
    seen == Observation(owner, w, true, 0)
  }

  /** A reconciliation is accepted exactly for an item that awaits it, at its version, on a confirming observation. */
  lemma ReconciledExactlyWhen(s: Store, w: nat, expected: nat, seen: Observation)
    ensures var reply := Reconcile(s, w, expected, seen).1;
            (reply.Done? <==> IsItem(s, w) && s.works[w].state.Reconciling? && s.works[w].version == expected
                              && Confirms(seen, s.works[w].owner, w))
            && (reply.Done? || (reply.Refused? && Reconcile(s, w, expected, seen).0 == s))
  {
  }

  /** An item leaves reconciliation in one way only: to finished, by a confirming observation. */
  lemma OnlyConfirmedLeaves(s: Store, e: Event, w: nat)
    requires Inv(s) && IsItem(s, w) && s.works[w].state.Reconciling?
    ensures var after := Step(s, e).0;
            w < |after.works|
            && (after.works[w].state.Reconciling?
                || (after.works[w].state.Finished? && e.EReconcile? && e.work == w && e.expected == s.works[w].version
                    && Confirms(e.seen, s.works[w].owner, w)))
  {
    StepMovesItem(s, e, w);
    if e.EReconcile? { ReconciledExactlyWhen(s, e.work, e.expected, e.seen); }
  }

  /** Somewhere along the history the item's cleanup is confirmed. */
  predicate ConfirmedAlong(s: Store, events: seq<Event>, w: nat)
    decreases |events|
  {
    events != []
    && ((events[0].EReconcile? && events[0].work == w && Step(s, events[0]).1.Done? && w < |s.works|
         && Confirms(events[0].seen, s.works[w].owner, w))
        || ConfirmedAlong(Step(s, events[0]).0, events[1..], w))
  }

  /** Over any history an item that awaits reconciliation goes on holding the worker until its cleanup is confirmed. */
  lemma {:induction false} HeldUntilConfirmed(s: Store, events: seq<Event>, w: nat)
    requires Inv(s) && IsItem(s, w) && s.works[w].state.Reconciling?
    ensures var after := After(s, events);
            w < |after.works|
            && (ConfirmedAlong(s, events, w) || (after.works[w].state.Reconciling? && WorkerTaken(after)))
    decreases |events|
  {
    if events != [] {
      var next := Step(s, events[0]).0;
      StepKeepsInv(s, events[0]);
      OnlyConfirmedLeaves(s, events[0], w);
      ItemStays(s, events[0], w);
      if next.works[w].state.Reconciling? {
        HeldUntilConfirmed(next, events[1..], w);
      } else {
        LaterStill(next, events[1..], w);
      }
    }
  }

  lemma {:induction false} LaterStill(s: Store, events: seq<Event>, w: nat)
    requires w < |s.works|
    ensures w < |After(s, events).works|
    decreases |events|
  {
    if events != [] {
      StepMovesForward(s, events[0], w);
      LaterStill(Step(s, events[0]).0, events[1..], w);
    }
  }

  // ---------------------------------------------------------------- the time a history records

  /** The time a step measures for a trial: what an accepted finish of one of its items reads off the clock. */
  function MeasuredFor(s: Store, e: Event, t: nat): nat {
    if e.EFinish? && Step(s, e).1.Done? && IsItem(s, e.work) && s.attempts[s.works[e.work].business].trial == t
    then Measured(s.attempts[s.works[e.work].business].start, e.now)
    else 0
  }

  /** The recorded time of a row grows by what the step measures on it, and by nothing else. */
  lemma RowRecords(s: Store, e: Event, a: nat)
    requires Inv(s) && a < |s.attempts|
    ensures var after := Step(s, e).0;
            a < |after.attempts| && after.attempts[a].trial == s.attempts[a].trial
            && Elapsed(after.attempts[a])
               == Elapsed(s.attempts[a])
                  + if e.EFinish? && Step(s, e).1.Done? && IsItem(s, e.work) && s.works[e.work].business == a
                    then Measured(s.attempts[a].start, e.now) else 0
  {
    var w := s.attempts[a].work;
    assert LinkedAttempt(s, a) && CoupledAttempt(s, a);
    StepMovesItem(s, e, w);
    if e.EFinish? && IsItem(s, e.work) { assert LinkedWork(s, e.work); }
    if e.EFinish? { FinishedExactlyWhen(s, e.work, e.epoch, e.version, e.evidence, e.now); }
  }

  /** Rows a step adds have recorded nothing. */
  lemma NewRowsRecordNothing(s: Store, e: Event)
    ensures var after := Step(s, e).0;
            |after.attempts| >= |s.attempts|
            && forall a :: |s.attempts| <= a < |after.attempts| ==> after.attempts[a].elapsed.None?
  {
    if e.EStart? { QueuedRowsRecordNothing(s, e.run_, |s.trials|); }
  }

  lemma {:induction false} QueuedRowsRecordNothing(s: Store, r: nat, n: nat)
    requires n <= |s.trials|
    ensures var after := QueueTrials(s, r, n);
            |after.attempts| >= |s.attempts|
            && forall a :: |s.attempts| <= a < |after.attempts| ==> after.attempts[a].elapsed.None?
  {
    if n > 0 { QueuedRowsRecordNothing(s, r, n - 1); }
  }

  /** Rows that agree except that one of them has recorded more. */
  lemma {:induction false} SpentGrows(rows: seq<Attempt>, others: seq<Attempt>, t: nat, at: int, more: nat)
    requires forall a :: 0 <= a < |rows| && a < |others| ==>
               others[a].trial == rows[a].trial
               && Elapsed(others[a]) == Elapsed(rows[a]) + if a == at then more else 0
    requires |others| >= |rows| && forall a :: |rows| <= a < |others| ==> others[a].elapsed.None?
    ensures Spent(others, t)
            == Spent(rows, t) + if 0 <= at < |rows| && rows[at].trial == t then more else 0
    decreases |others|
  {
    if others != [] {
      var n := |others| - 1;
      if |others| == |rows| {
        SpentGrows(rows[..n], others[..n], t, at, more);
      } else {
        SpentGrows(rows, others[..n], t, at, more);
      }
    }
  }

  /** A trial's recorded time grows in one way only: an accepted finish of one of its items adds the time since the
      start it recorded. */
  lemma StepRecords(s: Store, e: Event, t: nat)
    requires Inv(s)
    ensures Spent(Step(s, e).0.attempts, t) == Spent(s.attempts, t) + MeasuredFor(s, e, t)
  {
    var after := Step(s, e).0;
    var finishes := e.EFinish? && Step(s, e).1.Done? && IsItem(s, e.work);
    var at: int := if finishes then s.works[e.work].business else -1;
    var more := if finishes then Measured(s.attempts[at].start, e.now) else 0;
    forall a | 0 <= a < |s.attempts|
      ensures a < |after.attempts| && after.attempts[a].trial == s.attempts[a].trial
              && Elapsed(after.attempts[a]) == Elapsed(s.attempts[a]) + if a == at then more else 0
    {
      RowRecords(s, e, a);
    }
    NewRowsRecordNothing(s, e);
    SpentGrows(s.attempts, after.attempts, t, at, more);
  }

  function Ledger(s: Store, events: seq<Event>, t: nat): nat
    decreases |events|
  {
    if events == [] then 0 else MeasuredFor(s, events[0], t) + Ledger(Step(s, events[0]).0, events[1..], t)
  }

  /** Over any history a trial's recorded time grows by the sum of what its accepted finishes measured. */
  lemma {:induction false} HistoryRecords(s: Store, events: seq<Event>, t: nat)
    requires Inv(s)
    ensures Spent(After(s, events).attempts, t) == Spent(s.attempts, t) + Ledger(s, events, t)
    decreases |events|
  {
    if events != [] {
      StepRecords(s, events[0], t);
      StepKeepsInv(s, events[0]);
      HistoryRecords(Step(s, events[0]).0, events[1..], t);
    }
  }

  /** The item has been started at `start` and its owner has not let go of it. */
  predicate UnderWay(s: Store, w: nat, start: int) {
    IsItem(s, w) && Live(s.works[w].state) && s.attempts[s.works[w].business].start == Some(start)
  }

  /** No accepted finish or restart ends the item here. */
  predicate LeavesLive(s: Store, e: Event, w: nat) {
    !e.ERestart? && !(e.EFinish? && e.work == w && Step(s, e).1.Done?)
  }

  /** Until its own finish, or a restart, an item keeps its start, and its trial records nothing. */
  lemma UnderWayStays(s: Store, e: Event, w: nat, start: int)
    requires Inv(s) && UnderWay(s, w, start)
    ensures var (after, t) := (Step(s, e).0, s.attempts[s.works[w].business].trial);
            if LeavesLive(s, e, w) then
              UnderWay(after, w, start) && after.works[w].business == s.works[w].business
              && after.attempts[s.works[w].business].trial == t && Spent(after.attempts, t) == Spent(s.attempts, t)
            else w < |after.works| && PastRank(after, w, 3)
  {
    StepMovesItem(s, e, w);
    LiveItemFacts(s, w);
    StepRecords(s, e, s.attempts[s.works[w].business].trial);
    if e.EFinish? && e.work != w { OthersOfTrialFinished(s, e, w); }
  }

  /** A trial has one unfinished item at most, so nobody else can finish one. */
  lemma OthersOfTrialFinished(s: Store, e: Event, w: nat)
    requires Inv(s) && IsItem(s, w) && Live(s.works[w].state) && e.EFinish? && e.work != w
    ensures MeasuredFor(s, e, s.attempts[s.works[w].business].trial) == 0
  {
    if Step(s, e).1.Done? && IsItem(s, e.work) {
      FinishedExactlyWhen(s, e.work, e.epoch, e.version, e.evidence, e.now);
      LiveItemFacts(s, w);
      LiveItemFacts(s, e.work);
    }
  }

  lemma {:induction false} FinishReadsStart(s: Store, events: seq<Event>, w: nat, start: int, last: Event)
    requires Inv(s) && UnderWay(s, w, start)
    requires last.EFinish? && last.work == w && Step(After(s, events), last).1.Done?
    ensures var (before, after, a) := (After(s, events), Step(After(s, events), last).0, s.works[w].business);
            var t := s.attempts[a].trial;
            a < |after.attempts| && after.attempts[a].elapsed == Some(Measured(Some(start), last.now))
            && Spent(after.attempts, t) == Spent(s.attempts, t) + Measured(Some(start), last.now)
    decreases |events|
  {
    if events == [] {
      StepMovesItem(s, last, w);
      StepRecords(s, last, s.attempts[s.works[w].business].trial);
    } else {
      var next := Step(s, events[0]).0;
      UnderWayStays(s, events[0], w, start);
      StepKeepsInv(s, events[0]);
      if LeavesLive(s, events[0], w) {
        FinishReadsStart(next, events[1..], w, start, last);
      } else {
        FinishedAtMostOnce(next, events[1..] + [last], w);
        NoLaterFinish(next, events[1..], w, last);
      }
    }
  }

  lemma {:induction false} NoLaterFinish(s: Store, events: seq<Event>, w: nat, last: Event)
    requires Finishes(s, events + [last], w) == 0 && last.EFinish? && last.work == w
    ensures !Step(After(s, events), last).1.Done?
    decreases |events|
  {
    if events == [] {
      assert (events + [last])[0] == last;
    } else {
      assert (events + [last])[0] == events[0] && (events + [last])[1..] == events[1..] + [last];
      NoLaterFinish(Step(s, events[0]).0, events[1..], w, last);
    }
  }

  /** From a granted claim to an accepted finish of the same item, whatever lies between, the attempt records the time
      from the one to the other, and its trial exactly that much more. */
  lemma FinishRecordsTheTime(s: Store, claim: Event, events: seq<Event>, finish: Event)
    requires Inv(s) && claim.EClaim? && Step(s, claim).1.Granted?
    requires finish.EFinish? && finish.work == claim.work && Step(After(Step(s, claim).0, events), finish).1.Done?
    ensures IsItem(s, claim.work)
    ensures var after := Step(After(Step(s, claim).0, events), finish).0;
            var time := if finish.now > claim.now then finish.now - claim.now else 0;
            var a := s.works[claim.work].business;
            a < |after.attempts| && after.attempts[a].elapsed == Some(time)
            && Spent(after.attempts, s.attempts[a].trial) == Spent(s.attempts, s.attempts[a].trial) + time
  {
    ClaimBegins(s, claim);
    FinishReadsStart(Step(s, claim).0, events, claim.work, claim.now, finish);
  }

  lemma ClaimBegins(s: Store, claim: Event)
    requires Inv(s) && claim.EClaim? && Step(s, claim).1.Granted?
    ensures IsItem(s, claim.work)
    ensures var (after, w, a) := (Step(s, claim).0, claim.work, s.works[claim.work].business);
            Inv(after) && UnderWay(after, w, claim.now) && after.works[w].business == a
            && after.attempts[a].trial == s.attempts[a].trial
            && Spent(after.attempts, s.attempts[a].trial) == Spent(s.attempts, s.attempts[a].trial)
  {
    StepMovesItem(s, claim, claim.work);
    StepKeepsInv(s, claim);
    StepRecords(s, claim, s.attempts[s.works[claim.work].business].trial);
  }
}
