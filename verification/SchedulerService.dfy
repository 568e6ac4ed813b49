/** The scheduler object: each method updates the stored rows in place and is proved against its transaction. */
module SchedulerService {
  import opened Options
  import M = SchedulerModel
  import opened SchedulerInvariant
  import opened SchedulerPreservation
  import opened SchedulerReachable

  /** `states` holds the states of the run's items, no more and no less. */
  ghost predicate StatesOf(s: M.Store, r: nat, states: set<M.WorkState>) {
    (forall state :: state in states ==> exists v :: 0 <= v < |s.works| && M.ItemOf(s, v, r)
                                            && s.works[v].state == state)
    && forall v :: 0 <= v < |s.works| && M.ItemOf(s, v, r) ==> s.works[v].state in states
  }

  lemma StatesRead(s: M.Store, r: nat, states: set<M.WorkState>)
    requires StatesOf(s, r, states)
    ensures M.Reconciling in states <==> M.HasReconciling(s, r)
    ensures (M.Queued in states || M.Running in states || M.CancelRequested in states) <==> M.HasOpen(s, r)
    ensures states != {} <==> M.HasItems(s, r)
  {
    if states != {} {
      var state :| state in states;
      var v :| 0 <= v < |s.works| && M.ItemOf(s, v, r) && s.works[v].state == state;
    }
  }

  /** What the cancel's pass does at one row. */
  ghost function CancelledAt(s: M.Store, r: nat, w: nat): M.Store
    requires w < |s.works|
  {
    if M.ItemOf(s, w, r) && s.works[w].state.Queued? then M.CancelQueued(s, w, M.AgentCancelled)
    else if M.ItemOf(s, w, r) && s.works[w].state.Running? then
      s.(works := s.works[w := s.works[w].(state := M.CancelRequested)])
    else s
  }

  /** The pass has reached row `w`. */
  ghost predicate CancelledUpTo(before: M.Store, s: M.Store, r: nat, w: nat) {
    w <= |s.works| == |before.works| && |s.attempts| == |before.attempts|
    && s == before.(works := s.works, attempts := s.attempts)
    && (forall v :: 0 <= v < |s.works| ==>
          s.works[v] == if v < w then M.CancelledWork(before, r, v) else before.works[v])
    && forall a :: 0 <= a < |s.attempts| ==>
         s.attempts[a] == if before.attempts[a].work < w then M.CancelledRow(before, r, a) else before.attempts[a]
  }

  lemma CancelledOneMore(before: M.Store, s: M.Store, r: nat, w: nat)
    requires Core(before) && CancelledUpTo(before, s, r, w) && w < |s.works|
    ensures CancelledUpTo(before, CancelledAt(s, r, w), r, w + 1)
    ensures s.works[w].kind == M.AttemptWork ==> M.IsItem(s, w)
  {
    assert LinkedWork(before, w);
    if s.works[w].kind == M.AttemptWork { assert LinkedAttempt(before, before.works[w].business); }
    forall a | 0 <= a < |s.attempts| && before.attempts[a].work == w ensures before.works[w].business == a {
      assert LinkedAttempt(before, a);
    }
  }

  lemma CancelledThrough(before: M.Store, s: M.Store, r: nat)
    requires Core(before) && CancelledUpTo(before, s, r, |s.works|)
    ensures s == M.CancelRows(before, r)
  {
    forall a | 0 <= a < |s.attempts| ensures before.attempts[a].work < |s.works| { assert LinkedAttempt(before, a); }
  }

  class EvaluationScheduler {
    var epoch: nat
    var works: seq<M.Work>
    var attempts: seq<M.Attempt>
    var trials: seq<M.Trial>
    var runs: seq<M.Run>
    var grades: seq<M.Grade>

    /** The stored rows as one value. */
    ghost function Tables(): M.Store
      reads this
    {
      M.Store(epoch, works, attempts, trials, runs, grades)
    }

    constructor ()
      ensures Tables() == M.EMPTY
    {
      epoch, works, attempts, trials, runs, grades := 0, [], [], [], [], [];
    }

    method QueueAttempt(trial: nat)
      requires trial < |trials|
      modifies this`works, this`attempts, this`trials
      ensures Tables() == M.QueueAttempt(old(Tables()), trial)
    {
      var last, i := 0, 0;
      while i < |attempts|
        invariant i <= |attempts| && last == M.LastNumber(attempts[..i], trial)
      {
        assert attempts[..i + 1][..i] == attempts[..i];
        if attempts[i].trial == trial && attempts[i].number > last { last := attempts[i].number; }
        i := i + 1;
      }
      assert attempts[..i] == attempts;
      var attempt, work := |attempts|, |works|;
      attempts := attempts + [M.NewAttempt(trial, last + 1, work)];
      works := works + [M.Work(M.AttemptWork, attempt, M.Queued, None, 0)];
      trials := trials[trial := trials[trial].(selected := Some(attempt))];
    }

    method CancelQueued(w: nat, outcome: M.AgentOutcome)
      requires M.IsItem(Tables(), w)
      modifies this`works, this`attempts
      ensures Tables() == M.CancelQueued(old(Tables()), w, outcome)
    {
      var a := works[w].business;
      attempts := attempts[a := attempts[a].(exec := M.ExecCancelled, cleanup := M.Clean, elapsed := Some(0),
                                             outcome := Some(outcome))];
      works := works[w := works[w].(state := M.Finished, version := works[w].version + 1)];
    }

    /** Reads which item states a run has, as the query behind `settle_run` does. */
    method RunStates(r: nat) returns (states: set<M.WorkState>)
      ensures M.Reconciling in states <==> M.HasReconciling(Tables(), r)
      ensures (M.Queued in states || M.Running in states || M.CancelRequested in states) <==> M.HasOpen(Tables(), r)
      ensures states != {} <==> M.HasItems(Tables(), r)
    {
      states := {};
      var w := 0;
      while w < |works|
        invariant w <= |works|
        invariant forall state :: state in states
                     ==> exists v :: 0 <= v < w && M.ItemOf(Tables(), v, r) && works[v].state == state
        invariant forall v :: 0 <= v < w && M.ItemOf(Tables(), v, r) ==> works[v].state in states
      {
        if works[w].kind == M.AttemptWork && works[w].business < |attempts|
           && attempts[works[w].business].trial < |trials|
           && trials[attempts[works[w].business].trial].run == r {
          states := states + {works[w].state};
          assert M.ItemOf(Tables(), w, r);
        }
        w := w + 1;
      }
      StatesRead(Tables(), r, states);
    }

    method AnyBadSelection(r: nat) returns (bad: bool)
      ensures bad <==> M.HasBadSelection(Tables(), r)
    {
      var t := 0;
      while t < |trials|
        invariant t <= |trials|
        invariant forall u :: 0 <= u < t && trials[u].run == r ==> !M.BadSelection(Tables(), u)
      {
        if trials[t].run == r && trials[t].selected.Some? && trials[t].selected.value < |attempts| {
          var row := attempts[trials[t].selected.value];
          if row.exec.ExecBlocked? || row.exec.ExecError?
             || (row.grade.Some? && row.grade.value < |grades| && grades[row.grade.value].state.GraderError?) {
            assert M.BadSelection(Tables(), t);
            return true;
          }
        }
        t := t + 1;
      }
      return false;
    }

    method SettleRun(r: nat)
      requires r < |runs|
      modifies this`runs
      ensures Tables() == M.SettleRun(old(Tables()), r)
    {
      var states := RunStates(r);
      var state := runs[r].state;
      if M.Reconciling in states {
        state := M.RunIndeterminate;
      } else if M.Queued in states || M.Running in states || M.CancelRequested in states {
        assert runs[r := runs[r].(state := runs[r].state)] == runs;
        return;
      } else if runs[r].state.RunCancelRequested? {
        state := M.RunCancelled;
      } else if states != {} {
        var errors := AnyBadSelection(r);
        state := if errors then M.RunFailed else M.RunCompleted;
      }
      runs := runs[r := runs[r].(state := state)];
    }

    method Claim(w: nat, expected: nat, now: int, turnsBlocked: bool) returns (reply: M.Reply)
      requires Inv(Tables())
      modifies this
      ensures (Tables(), reply) == M.Claim(old(Tables()), w, expected, now, turnsBlocked)
      ensures Inv(Tables())
    {
      ghost var before := Tables();
      ClaimKeepsInv(before, w, expected, now, turnsBlocked);
      var blocked := CleanupBlocked();
      if turnsBlocked || blocked { return M.Refused(M.Unconfirmed); }
      var taken := exists v :: 0 <= v < |works| && (works[v].state.Running? || works[v].state.Reconciling?);
      if taken { return M.Refused(M.Unconfirmed); }
      if !(w < |works| && works[w].kind == M.AttemptWork) { return M.Refused(M.NotFound); }
      assert LinkedWork(before, w);
      var row := works[w];
      assert LinkedAttempt(before, row.business);
      var trial := attempts[row.business].trial;
      assert LinkedTrial(before, trial);
      var r := trials[trial].run;
      if !row.state.Queued? || row.version != expected || !(runs[r].state.RunQueued? || runs[r].state.RunRunning?) {
        return M.Refused(M.Stale);
      }
      var spent := SpentOn(trial);
      var remaining := runs[r].trialWall * M.NANOSECONDS - spent;
      var duration := M.Min(runs[r].attemptWall * M.NANOSECONDS, remaining);
      if duration <= 0 {
        CancelQueued(w, M.BudgetExhausted);
        SettleRun(r);
        return M.Exhausted;
      }
      works := works[w := row.(state := M.Running, owner := Some(epoch), version := row.version + 1)];
      attempts := attempts[row.business := attempts[row.business].(exec := M.ExecRunning, start := Some(now),
                                                                    grant := Some(duration), heartbeat := Some(now))];
      runs := runs[r := runs[r].(state := M.RunRunning)];
      return M.Granted(row.version + 1, duration);
    }

    /** The time recorded by the trial's attempts. */
    method SpentOn(trial: nat) returns (spent: nat)
      ensures spent == M.Spent(attempts, trial)
    {
      spent := 0;
      var i := 0;
      while i < |attempts|
        invariant i <= |attempts| && spent == M.Spent(attempts[..i], trial)
      {
        assert attempts[..i + 1][..i] == attempts[..i];
        if attempts[i].trial == trial && attempts[i].elapsed.Some? { spent := spent + attempts[i].elapsed.value; }
        i := i + 1;
      }
      assert attempts[..i] == attempts;
    }

    method CleanupBlocked() returns (blocked: bool)
      ensures blocked <==> M.CleanupBlocked(Tables())
    {
      var a := 0;
      while a < |attempts|
        invariant a <= |attempts|
        invariant !M.CleanupBlocked(Tables().(attempts := attempts[..a]))
      {
        if attempts[a].work < |works| && !attempts[a].cleanup.Clean? {
          var row := works[attempts[a].work];
          if row.state.Finished? || (row.owner.Some? && row.owner.value != epoch) { return true; }
        }
        a := a + 1;
      }
      assert attempts[..a] == attempts;
      return false;
    }

    method Heartbeat(w: nat, owner: nat, version: nat, now: int) returns (reply: M.Reply)
      requires Inv(Tables())
      modifies this`attempts
      ensures (Tables(), reply) == M.Heartbeat(old(Tables()), w, owner, version, now)
      ensures Inv(Tables())
    {
      HeartbeatKeepsInv(Tables(), w, owner, version, now);
      var owned := OwnedBy(w, owner, version);
      if !owned {
        var found := Exists(w);
        return M.Refused(if found then M.Unconfirmed else M.NotFound);
      }
      var a := works[w].business;
      attempts := attempts[a := attempts[a].(heartbeat := Some(now))];
      return M.Done;
    }

    method Exists(w: nat) returns (found: bool)
      ensures found <==> M.IsItem(Tables(), w)
    {
      found := w < |works| && works[w].kind == M.AttemptWork && works[w].business < |attempts|
               && attempts[works[w].business].trial < |trials|;
    }

    method OwnedBy(w: nat, owner: nat, version: nat) returns (owned: bool)
      ensures owned <==> M.Owned(Tables(), w, owner, version)
    {
      var found := Exists(w);
      owned := found && owner == epoch && works[w].owner == Some(owner) && works[w].version == version
               && (works[w].state.Running? || works[w].state.CancelRequested?);
    }

    method Finish(w: nat, owner: nat, version: nat, evidence: M.Evidence, now: int) returns (reply: M.Reply)
      requires Inv(Tables())
      modifies this
      ensures (Tables(), reply) == M.Finish(old(Tables()), w, owner, version, evidence, now)
      ensures Inv(Tables())
    {
      ghost var before := Tables();
      FinishKeepsInv(before, w, owner, version, evidence, now);
      if evidence.exec.ExecQueued? || evidence.exec.ExecRunning? || evidence.cleanup.Pending? {
        return M.Refused(M.Invalid);
      }
      var e := evidence;
      if e.exec.ExecCancelled? && !e.cleanup.Clean? {
        e := e.(exec := M.ExecError, outcome := Some(M.Indeterminate), error := Some(M.RunnerCrash));
      }
      var owned := OwnedBy(w, owner, version);
      if !owned {
        var found := Exists(w);
        return M.Refused(if found then M.Unconfirmed else M.NotFound);
      }
      LiveItemFacts(before, w);
      var problem := GradeProblem(works[w].business, e.grade);
      if problem.Some? { return M.Refused(problem.value); }
      EndAndSettle(w, e, now);
      return M.Done;
    }

    /** The last writes of a finish: the end of the attempt, and its run's state. */
    method EndAndSettle(w: nat, e: M.Evidence, now: int)
      requires M.IsItem(Tables(), w) && M.RunOf(Tables(), w) < |runs| && attempts[works[w].business].start.Some?
      modifies this
      ensures old(M.IsItem(Tables(), w)) && old(attempts[works[w].business].start.Some?)
      ensures var elapsed := M.Max(0, now - old(attempts[works[w].business].start.value));
              Tables() == M.SettleRun(M.EndWork(old(Tables()), w, e, elapsed), old(M.RunOf(Tables(), w)))
    {
      var a := works[w].business;
      RecordEnd(w, e, M.Max(0, now - attempts[a].start.value));
      SettleRun(trials[attempts[a].trial].run);
    }

    method GradeProblem(a: nat, grade: Option<nat>) returns (problem: Option<M.Refusal>)
      ensures problem == M.GradeRefusal(Tables(), a, grade)
    {
      if grade.None? { return None; }
      if grade.value >= |grades| || grades[grade.value].attempt != a { return Some(M.Unauthorized); }
      var row := grades[grade.value];
      if row.state.Graded? && row.result.None? { return Some(M.Invalid); }
      if row.state.Grading? || (row.state.GraderError? && row.result.Some?) { return Some(M.Invalid); }
      return None;
    }

    method RecordEnd(w: nat, e: M.Evidence, elapsed: nat)
      requires M.IsItem(Tables(), w)
      modifies this`works, this`attempts
      ensures Tables() == M.EndWork(old(Tables()), w, e, elapsed)
    {
      var a := works[w].business;
      attempts := attempts[a := attempts[a].(exec := e.exec, error := e.error, cleanup := e.cleanup,
                                             elapsed := Some(elapsed), outcome := e.outcome, grade := e.grade)];
      works := works[w := works[w].(state := if e.cleanup.Clean? then M.Finished else M.Reconciling,
                                    version := works[w].version + 1)];
    }

    /** Walks the run's items, ending the queued ones and asking the running one to stop. */
    method Cancel(r: nat)
      requires Core(Tables()) && r < |runs|
      modifies this
      ensures Tables() == M.CancelItems(old(Tables()), r)
    {
      ghost var before := Tables();
      var w := 0;
      while w < |works|
        invariant CancelledUpTo(before, Tables(), r, w)
      {
        CancelledOneMore(before, Tables(), r, w);
        CancelAt(w, r);
        w := w + 1;
      }
      CancelledThrough(before, Tables(), r);
      SettleRun(r);
    }

    method CancelAt(w: nat, r: nat)
      requires w < |works| && (works[w].kind == M.AttemptWork ==> M.IsItem(Tables(), w))
      modifies this`works, this`attempts
      ensures Tables() == CancelledAt(old(Tables()), r, w)
    {
      if works[w].kind == M.AttemptWork {
        if trials[attempts[works[w].business].trial].run == r {
          if works[w].state.Queued? {
            CancelQueued(w, M.AgentCancelled);
          } else if works[w].state.Running? {
            works := works[w := works[w].(state := M.CancelRequested)];
          }
        }
      }
    }

    method Reconcile(w: nat, expected: nat, seen: M.Observation) returns (reply: M.Reply)
      requires Inv(Tables())
      modifies this
      ensures (Tables(), reply) == M.Reconcile(old(Tables()), w, expected, seen)
      ensures Inv(Tables())
    {
      ghost var before := Tables();
      ReconcileKeepsInv(before, w, expected, seen);
      var found := Exists(w);
      if !found { return M.Refused(M.NotFound); }
      var row := works[w];
      if !row.state.Reconciling? || row.version != expected { return M.Refused(M.Stale); }
      if seen.epoch != row.owner || seen.work != w || !seen.clean || seen.remaining != 0 {
        return M.Refused(M.Unconfirmed);
      }
      LiveItemFacts(before, w);
      EndIndeterminate(w);
      SettleRun(trials[attempts[row.business].trial].run);
      return M.Done;
    }

    method EndIndeterminate(w: nat)
      requires M.IsItem(Tables(), w)
      modifies this`works, this`attempts
      ensures Tables() == M.Reconciled(old(Tables()), w)
    {
      var row := works[w];
      attempts := attempts[
        row.business := attempts[row.business].(exec := M.ExecError, error := Some(M.RunnerCrash), cleanup := M.Clean,
                                                outcome := Some(M.Indeterminate))];
      works := works[w := row.(state := M.Finished, version := row.version + 1)];
    }
  }
}
