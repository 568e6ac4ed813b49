/**
The durable campaign: a slot is written to disk as started before it is executed.  A process may die between any two
writes; what it leaves is the file of the last completed save and the executions that had begun.
*/
module Campaign {
  import opened Options

  datatype SlotState = NotStarted | Started | Finished
  datatype Phase = Ready | Running | Blocked | Complete
  datatype CampaignFile = CampaignFile(freeze: nat, phase: Phase, slots: seq<SlotState>)

  /** What happens at one point where the process can be interrupted. */
  datatype Fate =
    | Proceeds
    /** The process is killed here. */
    | Dies
    /** An exception is raised here; `marked`: after the slot was marked finished in memory. */
    | Raises(marked: bool)
    /** The executed case returns; `stop` is the stop decision taken on its outcome. */
    | Returns(stop: bool)

  datatype Ending = Killed | Refused | Summary | Stopped | Propagated

  /** The longest run of finished slots at the front. */
  function FinishedCount(slots: seq<SlotState>): (n: nat)
    ensures n <= |slots| && (forall i :: 0 <= i < n ==> slots[i].Finished?) && (n < |slots| ==> !slots[n].Finished?)
  {
    if slots == [] || !slots[0].Finished? then 0 else 1 + FinishedCount(slots[1..])
  }

  /** finished* started? not_started* */
  predicate WellShaped(slots: seq<SlotState>) {
    forall i :: FinishedCount(slots) < i < |slots| ==> slots[i].NotStarted?
  }

  predicate AnyStarted(slots: seq<SlotState>) { exists i :: 0 <= i < |slots| && slots[i].Started? }

  /** How many slots may have been executed: the finished ones, and a started one if it got that far. */
  predicate Accounts(slots: seq<SlotState>, executed: nat) {
    var done := FinishedCount(slots);
    if done < |slots| && slots[done].Started? then executed == done || executed == done + 1 else executed == done
  }

  /** The slots 0..n-1 in schedule order. */
  function Prefix(n: nat): seq<nat> { seq(n, i => i) }

  lemma FinishedCountIs(slots: seq<SlotState>, n: nat)
    requires n <= |slots| && (forall i :: 0 <= i < n ==> slots[i].Finished?) && (n < |slots| ==> !slots[n].Finished?)
    ensures FinishedCount(slots) == n
  {
    var m := FinishedCount(slots);
    assert m < |slots| ==> !slots[m].Finished?;
  }

  /** File and executions agree: the executed slots are the first ones of the schedule, each once. */
  predicate Consistent(file: Option<CampaignFile>, executed: seq<nat>) {
    match file
    case None => executed == []
    case Some(saved) =>
      WellShaped(saved.slots) && executed == Prefix(|executed|) && Accounts(saved.slots, |executed|)
      && (saved.phase.Complete? ==> FinishedCount(saved.slots) == |saved.slots|)
  }

  function TimesExecuted(executed: seq<nat>, slot: nat): nat { multiset(executed)[slot] }

  /** A finished slot was executed exactly once, a started one at most once, any other never; and in schedule order. */
  lemma ExecutedAtMostOnce(saved: CampaignFile, executed: seq<nat>, slot: nat)
    requires Consistent(Some(saved), executed) && slot < |saved.slots|
    ensures TimesExecuted(executed, slot) <= 1
    ensures saved.slots[slot].Finished? ==> TimesExecuted(executed, slot) == 1
    ensures saved.slots[slot].NotStarted? ==> TimesExecuted(executed, slot) == 0
    ensures forall i, j :: 0 <= i < j < |executed| ==> executed[i] < executed[j]
  {
    CountInPrefix(|executed|, slot);
  }

  lemma {:induction false} CountInPrefix(n: nat, slot: nat)
    ensures multiset(Prefix(n))[slot] == if slot < n then 1 else 0
  {
    if n > 0 {
      CountInPrefix(n - 1, slot);
      assert Prefix(n) == Prefix(n - 1) + [n - 1];
    }
  }

  /** The file a save is written to first: unfinished, or complete and flushed. */
  datatype Temporary = Torn | Written(state: CampaignFile)

  /** What survives a process: the saved file and the executions that were begun, in order. */
  class Disk {
    var file: Option<CampaignFile>
    var temporary: Option<Temporary>
    ghost var executed: seq<nat>

    ghost predicate Valid()
      reads this
    {
      Consistent(file, executed)
    }

    constructor ()
      ensures Valid() && file.None? && executed == []
    {
      file, temporary, executed := None, None, [];
    }

    /** `save`: opens the temporary file, writes and flushes it, and replaces the campaign file by it; interrupted at
        either point of `fates`, it leaves the campaign file as it was. */
    method Save(state: CampaignFile, fates: seq<Fate>, at: nat) returns (ending: Option<Ending>)
      modifies this`file, this`temporary
      ensures ending == CutWithin(fates, at, 2) && (ending.None? <==> Quiet(fates, at, 2))
      ensures file == if ending.Some? then old(file) else Some(state)
    {
      temporary := Some(Torn);
      ending := Cut(NextFate(fates, at));
      if ending.Some? { return; }
      temporary := Some(Written(state));
      ending := Cut(NextFate(fates, at + 1));
      if ending.Some? { return; }
      file, temporary := Some(temporary.value.state), None;
    }

    /** `campaign` for a plan of `slots` slots; `fates` decides, point by point, what interrupts it. */
    method Campaign(freeze: nat, slots: nat, resume: bool, fates: seq<Fate>) returns (ending: Ending)
      requires Valid()
      modifies this
      ensures Valid() && old(executed) <= executed
      ensures ending.Refused? <==> Refuses(old(file), freeze, resume)
      ensures ending.Refused? ==> unchanged(this)
      ensures ending.Summary? ==> file.Some? && file.value.phase.Complete? && executed == Prefix(|file.value.slots|)
      ensures old(file).Some? ==> file.Some? && SamePlan(old(file).value, file.value)
      ensures !ending.Refused? && !AlreadyComplete(old(file)) ==>
                if old(file).Some? then EndsAs(old(file).value, fates, 0, ending, file, executed)
                else if Quiet(fates, 0, 2) then EndsAs(Fresh(freeze, slots), fates, 2, ending, file, executed)
                else file.None? && executed == [] && (ending.Killed? || ending.Propagated?)
    {
      var state, at := Fresh(freeze, slots), 0;
      if file.Some? {
        state := file.value;
        if state.freeze != freeze { return Refused; }
        if AnyStarted(state.slots) { return Refused; }
        if state.phase.Complete? { return Summary; }
        if !resume { return Refused; }
      } else {
        if resume { return Refused; }
        FinishedCountIs(state.slots, 0);
        var interrupted := Save(state, fates, at);
        if interrupted.Some? { return interrupted.value; }
        at := at + 2;
      }
      ending := RunSlots(state, fates, at);
      EndsAsFacts(state, fates, at, ending, file, executed);
    }

    method RunSlots(initial: CampaignFile, fates: seq<Fate>, start: nat) returns (ending: Ending)
      requires Valid() && file == Some(initial) && !AnyStarted(initial.slots)
      modifies this
      ensures Valid() && old(executed) <= executed && EndsAs(initial, fates, start, ending, file, executed)
    {
      var state, at, i := initial, start, 0;
      ghost var ran := 0;
      ReachedAtFirst(initial);
      while i < |state.slots|
        invariant Valid() && old(executed) <= executed && file == Some(state)
        invariant Between(initial, state, i, ran) && Underway(initial, fates, start, ran, at)
      {
        if state.slots[i].NotStarted? {
          var stop;
          state, at, stop := RunNext(state, i, fates, at, initial, start, ran);
          if stop.Some? { return stop.value; }
          ran := ran + 1;
        } else {
          BetweenSkips(initial, state, i, ran);
        }
        i := i + 1;
      }
      AllReached(initial, state, ran, executed);
      ending := Complete(state, fates, at);
      EndsComplete(initial, fates, start, ending, file, executed);
    }

    /** The next slot of the loop. */
    method RunNext(before: CampaignFile, i: nat, fates: seq<Fate>, from: nat, ghost initial: CampaignFile,
                   ghost start: nat, ghost ran: nat)
      returns (state: CampaignFile, at: nat, stop: Option<Ending>)
      requires Valid() && file == Some(before) && Between(initial, before, i, ran) && i < |before.slots|
      requires before.slots[i].NotStarted? && Underway(initial, fates, start, ran, from)
      modifies this
      ensures Valid() && old(executed) <= executed
      ensures stop.None? ==> file == Some(state) && state == Reached(initial, ran + 1)
                             && Underway(initial, fates, start, ran + 1, at)
      ensures stop.Some? ==> EndsAs(initial, fates, start, stop.value, file, executed)
    {
      BetweenSlots(initial, before, i, ran);
      NextSlot(fates, start, Remaining(initial), ran, from);
      state, at, stop := RunSlot(before, i, fates, from);
      if stop.Some? {
        EndsThere(initial, fates, start, ran, stop.value, file, executed);
      } else {
        SlotReaches(initial, ran, fates, start, Remaining(initial), state, executed);
      }
    }

    method Complete(state: CampaignFile, fates: seq<Fate>, at: nat) returns (ending: Ending)
      requires Valid() && file == Some(state) && FinishedCount(state.slots) == |state.slots|
      modifies this`file, this`temporary
      ensures Valid() && !ending.Refused? && file.Some? && SamePlan(state, file.value)
      ensures ending.Summary? ==> file.value.phase.Complete? && executed == Prefix(|state.slots|)
      ensures (ending.Summary? <==> Quiet(fates, at, 2)) && (ending.Summary? || ending.Killed? || ending.Propagated?)
      ensures file == if ending.Summary? then Some(state.(phase := Phase.Complete)) else old(file)
    {
      var interrupted := Save(state.(phase := Phase.Complete), fates, at);
      return if interrupted.Some? then interrupted.value else Summary;
    }

    /** Admission, execution and bookkeeping of one slot. */
    method RunSlot(before: CampaignFile, i: nat, fates: seq<Fate>, start: nat)
      returns (state: CampaignFile, at: nat, stop: Option<Ending>)
      requires Valid() && file == Some(before) && !AnyStarted(before.slots)
      requires i < |before.slots| && before.slots[i].NotStarted? && FinishedCount(before.slots) >= i
      modifies this
      ensures Valid() && old(executed) <= executed && file.Some? && SamePlan(before, file.value)
      ensures stop.Some? ==> !stop.value.Refused? && !stop.value.Summary?
      ensures stop.None? ==> file == Some(state) && at == start + 7
      ensures stop.None? <==> Plain(fates, start)
      ensures SlotEnds(before, i, fates, start, stop, file, executed)
    {
      FinishedCountIs(before.slots, i);
      FinishedOrStarted(before.slots, i);
      InterruptsSplit(fates, start, 2, 7);
      state, at := before.(slots := before.slots[i := Started], phase := Running), start;
      stop := Save(state, fates, at);
      if stop.Some? { return; }
      state, stop := RunAdmitted(before, i, fates, at);
      SlotAgrees(before, i, fates, at, stop, file, executed);
      at := at + 7;
    }

    /** The admitted slot: what is guarded by the exception handler. */
    method RunAdmitted(before: CampaignFile, i: nat, fates: seq<Fate>, start: nat)
      returns (state: CampaignFile, stop: Option<Ending>)
      requires i < |before.slots| && executed == Prefix(i) && FirstInterrupt(fates, start, 7) >= 2
      requires file == Some(before.(slots := before.slots[i := Started], phase := Running))
      modifies this
      ensures stop.None? ==> file == Some(state)
      ensures SlotEnds(before, i, fates, start, stop, file, executed)
    {
      InsideOrReturned(fates, start);
      state := file.value;
      var marked;
      stop, marked := Execute(i, fates, start + 2);
      if stop == Some(Killed) {
        InsideEnds(before, i, fates, start, stop, file, executed);
        return;
      }
      if stop == Some(Propagated) {
        stop := RunRaised(before, i, fates, start, marked);
        return;
      }
      state, stop := RunReturned(before, i, stop, fates, start);
    }

    /** The case returned: its outcome is recorded in memory, then saved. */
    method RunReturned(before: CampaignFile, i: nat, decided: Option<Ending>, fates: seq<Fate>, start: nat)
      returns (state: CampaignFile, stop: Option<Ending>)
      requires i < |before.slots| && executed == Prefix(i + 1) && file == Some(Admitted(before, i))
      requires FirstInterrupt(fates, start, 7) == 4 + FirstInterrupt(fates, start + 4, 3)
      requires decided == if StopsAt(fates, start) then Some(Stopped) else None
      modifies this`file, this`temporary
      ensures stop.None? ==> file == Some(state)
      ensures SlotEnds(before, i, fates, start, stop, file, executed)
    {
      state := file.value.(slots := before.slots[i := Finished], phase := if decided.Some? then Blocked else Running);
      stop := RecordOutcome(state, decided, fates, start + 4);
      ReturnedEnds(before, i, fates, start, stop, file, executed);
    }

    /** The case, or setting it up, raised. */
    method RunRaised(before: CampaignFile, i: nat, fates: seq<Fate>, start: nat, marked: bool)
      returns (stop: Option<Ending>)
      requires i < |before.slots| && 2 <= FirstInterrupt(fates, start, 7) <= 3 && file == Some(Admitted(before, i))
      requires var k := FirstInterrupt(fates, start, 7);
               var fate := NextFate(fates, start + k);
               !fate.Dies? && executed == Prefix(if k == 2 then i else i + 1)
               && (marked <==> k == 3 && fate == Raises(true))
      modifies this`file, this`temporary
      ensures SlotEnds(before, i, fates, start, stop, file, executed)
    {
      var state := file.value;
      if marked { state := state.(slots := before.slots[i := Finished]); }
      stop := HandleError(state, fates, start + 4);
      InsideEnds(before, i, fates, start, stop, file, executed);
    }

    /** Saves a finished slot; an error in the save or the report after it goes to the handler. */
    method RecordOutcome(state: CampaignFile, decided: Option<Ending>, fates: seq<Fate>, at: nat)
      returns (stop: Option<Ending>)
      modifies this`file, this`temporary
      ensures OutcomeRecorded(old(file), state, decided, fates, at, stop, file)
    {
      InterruptsSplit(fates, at, 2, 3);
      var saved := Save(state, fates, at);
      if saved == Some(Killed) { return saved; }
      if saved.Some? || NextFate(fates, at + 2).Raises? {
        stop := HandleError(state, fates, at + 3);
        return;
      }
      return if NextFate(fates, at + 2).Dies? then Some(Killed) else decided;
    }

    /** Builds the adapter and runs the case: Killed, Propagated (it raised), Stopped, or nothing to stop for. */
    method Execute(i: nat, fates: seq<Fate>, at: nat) returns (stop: Option<Ending>, marked: bool)
      requires executed == Prefix(i)
      modifies this`executed
      ensures executed == Prefix(i) || executed == Prefix(i + 1)
      ensures stop.None? || stop == Some(Stopped) || marked ==> executed == Prefix(i + 1)
      ensures stop.Some? ==> stop.value.Killed? || stop.value.Propagated? || stop.value.Stopped?
      ensures executed == Prefix(if Interrupts(NextFate(fates, at)) then i else i + 1)
      ensures (stop, marked)
              == match FirstInterrupt(fates, at, 2)
                 case 2 => (if NextFate(fates, at + 1) == Returns(true) then Some(Stopped) else None, false)
                 case k => (Cut(NextFate(fates, at + k)), k == 1 && NextFate(fates, at + k) == Raises(true))
    {
      var setup := NextFate(fates, at);
      if setup.Dies? { return Some(Killed), false; }
      if setup.Raises? { return Some(Propagated), false; }
      executed := executed + [i];
      assert executed == Prefix(i + 1);
      var outcome := NextFate(fates, at + 1);
      if outcome.Dies? { return Some(Killed), false; }
      if outcome.Raises? { return Some(Propagated), outcome.marked; }
      return if outcome.Returns? && outcome.stop then Some(Stopped) else None, false;
    }

    /** The exception handler: the campaign is saved as blocked with whatever the slot's state is, and the error
        re-raised. */
    method HandleError(state: CampaignFile, fates: seq<Fate>, at: nat) returns (stop: Option<Ending>)
      modifies this`file, this`temporary
      ensures old(Valid()) && Consistent(Some(state.(phase := Blocked)), executed) ==> Valid()
      ensures Handled(old(file), state, fates, at, stop, file)
    {
      var saved := Save(state.(phase := Blocked), fates, at);
      return if saved.Some? then saved else Some(Propagated);
    }
  }

  /** What an existing file, or none, makes the process refuse. */
  predicate Refuses(file: Option<CampaignFile>, freeze: nat, resume: bool) {
    match file
    case None => resume
    case Some(saved) => saved.freeze != freeze || AnyStarted(saved.slots) || (!saved.phase.Complete? && !resume)
  }

  predicate AlreadyComplete(file: Option<CampaignFile>) { file.Some? && file.value.phase.Complete? }

  function Fresh(freeze: nat, slots: nat): CampaignFile { CampaignFile(freeze, Ready, seq(slots, _ => NotStarted)) }

  function Remaining(plan: CampaignFile): nat { |plan.slots| - FinishedCount(plan.slots) }

  /** None of the `n` points from `from` on is interrupted. */
  predicate Quiet(fates: seq<Fate>, from: nat, n: nat) {
    forall at: nat :: from <= at < from + n ==> !Interrupts(NextFate(fates, at))
  }

  /** The file after `ran` more slots: the finished ones come first, the rest has not been started. */
  function Reached(initial: CampaignFile, ran: nat): CampaignFile {
    var done := FinishedCount(initial.slots) + ran;
    CampaignFile(initial.freeze, if ran == 0 then initial.phase else Running,
                 seq(|initial.slots|, k => if k < done then Finished else NotStarted))
  }

  lemma ReachedAtFirst(initial: CampaignFile)
    requires WellShaped(initial.slots) && !AnyStarted(initial.slots)
    ensures Reached(initial, 0) == initial
  {
  }

  lemma ReachedFacts(initial: CampaignFile, ran: nat)
    requires ran <= Remaining(initial)
    ensures var slots := Reached(initial, ran).slots;
            FinishedCount(slots) == FinishedCount(initial.slots) + ran && WellShaped(slots) && !AnyStarted(slots)
  {
    FinishedCountIs(Reached(initial, ran).slots, FinishedCount(initial.slots) + ran);
  }

  /** Between two slots: `ran` slots have finished since the process started, and none is left before `i`. */
  predicate Between(initial: CampaignFile, state: CampaignFile, i: nat, ran: nat) {
    i <= |state.slots| && state == Reached(initial, ran) && i <= FinishedCount(initial.slots) + ran
    && (ran > 0 ==> i == FinishedCount(initial.slots) + ran)
  }

  lemma BetweenSlots(initial: CampaignFile, state: CampaignFile, i: nat, ran: nat)
    requires Between(initial, state, i, ran) && i < |state.slots| && state.slots[i].NotStarted?
    ensures i == FinishedCount(initial.slots) + ran && ran < Remaining(initial)
    ensures FinishedCount(state.slots) == i && WellShaped(state.slots) && !AnyStarted(state.slots)
  {
    ReachedFacts(initial, ran);
  }

  lemma BetweenSkips(initial: CampaignFile, state: CampaignFile, i: nat, ran: nat)
    requires Between(initial, state, i, ran) && i < |state.slots| && !state.slots[i].NotStarted?
    ensures Between(initial, state, i + 1, ran)
  {
  }

  lemma AllReached(initial: CampaignFile, state: CampaignFile, ran: nat, executed: seq<nat>)
    requires Between(initial, state, |state.slots|, ran) && ran <= Remaining(initial)
    requires Consistent(Some(state), executed)
    ensures ran == Remaining(initial) && FinishedCount(state.slots) == |state.slots|
    ensures executed == Prefix(|state.slots|)
  {
    ReachedFacts(initial, ran);
  }

  /** Each slot passes seven points: two of the admission's save, setup, execution, two of the save of the outcome, and
      the report. */
  function SlotStart(start: nat, slot: nat): nat { start + 7 * slot }

  /** The slot admitted at point `at` ends in a stop decision. */
  predicate StopsAt(fates: seq<Fate>, at: nat) { NextFate(fates, at + 3) == Returns(true) }

  /** Where the first of `n` points is that is interrupted. */
  function FirstInterrupt(fates: seq<Fate>, at: nat, n: nat): (k: nat)
    ensures k <= n && (k < n ==> Interrupts(NextFate(fates, at + k)))
    ensures forall j: nat :: at <= j < at + k ==> !Interrupts(NextFate(fates, j))
    decreases n
  {
    if n == 0 || Interrupts(NextFate(fates, at)) then 0 else 1 + FirstInterrupt(fates, at + 1, n - 1)
  }

  /** How the first interruption within `n` points ends what was going on, if there is one. */
  function CutWithin(fates: seq<Fate>, at: nat, n: nat): (ending: Option<Ending>)
    ensures ending.None? <==> Quiet(fates, at, n)
  {
    var k := FirstInterrupt(fates, at, n);
    assert k < n ==> Interrupts(NextFate(fates, at + k));
    if k < n then Cut(NextFate(fates, at + k)) else None
  }

  lemma {:induction false} InterruptsSplit(fates: seq<Fate>, at: nat, m: nat, n: nat)
    requires m <= n
    ensures var first := FirstInterrupt(fates, at, m);
            FirstInterrupt(fates, at, n) == if first < m then first else m + FirstInterrupt(fates, at + m, n - m)
    decreases m
  {
    if m > 0 && !Interrupts(NextFate(fates, at)) { InterruptsSplit(fates, at + 1, m - 1, n - 1); }
  }

  /** A slot that is admitted is interrupted before its case has returned, or later. */
  lemma InsideOrReturned(fates: seq<Fate>, at: nat)
    requires FirstInterrupt(fates, at, 7) >= 2
    ensures FirstInterrupt(fates, at, 7)
            == if FirstInterrupt(fates, at + 2, 2) < 2 then 2 + FirstInterrupt(fates, at + 2, 2)
               else 4 + FirstInterrupt(fates, at + 4, 3)
  {
    InterruptsSplit(fates, at, 2, 7);
    InterruptsSplit(fates, at + 2, 2, 5);
  }

  /** What one slot leaves, whatever happens at its points: nothing before it is admitted; then the slot is started on
      disk until its outcome is saved.  After an exception the handler saves it as blocked: finished if the case had
      returned or was marked finished, and otherwise still started. */
  predicate SlotEnds(before: CampaignFile, i: nat, fates: seq<Fate>, at: nat, stop: Option<Ending>,
                     file: Option<CampaignFile>, executed: seq<nat>)
    requires i < |before.slots|
  {
    var k, stops := FirstInterrupt(fates, at, 7), StopsAt(fates, at);
    var fate := NextFate(fates, at + k);
    var started, finished := before.slots[i := Started], before.slots[i := Finished];
    var admitted := before.(slots := started, phase := Running);
    var recorded := before.(slots := finished, phase := if stops then Blocked else Running);
    executed == Prefix(if k <= 2 then i else i + 1)
    && if k < 2 then file == Some(before) && stop == Some(if fate.Dies? then Killed else Propagated)
       else if k == 7 then file == Some(recorded) && stop == if stops then Some(Stopped) else None
       else if fate.Dies? then file == Some(if k == 6 then recorded else admitted) && stop == Some(Killed)
       else
         var over := k >= 4 || fate == Raises(true);
         if Quiet(fates, if k <= 3 then at + 4 else at + 7, 2) then
           stop == Some(Propagated)
           && file == Some(before.(slots := if over && k != 2 then finished else started, phase := Blocked))
         else
           file == Some(if k == 6 then recorded else admitted) && (stop == Some(Killed) || stop == Some(Propagated))
  }

  /** Whatever happens to a slot, file and executions agree afterwards. */
  lemma SlotAgrees(before: CampaignFile, i: nat, fates: seq<Fate>, at: nat, stop: Option<Ending>,
                   file: Option<CampaignFile>, executed: seq<nat>)
    requires i < |before.slots| && before.slots[i].NotStarted? && FinishedCount(before.slots) == i
    requires WellShaped(before.slots) && !before.phase.Complete?
    requires SlotEnds(before, i, fates, at, stop, file, executed)
    ensures file.Some? && SamePlan(before, file.value) && Consistent(file, executed) && Prefix(i) <= executed
    ensures stop.Some? ==> !stop.value.Refused? && !stop.value.Summary?
    ensures stop.None? <==> Plain(fates, at)
  {
    FinishedOrStarted(before.slots, i);
  }

  /** After an exception the campaign is saved as blocked; if that save is interrupted too, the file stays as it was. */
  predicate Handled(was: Option<CampaignFile>, state: CampaignFile, fates: seq<Fate>, at: nat, stop: Option<Ending>,
                    file: Option<CampaignFile>) {
    if Quiet(fates, at, 2) then stop == Some(Propagated) && file == Some(state.(phase := Blocked))
    else file == was && (stop == Some(Killed) || stop == Some(Propagated))
  }

  function Admitted(before: CampaignFile, i: nat): CampaignFile
    requires i < |before.slots|
  {
    before.(slots := before.slots[i := Started], phase := Running)
  }

  function Recorded(before: CampaignFile, i: nat, stops: bool): CampaignFile
    requires i < |before.slots|
  {
    before.(slots := before.slots[i := Finished], phase := if stops then Blocked else Running)
  }

  /** An interruption before the case has returned. */
  lemma InsideEnds(before: CampaignFile, i: nat, fates: seq<Fate>, at: nat, stop: Option<Ending>,
                   file: Option<CampaignFile>, executed: seq<nat>)
    requires i < |before.slots| && 2 <= FirstInterrupt(fates, at, 7) <= 3
    requires var k := FirstInterrupt(fates, at, 7);
             var fate, admitted := NextFate(fates, at + k), Admitted(before, i);
             executed == Prefix(if k == 2 then i else i + 1)
             && if fate.Dies? then file == Some(admitted) && stop == Some(Killed)
                else
                  var state := if k == 3 && fate == Raises(true)
                               then admitted.(slots := before.slots[i := Finished]) else admitted;
                  Handled(Some(admitted), state, fates, at + 4, stop, file)
    ensures SlotEnds(before, i, fates, at, stop, file, executed)
  {
  }

  /** The case has returned. */
  lemma ReturnedEnds(before: CampaignFile, i: nat, fates: seq<Fate>, at: nat, stop: Option<Ending>,
                     file: Option<CampaignFile>, executed: seq<nat>)
    requires i < |before.slots| && FirstInterrupt(fates, at, 7) >= 4 && executed == Prefix(i + 1)
    requires FirstInterrupt(fates, at, 7) == 4 + FirstInterrupt(fates, at + 4, 3)
    requires var stops := StopsAt(fates, at);
             OutcomeRecorded(Some(Admitted(before, i)), Recorded(before, i, stops),
                             if stops then Some(Stopped) else None, fates, at + 4, stop, file)
    ensures SlotEnds(before, i, fates, at, stop, file, executed)
  {
  }

  /** The part of it from the save of the outcome on. */
  predicate OutcomeRecorded(was: Option<CampaignFile>, state: CampaignFile, decided: Option<Ending>, fates: seq<Fate>,
                            at: nat, stop: Option<Ending>, file: Option<CampaignFile>) {
    var k := FirstInterrupt(fates, at, 3);
    var fate, last := NextFate(fates, at + k), if k >= 2 then Some(state) else was;
    if k == 3 then stop == decided && file == Some(state)
    else if fate.Dies? then stop == Some(Killed) && file == last
    else Handled(last, state, fates, at + 3, stop, file)
  }

  /** Nothing interrupts the slot and nothing in its outcome stops the campaign. */
  predicate Plain(fates: seq<Fate>, at: nat) { FirstInterrupt(fates, at, 7) == 7 && !StopsAt(fates, at) }

  /** How many of `n` slots are plain before the first that is not. */
  function FirstOdd(fates: seq<Fate>, start: nat, n: nat): (odd: nat)
    ensures odd <= n && (odd < n ==> !Plain(fates, SlotStart(start, odd)))
    ensures forall k: nat :: k < odd ==> Plain(fates, SlotStart(start, k))
  {
    if n == 0 then 0
    else
      var before := FirstOdd(fates, start, n - 1);
      if before == n - 1 && Plain(fates, SlotStart(start, n - 1)) then n else before
  }

  /** What a process leaves that found the file `initial`: the plain slots run, one after another, and then either the
      first other one ends as its points say, or the campaign is saved as complete. */
  predicate EndsAs(initial: CampaignFile, fates: seq<Fate>, start: nat, ending: Ending, file: Option<CampaignFile>,
                   executed: seq<nat>) {
    var n := Remaining(initial);
    var ran := FirstOdd(fates, start, n);
    var reached, at := Reached(initial, ran), SlotStart(start, ran);
    if ran < n then
      SlotEnds(reached, FinishedCount(initial.slots) + ran, fates, at, Some(ending), file, executed)
    else
      executed == Prefix(|initial.slots|)
      && if Quiet(fates, at, 2) then ending.Summary? && file == Some(reached.(phase := Complete))
         else file == Some(reached) && (ending.Killed? || ending.Propagated?)
  }

  lemma EndsThere(initial: CampaignFile, fates: seq<Fate>, start: nat, ran: nat, ending: Ending,
                  file: Option<CampaignFile>, executed: seq<nat>)
    requires ran == FirstOdd(fates, start, Remaining(initial)) < Remaining(initial)
    requires SlotEnds(Reached(initial, ran), FinishedCount(initial.slots) + ran, fates, SlotStart(start, ran),
                      Some(ending), file, executed)
    ensures EndsAs(initial, fates, start, ending, file, executed)
  {
  }

  lemma EndsAsFacts(initial: CampaignFile, fates: seq<Fate>, start: nat, ending: Ending, file: Option<CampaignFile>,
                    executed: seq<nat>)
    requires EndsAs(initial, fates, start, ending, file, executed)
    ensures file.Some? && SamePlan(initial, file.value) && !ending.Refused?
    ensures ending.Summary? ==> file.value.phase.Complete? && executed == Prefix(|file.value.slots|)
  {
  }

  lemma EndsComplete(initial: CampaignFile, fates: seq<Fate>, start: nat, ending: Ending, file: Option<CampaignFile>,
                     executed: seq<nat>)
    requires FirstOdd(fates, start, Remaining(initial)) == Remaining(initial) && executed == Prefix(|initial.slots|)
    requires var n := Remaining(initial);
             var reached := Reached(initial, n);
             if Quiet(fates, SlotStart(start, n), 2) then ending.Summary? && file == Some(reached.(phase := Complete))
             else file == Some(reached) && (ending.Killed? || ending.Propagated?)
    ensures EndsAs(initial, fates, start, ending, file, executed)
  {
  }

  /** `ran` slots have run, all of them plain, and the process is at the point where the next one starts. */
  predicate Underway(initial: CampaignFile, fates: seq<Fate>, start: nat, ran: nat, at: nat) {
    at == SlotStart(start, ran) && ran <= FirstOdd(fates, start, Remaining(initial))
  }

  lemma NextSlot(fates: seq<Fate>, start: nat, n: nat, ran: nat, at: nat)
    requires at == SlotStart(start, ran) && ran <= FirstOdd(fates, start, n) && ran < n
    ensures if Plain(fates, at) then ran + 1 <= FirstOdd(fates, start, n) else ran == FirstOdd(fates, start, n)
  {
  }

  lemma SlotReaches(initial: CampaignFile, ran: nat, fates: seq<Fate>, start: nat, n: nat, state: CampaignFile,
                    executed: seq<nat>)
    requires n == Remaining(initial) && ran < n
    requires SlotEnds(Reached(initial, ran), FinishedCount(initial.slots) + ran, fates, SlotStart(start, ran), None,
                      Some(state), executed)
    ensures Plain(fates, SlotStart(start, ran)) && state == Reached(initial, ran + 1)
  {
  }

  // ---------------------------------------------------------------- what that means for whole processes

  /** Nothing interrupts the slots up to the first stop decision, nor the closing save when there is none. */
  predicate Undisturbed(fates: seq<Fate>, start: nat, n: nat) {
    var ran := FirstOdd(fates, start, n);
    Quiet(fates, SlotStart(start, ran), if ran < n then 7 else 2)
  }

  /** An undisturbed process runs the remaining slots in order: up to the first whose outcome stops it, or all. */
  lemma UndisturbedRunsOut(initial: CampaignFile, fates: seq<Fate>, start: nat, ending: Ending,
                           file: Option<CampaignFile>, executed: seq<nat>)
    requires EndsAs(initial, fates, start, ending, file, executed) && Undisturbed(fates, start, Remaining(initial))
    ensures var ran := FirstOdd(fates, start, Remaining(initial));
            file.Some?
            && if ran < Remaining(initial) then
                 StopsAt(fates, SlotStart(start, ran)) && ending.Stopped? && file.value.phase.Blocked?
                 && executed == Prefix(FinishedCount(initial.slots) + ran + 1)
                 && file.value.slots == Reached(initial, ran + 1).slots
               else ending.Summary? && file.value.phase.Complete? && executed == Prefix(|initial.slots|)
  {
  }

  /** An exception is raised in the slot once it is admitted, and nothing interrupts its handler. */
  predicate RaisesHandled(fates: seq<Fate>, at: nat) {
    var k := FirstInterrupt(fates, at, 7);
    2 <= k < 7 && NextFate(fates, at + k).Raises? && Quiet(fates, if k <= 3 then at + 4 else at + 7, 2)
  }

  /** Its case had returned, or had been marked finished. */
  predicate CaseWasOver(fates: seq<Fate>, at: nat) {
    var k := FirstInterrupt(fates, at, 7);
    k >= 4 || (k == 3 && NextFate(fates, at + 3) == Raises(true))
  }

  /** The file a handled exception leaves: blocked, with the slots before it finished, its own slot finished exactly
      when its case was over, and no other started. */
  predicate LeftBlocked(initial: CampaignFile, ran: nat, over: bool, file: CampaignFile) {
    var slot := FinishedCount(initial.slots) + ran;
    SamePlan(initial, file) && file.phase.Blocked? && slot < |file.slots|
    && forall k :: 0 <= k < |file.slots| ==>
         file.slots[k] == if k < slot then Finished else if k > slot then NotStarted
                          else if over then Finished else Started
  }

  lemma ExceptionBlocks(initial: CampaignFile, fates: seq<Fate>, start: nat, ending: Ending,
                        file: Option<CampaignFile>, executed: seq<nat>)
    requires EndsAs(initial, fates, start, ending, file, executed)
    requires FirstOdd(fates, start, Remaining(initial)) < Remaining(initial)
    requires RaisesHandled(fates, SlotStart(start, FirstOdd(fates, start, Remaining(initial))))
    ensures var ran := FirstOdd(fates, start, Remaining(initial));
            ending.Propagated? && file.Some?
            && LeftBlocked(initial, ran, CaseWasOver(fates, SlotStart(start, ran)), file.value)
  {
  }

  /** Such a file is taken up again exactly when the case was over. */
  lemma BlockedResumes(initial: CampaignFile, ran: nat, over: bool, file: CampaignFile)
    requires LeftBlocked(initial, ran, over, file)
    ensures Refuses(Some(file), initial.freeze, true) <==> !over
    ensures over ==> FinishedCount(file.slots) == FinishedCount(initial.slots) + ran + 1
  {
    var slot := FinishedCount(initial.slots) + ran;
    if over { FinishedCountIs(file.slots, slot + 1); } else { assert file.slots[slot].Started?; }
  }

  function PlanOf(file: Option<CampaignFile>, p: Process): CampaignFile {
    if file.Some? then file.value else Fresh(p.freeze, p.slots)
  }

  function FirstPoint(file: Option<CampaignFile>): nat { if file.Some? then 0 else 2 }

  /** One process ends in a handled exception and another one resumes: it refuses exactly when the slot's case was not
      over, and otherwise goes on with the slot after it. */
  method RaiseThenResume(disk: Disk, first: Process, second: Process)
    returns (raised: Ending, ghost between: CampaignFile, ending: Ending)
    requires disk.Valid() && !Refuses(disk.file, first.freeze, first.resume) && !AlreadyComplete(disk.file)
    requires disk.file.None? ==> Quiet(first.fates, 0, 2)
    requires var (plan, start) := (PlanOf(disk.file, first), FirstPoint(disk.file));
             var ran := FirstOdd(first.fates, start, Remaining(plan));
             ran < Remaining(plan) && RaisesHandled(first.fates, SlotStart(start, ran))
    requires second.freeze == first.freeze && second.resume
    modifies disk
    ensures var (plan, start) := (PlanOf(old(disk.file), first), FirstPoint(old(disk.file)));
            var ran := FirstOdd(first.fates, start, Remaining(plan));
            var over := CaseWasOver(first.fates, SlotStart(start, ran));
            raised.Propagated? && LeftBlocked(plan, ran, over, between) && (ending.Refused? <==> !over)
            && if over then EndsAs(between, second.fates, 0, ending, disk.file, disk.executed)
               else disk.file == Some(between)
  {
    ghost var (plan, start) := (PlanOf(disk.file, first), FirstPoint(disk.file));
    ghost var ran := FirstOdd(first.fates, start, Remaining(plan));
    raised := disk.Campaign(first.freeze, first.slots, first.resume, first.fates);
    ExceptionBlocks(plan, first.fates, start, raised, disk.file, disk.executed);
    between := disk.file.value;
    BlockedResumes(plan, ran, CaseWasOver(first.fates, SlotStart(start, ran)), between);
    ending := disk.Campaign(second.freeze, second.slots, second.resume, second.fates);
  }

  predicate SamePlan(before: CampaignFile, after: CampaignFile) {
    |after.slots| == |before.slots| && after.freeze == before.freeze
  }

  datatype Process = Process(freeze: nat, slots: nat, resume: bool, fates: seq<Fate>)

  /** Any number of processes, one after another on the same disk: no slot is ever executed twice, and once a slot is on
      disk as started nothing is executed again. */
  method History(disk: Disk, processes: seq<Process>)
    requires disk.Valid()
    modifies disk
    ensures disk.Valid() && old(disk.executed) <= disk.executed
    ensures old(disk.file).Some? && AnyStarted(old(disk.file).value.slots) ==>
              disk.file == old(disk.file) && disk.executed == old(disk.executed)
  {
    var i := 0;
    while i < |processes|
      invariant i <= |processes| && disk.Valid() && old(disk.executed) <= disk.executed
      invariant old(disk.file).Some? && AnyStarted(old(disk.file).value.slots) ==>
                  disk.file == old(disk.file) && disk.executed == old(disk.executed)
    {
      var p := processes[i];
      var ending := disk.Campaign(p.freeze, p.slots, p.resume, p.fates);
      i := i + 1;
    }
  }

  predicate Interrupts(fate: Fate) { fate.Dies? || fate.Raises? }

  function Cut(fate: Fate): (ending: Option<Ending>)
    ensures ending.Some? <==> Interrupts(fate)
  {
    if fate.Dies? then Some(Killed) else if fate.Raises? then Some(Propagated) else None
  }

  function NextFate(fates: seq<Fate>, at: nat): Fate { if at < |fates| then fates[at] else Dies }

  /** Finishing the first unfinished slot of a well-shaped file extends the finished run by exactly one. */
  lemma FinishedOrStarted(slots: seq<SlotState>, i: nat)
    requires WellShaped(slots) && i < |slots| && slots[i].NotStarted? && FinishedCount(slots) == i
    ensures WellShaped(slots[i := Finished]) && FinishedCount(slots[i := Finished]) == i + 1
    ensures !AnyStarted(slots[i := Finished])
    ensures WellShaped(slots[i := Started]) && FinishedCount(slots[i := Started]) == i
  {
    FinishedCountIs(slots[i := Finished], i + 1);
    FinishedCountIs(slots[i := Started], i);
  }
}
