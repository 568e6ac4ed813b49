/** The offline validator's relation checks over exported trial, attempt and grade records. */
module Records {
  import opened Options
  import M = SchedulerModel

  datatype TrialRecord = TrialRecord(id: nat, run: nat, task: nat, repeat: nat, selected: Option<nat>)
  datatype GradeRecord = GradeRecord(
    id: nat, attempt: nat, state: M.GradeState, result: Option<M.GradeResult>, reward: Option<real>)
  datatype AttemptRecord = AttemptRecord(id: nat, trial: nat, number: nat, grade: Option<nat>,
                                         gradeState: Option<M.GradeState>, gradeResult: Option<M.GradeResult>)

  /** What a run's specification plans: every task, `repeats` times each, with bounded retries. */
  datatype Plan = Plan(tasks: set<nat>, repeats: nat, maxAttempts: nat)
  type Plans = map<nat, Plan>

  datatype RecordError =
    | DuplicateIdentity
    | UnknownRun
    | OffPlan
    | Denominator
    | GradeInvalid
    | UnknownTrial
    | RetryBound
    | DuplicateNumber
    | SequenceGap
    | NotLastAttempt
    | ForeignGrade

  predicate DistinctTrials(trials: seq<TrialRecord>) {
    forall i, j :: 0 <= i < j < |trials| ==> trials[i].id != trials[j].id
  }

  predicate DistinctAttempts(attempts: seq<AttemptRecord>) {
    forall i, j :: 0 <= i < j < |attempts| ==> attempts[i].id != attempts[j].id
  }

  predicate DistinctGrades(grades: seq<GradeRecord>) {
    forall i, j :: 0 <= i < j < |grades| ==> grades[i].id != grades[j].id
  }

  // ---------------------------------------------------------------- what the checks demand

  predicate TrialKnown(trials: seq<TrialRecord>, id: nat) {
    exists t :: 0 <= t < |trials| && trials[t].id == id
  }

  /** The attempt belongs to a recorded trial and its number is within that trial's retry bound. */
  predicate AttemptPlaced(trials: seq<TrialRecord>, plans: Plans, a: AttemptRecord) {
    exists t :: 0 <= t < |trials| && trials[t].id == a.trial && trials[t].run in plans
                && 1 <= a.number <= plans[trials[t].run].maxAttempts
  }

  /** The trial is one of its run's planned cells. */
  predicate TrialPlanned(plans: Plans, trial: TrialRecord) {
    trial.run in plans && trial.task in plans[trial.run].tasks && trial.repeat < plans[trial.run].repeats
  }

  /** Of the run's trials no two share a cell. */
  predicate CellsDistinct(trials: seq<TrialRecord>, r: nat) {
    forall i, j :: 0 <= i < j < |trials| && trials[i].run == r && trials[j].run == r
                   ==> (trials[i].task, trials[i].repeat) != (trials[j].task, trials[j].repeat)
  }

  predicate HasCell(trials: seq<TrialRecord>, r: nat, task: nat, repeat: nat) {
    exists t :: 0 <= t < |trials| && trials[t].run == r && trials[t].task == task && trials[t].repeat == repeat
  }

  /** The run's trials are its planned denominator: within the quota, every cell exactly once. */
  ghost predicate PlanCovered(trials: seq<TrialRecord>, r: nat, plan: Plan) {
    |plan.tasks| * plan.repeats <= M.MAX_TRIALS && CellsDistinct(trials, r)
    && (forall t :: 0 <= t < |trials| && trials[t].run == r
           ==> trials[t].task in plan.tasks && trials[t].repeat < plan.repeats)
    && forall task, repeat: nat :: task in plan.tasks && repeat < plan.repeats ==> HasCell(trials, r, task, repeat)
  }

  /** Some attempt of the trial carries this number. */
  predicate HasNumber(attempts: seq<AttemptRecord>, trial: nat, number: nat) {
    exists i :: 0 <= i < |attempts| && attempts[i].trial == trial && attempts[i].number == number
  }

  predicate NumbersDistinct(attempts: seq<AttemptRecord>, trial: nat) {
    forall i, j :: 0 <= i < j < |attempts| && attempts[i].trial == trial && attempts[j].trial == trial
                   ==> attempts[i].number != attempts[j].number
  }

  /** The trial's attempts are numbered exactly 1..n. */
  predicate NumbersRunTo(attempts: seq<AttemptRecord>, trial: nat, n: nat) {
    (forall k :: 1 <= k <= n ==> HasNumber(attempts, trial, k))
    && forall i :: 0 <= i < |attempts| && attempts[i].trial == trial ==> 1 <= attempts[i].number <= n
  }

  /** The trial selects the attempt numbered n, or nothing when it has none. */
  predicate SelectsNumber(attempts: seq<AttemptRecord>, trial: TrialRecord, n: nat) {
    if n == 0 then trial.selected.None?
    else exists i :: 0 <= i < |attempts| && attempts[i].trial == trial.id && attempts[i].number == n
                     && trial.selected == Some(attempts[i].id)
  }

  ghost predicate HistoryOk(attempts: seq<AttemptRecord>, trial: TrialRecord) {
    NumbersDistinct(attempts, trial.id)
    && exists n: nat :: NumbersRunTo(attempts, trial.id, n) && SelectsNumber(attempts, trial, n)
  }

  predicate GradeOwned(grades: seq<GradeRecord>, a: AttemptRecord) {
    a.grade.Some? ==> exists g :: 0 <= g < |grades| && grades[g].id == a.grade.value && grades[g].attempt == a.id
  }

  predicate AttemptKnown(attempts: seq<AttemptRecord>, id: nat) {
    exists a :: 0 <= a < |attempts| && attempts[a].id == id
  }

  /** A graded row carries a reward and the verdict it means; any other row carries neither. */
  predicate VerdictOk(g: GradeRecord) {
    if g.state.Graded? then
      g.reward.Some? && 0.0 <= g.reward.value <= 1.0
        && g.result == Some(if g.reward.value == 1.0 then M.Pass else M.Fail)
    else g.result.None? && g.reward.None?
  }

  predicate GradeOk(attempts: seq<AttemptRecord>, g: GradeRecord) { AttemptKnown(attempts, g.attempt) && VerdictOk(g) }

  ghost predicate RelationsHold(
    trials: seq<TrialRecord>, attempts: seq<AttemptRecord>, grades: seq<GradeRecord>, plans: Plans)
  {
    Identified(trials, attempts, grades) && RowsPlanned(trials, plans) && AttemptsRight(trials, attempts, plans)
    && GradesRight(attempts, grades)
  }

  predicate Identified(trials: seq<TrialRecord>, attempts: seq<AttemptRecord>, grades: seq<GradeRecord>) {
    DistinctTrials(trials) && DistinctAttempts(attempts) && DistinctGrades(grades)
  }

  ghost predicate RowsPlanned(trials: seq<TrialRecord>, plans: Plans) {
    (forall t :: 0 <= t < |trials| ==> TrialPlanned(plans, trials[t]))
    && (forall r :: r in plans ==> PlanCovered(trials, r, plans[r]))
  }

  ghost predicate AttemptsRight(trials: seq<TrialRecord>, attempts: seq<AttemptRecord>, plans: Plans) {
    (forall a :: 0 <= a < |attempts| ==> AttemptPlaced(trials, plans, attempts[a]))
    && (forall t :: 0 <= t < |trials| ==> HistoryOk(attempts, trials[t]))
  }

  ghost predicate GradesRight(attempts: seq<AttemptRecord>, grades: seq<GradeRecord>) {
    (forall g :: 0 <= g < |grades| ==> GradeOk(attempts, grades[g]))
    && (forall a :: 0 <= a < |attempts| ==> GradeOwned(grades, attempts[a]))
  }

  // ---------------------------------------------------------------- the checks as the reader makes them

  type Groups = map<nat, map<nat, nat>>

  /** `per_trial` after reading a prefix of the attempts: number to identity, trial by trial. */
  ghost predicate GroupsMirror(groups: Groups, attempts: seq<AttemptRecord>) {
    (forall i :: 0 <= i < |attempts| ==> attempts[i].trial in groups && attempts[i].number in groups[attempts[i].trial]
                                         && groups[attempts[i].trial][attempts[i].number] == attempts[i].id)
    && (forall t, k :: t in groups && k in groups[t] ==> HasNumber(attempts, t, k))
    && (forall t :: t in groups ==> groups[t] != map[])
    && (forall t :: NumbersDistinct(attempts, t))
  }

  /** set(range(1, n + 1)). */
  function OneTo(n: nat): (numbers: set<nat>)
    ensures forall k: nat :: k in numbers <==> 1 <= k <= n
  {
    if n == 0 then {} else OneTo(n - 1) + {n}
  }

  method LargestKey(group: map<nat, nat>) returns (largest: nat)
    requires group != map[]
    ensures largest in group && forall k :: k in group ==> k <= largest
  {
    var rest := group.Keys;
    largest :| largest in rest;
    rest := rest - {largest};
    while rest != {}
      invariant rest <= group.Keys && largest in group
      invariant forall k :: k in group && k !in rest ==> k <= largest
      decreases |rest|
    {
      var k :| k in rest;
      rest := rest - {k};
      if k > largest { largest := k; }
    }
  }

  lemma GroupNumbers(groups: Groups, attempts: seq<AttemptRecord>, trial: nat)
    requires GroupsMirror(groups, attempts) && trial in groups
    ensures forall k :: HasNumber(attempts, trial, k) <==> k in groups[trial]
  {
    forall k ensures HasNumber(attempts, trial, k) <==> k in groups[trial] {
      if k in groups[trial] { assert HasNumber(attempts, trial, k); }
    }
  }

  lemma LargestEndsHistory(groups: Groups, attempts: seq<AttemptRecord>, trial: TrialRecord, n: nat)
    requires GroupsMirror(groups, attempts) && trial.id in groups
    requires groups[trial.id].Keys == OneTo(n) && n in groups[trial.id] && trial.selected == Some(groups[trial.id][n])
    ensures HistoryOk(attempts, trial)
  {
    GroupNumbers(groups, attempts, trial.id);
    assert HasNumber(attempts, trial.id, n);
    var i :| 0 <= i < |attempts| && attempts[i].trial == trial.id && attempts[i].number == n;
    assert NumbersRunTo(attempts, trial.id, n) && SelectsNumber(attempts, trial, n);
  }

  lemma HistoryEndsAtLargest(groups: Groups, attempts: seq<AttemptRecord>, trial: TrialRecord, n: nat)
    requires GroupsMirror(groups, attempts) && trial.id in groups && HistoryOk(attempts, trial)
    requires n in groups[trial.id] && forall k :: k in groups[trial.id] ==> k <= n
    requires forall i :: 0 <= i < |attempts| ==> attempts[i].number >= 1
    ensures groups[trial.id].Keys == OneTo(n) && trial.selected == Some(groups[trial.id][n])
  {
    GroupNumbers(groups, attempts, trial.id);
    var m: nat :| NumbersRunTo(attempts, trial.id, m) && SelectsNumber(attempts, trial, m);
    assert HasNumber(attempts, trial.id, n) && n <= m;
    assert m > 0 ==> HasNumber(attempts, trial.id, m);
    assert m == n;
    assert groups[trial.id].Keys == OneTo(n);
  }

  lemma SelectsLargest(groups: Groups, attempts: seq<AttemptRecord>, trial: TrialRecord, n: nat)
    requires GroupsMirror(groups, attempts) && trial.id in groups
    requires n in groups[trial.id] && forall k :: k in groups[trial.id] ==> k <= n
    requires forall i :: 0 <= i < |attempts| ==> attempts[i].number >= 1
    ensures HistoryOk(attempts, trial) <==>
              groups[trial.id].Keys == OneTo(n) && trial.selected == Some(groups[trial.id][n])
  {
    if groups[trial.id].Keys == OneTo(n) && trial.selected == Some(groups[trial.id][n]) {
      LargestEndsHistory(groups, attempts, trial, n);
    }
    if HistoryOk(attempts, trial) { HistoryEndsAtLargest(groups, attempts, trial, n); }
  }

  lemma NothingSelected(groups: Groups, attempts: seq<AttemptRecord>, trial: TrialRecord)
    requires GroupsMirror(groups, attempts) && trial.id !in groups
    ensures HistoryOk(attempts, trial) <==> trial.selected.None?
  {
    assert forall i :: 0 <= i < |attempts| ==> attempts[i].trial != trial.id;
    if trial.selected.None? {
      assert NumbersRunTo(attempts, trial.id, 0) && SelectsNumber(attempts, trial, 0);
    }
    if HistoryOk(attempts, trial) {
      var m: nat :| NumbersRunTo(attempts, trial.id, m) && SelectsNumber(attempts, trial, m);
      assert HasNumber(attempts, trial.id, m) ==> m == 0;
    }
  }

  method UniqueTrials(trials: seq<TrialRecord>) returns (byId: map<nat, TrialRecord>, ok: bool)
    ensures ok <==> DistinctTrials(trials)
    ensures ok ==> Indexed(trials, byId)
  {
    byId := map[];
    var i := 0;
    while i < |trials|
      invariant i <= |trials| && DistinctTrials(trials[..i])
      invariant forall t :: 0 <= t < i ==> trials[t].id in byId && byId[trials[t].id] == trials[t]
      invariant forall id :: id in byId ==> exists t :: 0 <= t < i && trials[t] == byId[id] && trials[t].id == id
    {
      if trials[i].id in byId { return byId, false; }
      byId := byId[trials[i].id := trials[i]];
      i := i + 1;
    }
    assert trials[..i] == trials;
    return byId, true;
  }

  method UniqueGrades(grades: seq<GradeRecord>) returns (byId: map<nat, GradeRecord>, ok: bool)
    ensures ok <==> DistinctGrades(grades)
    ensures ok ==> GradesIndexed(grades, byId)
  {
    byId := map[];
    var i := 0;
    while i < |grades|
      invariant i <= |grades| && DistinctGrades(grades[..i])
      invariant forall g :: 0 <= g < i ==> grades[g].id in byId && byId[grades[g].id] == grades[g]
      invariant forall id :: id in byId ==> exists g :: 0 <= g < i && grades[g] == byId[id] && grades[g].id == id
    {
      if grades[i].id in byId { return byId, false; }
      byId := byId[grades[i].id := grades[i]];
      i := i + 1;
    }
    assert grades[..i] == grades;
    return byId, true;
  }

  method UniqueAttempts(attempts: seq<AttemptRecord>) returns (ok: bool)
    ensures ok <==> DistinctAttempts(attempts)
  {
    var seen: set<nat> := {};
    var i := 0;
    while i < |attempts|
      invariant i <= |attempts| && DistinctAttempts(attempts[..i])
      invariant forall id :: id in seen <==> exists a :: 0 <= a < i && attempts[a].id == id
    {
      if attempts[i].id in seen { return false; }
      seen := seen + {attempts[i].id};
      i := i + 1;
    }
    assert attempts[..i] == attempts;
    return true;
  }

  predicate Indexed(trials: seq<TrialRecord>, byId: map<nat, TrialRecord>) {
    (forall t :: 0 <= t < |trials| ==> trials[t].id in byId && byId[trials[t].id] == trials[t])
    && (forall id :: id in byId ==> exists t :: 0 <= t < |trials| && trials[t] == byId[id] && trials[t].id == id)
  }

  predicate GradesIndexed(grades: seq<GradeRecord>, byId: map<nat, GradeRecord>) {
    (forall g :: 0 <= g < |grades| ==> grades[g].id in byId && byId[grades[g].id] == grades[g])
    && (forall id :: id in byId ==> exists g :: 0 <= g < |grades| && grades[g] == byId[id] && grades[g].id == id)
  }

  method Placement(trials: seq<TrialRecord>, byId: map<nat, TrialRecord>, plans: Plans, row: AttemptRecord)
    returns (error: Option<RecordError>)
    requires Indexed(trials, byId) && DistinctTrials(trials)
    requires forall t :: 0 <= t < |trials| ==> trials[t].run in plans
    ensures error.None? <==> AttemptPlaced(trials, plans, row)
    ensures error.None? ==> TrialKnown(trials, row.trial)
  {
    if row.trial !in byId { return Some(UnknownTrial); }
    if !(1 <= row.number <= plans[byId[row.trial].run].maxAttempts) { return Some(RetryBound); }
    return None;
  }

  lemma RepeatedNumber(groups: Groups, attempts: seq<AttemptRecord>, i: nat)
    requires i < |attempts| && GroupsMirror(groups, attempts[..i])
    requires attempts[i].trial in groups && attempts[i].number in groups[attempts[i].trial]
    ensures !NumbersDistinct(attempts, attempts[i].trial)
  {
    assert HasNumber(attempts[..i], attempts[i].trial, attempts[i].number);
  }

  /** Places every attempt and groups the numbers by trial, stopping at the first misplaced or repeated one. */
  method GroupAttempts(trials: seq<TrialRecord>, byId: map<nat, TrialRecord>, attempts: seq<AttemptRecord>,
                       plans: Plans) returns (groups: Groups, error: Option<RecordError>)
    requires Indexed(trials, byId) && DistinctTrials(trials)
    requires forall t :: 0 <= t < |trials| ==> trials[t].run in plans
    ensures error.None? ==> GroupsMirror(groups, attempts)
                            && forall a :: 0 <= a < |attempts| ==> AttemptPlaced(trials, plans, attempts[a])
    ensures error.Some? ==> (exists a :: 0 <= a < |attempts| && !AttemptPlaced(trials, plans, attempts[a]))
                            || exists t :: 0 <= t < |trials| && !NumbersDistinct(attempts, trials[t].id)
  {
    groups := map[];
    var i := 0;
    while i < |attempts|
      invariant i <= |attempts| && GroupsMirror(groups, attempts[..i]) && PlacedUpTo(trials, plans, attempts, i)
    {
      error := Placement(trials, byId, plans, attempts[i]);
      if error.Some? { return; }
      var more;
      more, error := AddToGroup(groups, attempts, i);
      if error.Some? {
        RepeatIsOfSomeTrial(trials, attempts, i);
        return;
      }
      groups, i := more, i + 1;
    }
    assert attempts[..i] == attempts;
    return groups, None;
  }

  ghost predicate PlacedUpTo(trials: seq<TrialRecord>, plans: Plans, attempts: seq<AttemptRecord>, i: nat)
    requires i <= |attempts|
  {
    forall a :: 0 <= a < i ==> AttemptPlaced(trials, plans, attempts[a])
  }

  lemma RepeatIsOfSomeTrial(trials: seq<TrialRecord>, attempts: seq<AttemptRecord>, i: nat)
    requires i < |attempts| && TrialKnown(trials, attempts[i].trial) && !NumbersDistinct(attempts, attempts[i].trial)
    ensures exists t :: 0 <= t < |trials| && !NumbersDistinct(attempts, trials[t].id)
  {
    var t :| 0 <= t < |trials| && trials[t].id == attempts[i].trial;
    assert !NumbersDistinct(attempts, trials[t].id);
  }

  /** One attempt joins its trial's group unless its number is taken. */
  method AddToGroup(groups: Groups, attempts: seq<AttemptRecord>, i: nat)
    returns (more: Groups, error: Option<RecordError>)
    requires i < |attempts| && GroupsMirror(groups, attempts[..i])
    ensures error.None? ==> GroupsMirror(more, attempts[..i + 1])
    ensures error.Some? ==> !NumbersDistinct(attempts, attempts[i].trial)
  {
    var row := attempts[i];
    var group := if row.trial in groups then groups[row.trial] else map[];
    if row.number in group {
      RepeatedNumber(groups, attempts, i);
      return groups, Some(DuplicateNumber);
    }
    MirrorGrows(groups, attempts[..i], row);
    assert attempts[..i + 1] == attempts[..i] + [row];
    return groups[row.trial := group[row.number := row.id]], None;
  }

  method CheckHistories(trials: seq<TrialRecord>, attempts: seq<AttemptRecord>, groups: Groups)
    returns (error: Option<RecordError>)
    requires GroupsMirror(groups, attempts) && forall a :: 0 <= a < |attempts| ==> attempts[a].number >= 1
    ensures error.None? <==> forall t :: 0 <= t < |trials| ==> HistoryOk(attempts, trials[t])
  {
    var t := 0;
    while t < |trials|
      invariant t <= |trials| && forall u :: 0 <= u < t ==> HistoryOk(attempts, trials[u])
    {
      var trial := trials[t];
      if trial.id in groups {
        var largest := LargestKey(groups[trial.id]);
        SelectsLargest(groups, attempts, trial, largest);
        if groups[trial.id].Keys != OneTo(largest) { return Some(SequenceGap); }
        if trial.selected != Some(groups[trial.id][largest]) { return Some(NotLastAttempt); }
      } else {
        NothingSelected(groups, attempts, trial);
        if trial.selected.Some? { return Some(NotLastAttempt); }
      }
      t := t + 1;
    }
    return None;
  }

  method CheckGrades(attempts: seq<AttemptRecord>, grades: seq<GradeRecord>, byId: map<nat, GradeRecord>)
    returns (error: Option<RecordError>)
    requires DistinctGrades(grades) && GradesIndexed(grades, byId)
    ensures error.None? <==> forall a :: 0 <= a < |attempts| ==> GradeOwned(grades, attempts[a])
  {
    var i := 0;
    while i < |attempts|
      invariant i <= |attempts| && forall a :: 0 <= a < i ==> GradeOwned(grades, attempts[a])
    {
      if attempts[i].grade.Some? {
        var id := attempts[i].grade.value;
        if id !in byId || byId[id].attempt != attempts[i].id {
          assert !GradeOwned(grades, attempts[i]);
          return Some(ForeignGrade);
        }
      }
      i := i + 1;
    }
    return None;
  }

  // ---------------------------------------------------------------- the planned denominators

  type Cell = (nat, nat)

  function Repeats(n: nat): (repeats: set<nat>)
    ensures forall k: nat :: k in repeats <==> k < n
  {
    if n == 0 then {} else Repeats(n - 1) + {n - 1}
  }

  function PlannedCells(plan: Plan): (cells: set<Cell>)
    ensures forall task: nat, k: nat :: (task, k) in cells <==> task in plan.tasks && k < plan.repeats
  {
    set task, k | task in plan.tasks && k in Repeats(plan.repeats) :: (task, k)
  }

  /** The run's trials read so far: how many they are and which cells they name. */
  ghost predicate Tallied(trials: seq<TrialRecord>, r: nat, count: nat, cells: set<Cell>) {
    |cells| <= count && (|cells| == count <==> CellsDistinct(trials, r))
    && forall task: nat, k: nat :: (task, k) in cells <==> HasCell(trials, r, task, k)
  }

  lemma HasCellOne(trials: seq<TrialRecord>, row: TrialRecord, r: nat)
    ensures forall task: nat, k: nat :: HasCell(trials + [row], r, task, k)
                              <==> HasCell(trials, r, task, k) || (row.run == r && row.task == task && row.repeat == k)
  {
    var all := trials + [row];
    assert all[|trials|] == row && forall t :: 0 <= t < |trials| ==> all[t] == trials[t];
    forall task: nat, k: nat | HasCell(trials, r, task, k) ensures HasCell(all, r, task, k) {
      var t :| 0 <= t < |trials| && trials[t].run == r && trials[t].task == task && trials[t].repeat == k;
      assert all[t] == trials[t];
    }
  }

  lemma DistinctOne(trials: seq<TrialRecord>, row: TrialRecord, r: nat)
    ensures CellsDistinct(trials + [row], r)
            <==> CellsDistinct(trials, r) && (row.run == r ==> !HasCell(trials, r, row.task, row.repeat))
  {
    var all := trials + [row];
    assert all[|trials|] == row && forall t :: 0 <= t < |trials| ==> all[t] == trials[t];
    if CellsDistinct(all, r) {
      forall i, j | 0 <= i < j < |trials| && trials[i].run == r && trials[j].run == r
        ensures (trials[i].task, trials[i].repeat) != (trials[j].task, trials[j].repeat)
      {
        assert all[i] == trials[i] && all[j] == trials[j];
      }
    }
  }

  lemma TallyOne(trials: seq<TrialRecord>, row: TrialRecord, r: nat, count: nat, cells: set<Cell>)
    requires Tallied(trials, r, count, cells)
    ensures row.run == r ==> Tallied(trials + [row], r, count + 1, cells + {(row.task, row.repeat)})
    ensures row.run != r ==> Tallied(trials + [row], r, count, cells)
  {
    HasCellOne(trials, row, r);
    DistinctOne(trials, row, r);
  }

  /** One run's denominator: `len(actual) == len(planned)` and `set(actual) == planned`, within the quota. */
  method CheckPlan(trials: seq<TrialRecord>, r: nat, plan: Plan) returns (error: Option<RecordError>)
    ensures error.None? <==> PlanCovered(trials, r, plan)
  {
    if |plan.tasks| * plan.repeats > M.MAX_TRIALS { return Some(Denominator); }
    var planned := PlannedCells(plan);
    var count, cells := 0, {};
    for t := 0 to |trials|
      invariant Tallied(trials[..t], r, count, cells)
    {
      TallyOne(trials[..t], trials[t], r, count, cells);
      assert trials[..t + 1] == trials[..t] + [trials[t]];
      if trials[t].run == r { count, cells := count + 1, cells + {(trials[t].task, trials[t].repeat)}; }
    }
    assert trials[..|trials|] == trials;
    CoverageMeaning(trials, r, plan, count, cells);
    return if count != |planned| || cells != planned then Some(Denominator) else None;
  }

  lemma CoverageMeaning(trials: seq<TrialRecord>, r: nat, plan: Plan, count: nat, cells: set<Cell>)
    requires Tallied(trials, r, count, cells) && |plan.tasks| * plan.repeats <= M.MAX_TRIALS
    ensures PlanCovered(trials, r, plan) <==> count == |PlannedCells(plan)| && cells == PlannedCells(plan)
  {
    var planned := PlannedCells(plan);
    if PlanCovered(trials, r, plan) {
      forall task: nat, k: nat ensures (task, k) in cells <==> (task, k) in planned {
        if HasCell(trials, r, task, k) {
          var t :| 0 <= t < |trials| && trials[t].run == r && trials[t].task == task && trials[t].repeat == k;
        }
      }
      forall c ensures c in cells <==> c in planned { assert (c.0, c.1) in cells <==> (c.0, c.1) in planned; }
    }
    if cells == planned {
      forall t | 0 <= t < |trials| && trials[t].run == r ensures trials[t].task in plan.tasks
             && trials[t].repeat < plan.repeats {
        assert HasCell(trials, r, trials[t].task, trials[t].repeat);
        assert (trials[t].task, trials[t].repeat) in cells;
      }
    }
  }

  method CheckPlans(trials: seq<TrialRecord>, plans: Plans) returns (error: Option<RecordError>)
    ensures error.None? <==> forall r :: r in plans ==> PlanCovered(trials, r, plans[r])
  {
    var left := plans.Keys;
    while left != {}
      invariant left <= plans.Keys && forall r :: r in plans && r !in left ==> PlanCovered(trials, r, plans[r])
    {
      var r :| r in left;
      error := CheckPlan(trials, r, plans[r]);
      if error.Some? { return; }
      left := left - {r};
    }
    return None;
  }

  /** The grade rows: a known attempt, and a verdict that is the reward's. */
  method CheckGradeRows(attempts: seq<AttemptRecord>, grades: seq<GradeRecord>) returns (error: Option<RecordError>)
    ensures error.None? <==> forall g :: 0 <= g < |grades| ==> GradeOk(attempts, grades[g])
  {
    for g := 0 to |grades|
      invariant forall h :: 0 <= h < g ==> GradeOk(attempts, grades[h])
    {
      var row := grades[g];
      if !AttemptKnown(attempts, row.attempt) { return Some(ForeignGrade); }
      if row.state.Graded? {
        if row.reward.None? || !(0.0 <= row.reward.value <= 1.0) { return Some(GradeInvalid); }
        if row.result != Some(if row.reward.value == 1.0 then M.Pass else M.Fail) { return Some(GradeInvalid); }
      } else if row.result.Some? || row.reward.Some? {
        return Some(GradeInvalid);
      }
    }
    return None;
  }

  // ---------------------------------------------------------------- all of them

  /** The trial rows: each a planned cell of a recorded run. */
  method CheckTrials(trials: seq<TrialRecord>, plans: Plans) returns (error: Option<RecordError>)
    ensures error.None? <==> forall t :: 0 <= t < |trials| ==> TrialPlanned(plans, trials[t])
  {
    for t := 0 to |trials|
      invariant forall u :: 0 <= u < t ==> TrialPlanned(plans, trials[u])
    {
      if trials[t].run !in plans { return Some(UnknownRun); }
      if !TrialPlanned(plans, trials[t]) { return Some(OffPlan); }
    }
    return None;
  }

  /** The attempt rows, in place and numbered. */
  method CheckAttempts(trials: seq<TrialRecord>, byId: map<nat, TrialRecord>, attempts: seq<AttemptRecord>,
                       plans: Plans)
    returns (error: Option<RecordError>)
    requires Indexed(trials, byId) && DistinctTrials(trials)
    requires forall t :: 0 <= t < |trials| ==> trials[t].run in plans
    ensures error.None? <==> AttemptsRight(trials, attempts, plans)
  {
    var groups, misplaced := GroupAttempts(trials, byId, attempts, plans);
    if misplaced.Some? {
      assert forall u :: 0 <= u < |trials| && !NumbersDistinct(attempts, trials[u].id)
                ==> !HistoryOk(attempts, trials[u]);
      return misplaced;
    }
    forall a | 0 <= a < |attempts| ensures attempts[a].number >= 1 { assert AttemptPlaced(trials, plans, attempts[a]); }
    error := CheckHistories(trials, attempts, groups);
  }

  /** The relation part of `read_results`: None when every check passes. */
  method CheckRelations(trials: seq<TrialRecord>, attempts: seq<AttemptRecord>, grades: seq<GradeRecord>, plans: Plans)
    returns (error: Option<RecordError>)
    ensures error.None? <==> RelationsHold(trials, attempts, grades, plans)
  {
    var trialById, distinctTrials := UniqueTrials(trials);
    var distinctAttempts := UniqueAttempts(attempts);
    var gradeById, distinctGrades := UniqueGrades(grades);
    if !distinctTrials || !distinctAttempts || !distinctGrades { return Some(DuplicateIdentity); }
    error := CheckRows(trials, plans);
    if error.Some? { return; }
    error := CheckAttempts(trials, trialById, attempts, plans);
    if error.Some? { return; }
    error := CheckAllGrades(attempts, grades, gradeById);
  }

  method CheckRows(trials: seq<TrialRecord>, plans: Plans) returns (error: Option<RecordError>)
    ensures error.None? <==> RowsPlanned(trials, plans)
  {
    error := CheckTrials(trials, plans);
    if error.Some? { return; }
    error := CheckPlans(trials, plans);
  }

  method CheckAllGrades(attempts: seq<AttemptRecord>, grades: seq<GradeRecord>, byId: map<nat, GradeRecord>)
    returns (error: Option<RecordError>)
    requires GradesIndexed(grades, byId) && DistinctGrades(grades)
    ensures error.None? <==> GradesRight(attempts, grades)
  {
    error := CheckGradeRows(attempts, grades);
    if error.Some? { return; }
    error := CheckGrades(attempts, grades, byId);
  }

  lemma MirrorGrows(groups: Groups, attempts: seq<AttemptRecord>, row: AttemptRecord)
    requires GroupsMirror(groups, attempts)
    requires row.trial in groups ==> row.number !in groups[row.trial]
    ensures var group := if row.trial in groups then groups[row.trial] else map[];
            GroupsMirror(groups[row.trial := group[row.number := row.id]], attempts + [row])
  {
    var group := if row.trial in groups then groups[row.trial] else map[];
    var grown := groups[row.trial := group[row.number := row.id]];
    var all := attempts + [row];
    assert all[|attempts|] == row;
    forall i | 0 <= i < |all| ensures all[i].trial in grown && all[i].number in grown[all[i].trial]
                                      && grown[all[i].trial][all[i].number] == all[i].id
    {
      assert i < |attempts| ==> all[i] == attempts[i];
    }
    assert HasNumber(all, row.trial, row.number);
    forall t, k | t in grown && k in grown[t] ensures HasNumber(all, t, k) {
      if t in groups && k in groups[t] {
        assert HasNumber(attempts, t, k);
        var i :| 0 <= i < |attempts| && attempts[i].trial == t && attempts[i].number == k;
        assert all[i] == attempts[i];
      }
    }
    forall t ensures NumbersDistinct(all, t) {
      assert NumbersDistinct(attempts, t);
      forall i, j | 0 <= i < j < |all| && all[i].trial == t
             && all[j].trial == t ensures all[i].number != all[j].number {
        assert all[i] == attempts[i];
        assert j < |attempts| ==> all[j] == attempts[j];
      }
    }
  }

  /** In accepted records every graded row carries a reward within 0..1 and passes exactly with the full one, a trial's
      attempts stay within its run's bound, and an authoritative grade is one of the attempt's own. */
  lemma AcceptedRowsMean(trials: seq<TrialRecord>, attempts: seq<AttemptRecord>, grades: seq<GradeRecord>, plans: Plans)
    requires RelationsHold(trials, attempts, grades, plans)
    ensures forall g :: g in grades ==>
              (exists a :: a in attempts && a.id == g.attempt)
              && (g.state == M.Graded ==> g.reward.Some? && 0.0 <= g.reward.value <= 1.0 && g.result.Some?
                                          && (g.result == Some(M.Pass) <==> g.reward == Some(1.0)))
              && (g.state != M.Graded ==> g.reward.None? && g.result.None?)
    ensures forall a :: a in attempts ==>
              (exists t :: t in trials && t.id == a.trial && t.run in plans
                           && 1 <= a.number <= plans[t.run].maxAttempts)
              && (a.grade.Some? ==> exists g :: g in grades && g.id == a.grade.value && g.attempt == a.id)
    ensures forall t :: t in trials ==>
              t.run in plans && t.task in plans[t.run].tasks && t.repeat < plans[t.run].repeats
  {
    forall g | g in grades ensures exists a :: a in attempts && a.id == g.attempt {
      var i :| 0 <= i < |grades| && grades[i] == g;
      assert GradeOk(attempts, grades[i]);
      var k :| 0 <= k < |attempts| && attempts[k].id == g.attempt;
      assert attempts[k] in attempts;
    }
    forall a | a in attempts
      ensures exists t :: t in trials && t.id == a.trial && t.run in plans && 1 <= a.number <= plans[t.run].maxAttempts
      ensures a.grade.Some? ==> exists g :: g in grades && g.id == a.grade.value && g.attempt == a.id
    {
      var i :| 0 <= i < |attempts| && attempts[i] == a;
      assert AttemptPlaced(trials, plans, attempts[i]) && GradeOwned(grades, attempts[i]);
      var k :| 0 <= k < |trials| && trials[k].id == a.trial && trials[k].run in plans
               && 1 <= a.number <= plans[trials[k].run].maxAttempts;
      assert trials[k] in trials;
      if a.grade.Some? {
        var g :| 0 <= g < |grades| && grades[g].id == a.grade.value && grades[g].attempt == a.id;
        assert grades[g] in grades;
      }
    }
  }
}
