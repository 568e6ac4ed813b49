/** The A/B comparison report: selection, task clusters, the paired difference and its bootstrap interval. */
module PairedReport {
  import opened Options
  import M = SchedulerModel
  import opened Records
  import opened Maps

  type Key = Cell
  datatype Score = Score(pass: nat, scored: bool)
  type Cells = map<Key, Score>

  datatype ReportError = DuplicateAttempt | DuplicateKey | NotLast | ForeignSelection | Denominators | Oversized

  // ---------------------------------------------------------------- counting passes

  predicate Scored(a: AttemptRecord) {
    a.gradeState == Some(M.Graded) && a.gradeResult.Some?
  }

  /** The attempt a trial selected, as `by_id.get(selected_attempt_id)` finds it. */
  predicate SelectedPasses(attempts: seq<AttemptRecord>, trial: TrialRecord) {
    exists i :: 0 <= i < |attempts| && trial.selected == Some(attempts[i].id) && Scored(attempts[i])
                && attempts[i].gradeResult == Some(M.Pass)
  }

  predicate SelectedScored(attempts: seq<AttemptRecord>, trial: TrialRecord) {
    exists i :: 0 <= i < |attempts| && trial.selected == Some(attempts[i].id) && Scored(attempts[i])
  }

  /** `passed` of `compute_metrics`: the planned trials whose selected attempt is graded a pass. */
  function Passed(trials: seq<TrialRecord>, attempts: seq<AttemptRecord>): nat {
    if trials == [] then 0
    else Passed(trials[..|trials| - 1], attempts)
         + (if SelectedPasses(attempts, trials[|trials| - 1]) then 1 else 0)
  }

  /** The planned trials that pass. */
  function PassingTrials(trials: seq<TrialRecord>, attempts: seq<AttemptRecord>): set<nat> {
    set t | 0 <= t < |trials| && SelectedPasses(attempts, trials[t])
  }

  /** The pass count is the number of planned trials whose selected attempt is graded a pass. */
  lemma {:induction false} PassedCountsTrials(trials: seq<TrialRecord>, attempts: seq<AttemptRecord>)
    ensures Passed(trials, attempts) == |PassingTrials(trials, attempts)|
    decreases |trials|
  {
    if trials != [] {
      var shorter := trials[..|trials| - 1];
      PassedCountsTrials(shorter, attempts);
      var last := if SelectedPasses(attempts, trials[|trials| - 1]) then {|trials| - 1 as nat} else {};
      assert PassingTrials(trials, attempts) == PassingTrials(shorter, attempts) + last;
    }
  }

  ghost function SumPass(cells: Cells, keys: set<Key>): nat
    requires keys <= cells.Keys
    decreases |keys|
  {
    if keys == {} then 0 else var k :| k in keys; cells[k].pass + SumPass(cells, keys - {k})
  }

  /** The sum does not depend on the order the keys are visited in. */
  lemma {:induction false} SumPassRemove(cells: Cells, keys: set<Key>, k: Key)
    requires keys <= cells.Keys && k in keys
    ensures SumPass(cells, keys) == cells[k].pass + SumPass(cells, keys - {k})
    decreases |keys|
  {
    var first :| first in keys && SumPass(cells, keys) == cells[first].pass + SumPass(cells, keys - {first});
    if first != k {
      SumPassRemove(cells, keys - {first}, k);
      SumPassRemove(cells, keys - {k}, first);
      assert keys - {first} - {k} == keys - {k} - {first};
    }
  }

  lemma {:induction false} SumPassUnion(cells: Cells, left: set<Key>, right: set<Key>)
    requires left <= cells.Keys && right <= cells.Keys && left !! right
    ensures SumPass(cells, left + right) == SumPass(cells, left) + SumPass(cells, right)
    decreases |left|
  {
    if left == {} {
      assert left + right == right;
    } else {
      var k :| k in left;
      SumPassRemove(cells, left + right, k);
      SumPassRemove(cells, left, k);
      assert left + right - {k} == (left - {k}) + right;
      SumPassUnion(cells, left - {k}, right);
    }
  }

  lemma {:induction false} SumPassAgree(cells: Cells, others: Cells, keys: set<Key>)
    requires keys <= cells.Keys && keys <= others.Keys && forall k :: k in keys ==> cells[k] == others[k]
    ensures SumPass(cells, keys) == SumPass(others, keys)
    decreases |keys|
  {
    if keys != {} {
      var k :| k in keys;
      SumPassRemove(cells, keys, k);
      SumPassRemove(others, keys, k);
      SumPassAgree(cells, others, keys - {k});
    }
  }

  // ---------------------------------------------------------------- selection

  predicate OneCellPerTrial(trials: seq<TrialRecord>) {
    forall i, j :: 0 <= i < j < |trials| ==> (trials[i].task, trials[i].repeat) != (trials[j].task, trials[j].repeat)
  }

  /** The selection of a trial is its attempt with the largest number, and the numbers do not repeat. */
  predicate LastSelected(attempts: seq<AttemptRecord>, trial: TrialRecord) {
    ((exists i :: 0 <= i < |attempts| && attempts[i].trial == trial.id) ==>
       NumbersDistinct(attempts, trial.id)
       && exists i :: 0 <= i < |attempts| && attempts[i].trial == trial.id && trial.selected == Some(attempts[i].id)
                      && forall j :: 0 <= j < |attempts| && attempts[j].trial == trial.id
                                     ==> attempts[j].number <= attempts[i].number)
    && (trial.selected.Some? ==>
          exists i :: 0 <= i < |attempts| && attempts[i].id == trial.selected.value && attempts[i].trial == trial.id)
  }

  predicate Selectable(trials: seq<TrialRecord>, attempts: seq<AttemptRecord>) {
    DistinctAttempts(attempts) && OneCellPerTrial(trials)
    && forall t :: 0 <= t < |trials| ==> LastSelected(attempts, trials[t])
  }

  /** What `selected` returns for an acceptable report. */
  predicate CellsMirror(cells: Cells, trials: seq<TrialRecord>, attempts: seq<AttemptRecord>) {
    (forall t :: 0 <= t < |trials| ==>
       (trials[t].task, trials[t].repeat) in cells
       && cells[(trials[t].task, trials[t].repeat)] == CellOf(attempts, trials[t]))
    && (forall k :: k in cells ==> exists t :: 0 <= t < |trials| && k == (trials[t].task, trials[t].repeat))
  }

  /** Checks one trial's history: None when the selection is its last attempt (or it has neither). */
  method CheckSelection(attempts: seq<AttemptRecord>, trial: TrialRecord) returns (error: Option<ReportError>)
    requires DistinctAttempts(attempts)
    ensures error.None? <==> LastSelected(attempts, trial)
  {
    var best: Option<nat> := None;
    var numbers: set<nat> := {};
    var i := 0;
    while i < |attempts|
      invariant i <= |attempts| && NumbersDistinct(attempts[..i], trial.id)
      invariant forall k :: k in numbers <==> HasNumber(attempts[..i], trial.id, k)
      invariant best.None? <==> forall j :: 0 <= j < i ==> attempts[j].trial != trial.id
      invariant best.Some? ==> best.value < i && attempts[best.value].trial == trial.id
                               && forall j :: 0 <= j < i && attempts[j].trial == trial.id
                                              ==> attempts[j].number <= attempts[best.value].number
    {
      if attempts[i].trial == trial.id {
        if attempts[i].number in numbers {
          assert HasNumber(attempts[..i], trial.id, attempts[i].number);
          assert !NumbersDistinct(attempts, trial.id);
          return Some(NotLast);
        }
        numbers := numbers + {attempts[i].number};
        if best.None? || attempts[i].number > attempts[best.value].number { best := Some(i); }
      }
      assert attempts[..i + 1][..i] == attempts[..i] && attempts[..i + 1][i] == attempts[i];
      NumbersGrow(attempts, i, trial.id);
      i := i + 1;
    }
    assert attempts[..i] == attempts;
    if best.Some? && trial.selected != Some(attempts[best.value].id) { return Some(NotLast); }
    if trial.selected.Some? && best.None? { return Some(ForeignSelection); }
    return None;
  }

  lemma NumbersGrow(attempts: seq<AttemptRecord>, i: nat, trial: nat)
    requires i < |attempts|
    ensures forall k :: HasNumber(attempts[..i + 1], trial, k)
                        <==> HasNumber(attempts[..i], trial, k) || (attempts[i].trial == trial
                                                                    && attempts[i].number == k)
  {
    var before, after := attempts[..i], attempts[..i + 1];
    forall k ensures HasNumber(after, trial, k)
                     <==> HasNumber(before, trial, k) || (attempts[i].trial == trial && attempts[i].number == k)
    {
      if HasNumber(before, trial, k) {
        var j :| 0 <= j < i && before[j].trial == trial && before[j].number == k;
        assert after[j] == before[j];
      }
      if HasNumber(after, trial, k) {
        var j :| 0 <= j <= i && after[j].trial == trial && after[j].number == k;
        if j < i { assert before[j] == after[j]; }
      }
      if attempts[i].trial == trial && attempts[i].number == k { assert after[i] == attempts[i]; }
    }
  }

  /** The `attempts` dictionary of `selected`, as positions. */
  predicate PositionsById(attempts: seq<AttemptRecord>, byId: map<nat, nat>) {
    (forall j :: 0 <= j < |attempts| ==> attempts[j].id in byId)
    && (forall id :: id in byId ==> byId[id] < |attempts| && attempts[byId[id]].id == id)
  }

  method IndexAttempts(attempts: seq<AttemptRecord>) returns (byId: map<nat, nat>)
    ensures PositionsById(attempts, byId)
  {
    byId := map[];
    var i := 0;
    while i < |attempts|
      invariant i <= |attempts|
      invariant forall j :: 0 <= j < i ==> attempts[j].id in byId
      invariant forall id :: id in byId ==> byId[id] < i && attempts[byId[id]].id == id
    {
      byId := byId[attempts[i].id := i];
      i := i + 1;
    }
  }

  function CellOf(attempts: seq<AttemptRecord>, trial: TrialRecord): Score {
    Score(if SelectedPasses(attempts, trial) then 1 else 0, SelectedScored(attempts, trial))
  }

  method TrialCell(attempts: seq<AttemptRecord>, byId: map<nat, nat>, trial: TrialRecord) returns (cell: Score)
    requires DistinctAttempts(attempts) && PositionsById(attempts, byId)
    ensures cell == CellOf(attempts, trial)
  {
    if trial.selected.None? || trial.selected.value !in byId { return Score(0, false); }
    var i := byId[trial.selected.value];
    var attempt := attempts[i];
    var scored := attempt.gradeState == Some(M.Graded) && attempt.gradeResult.Some?;
    return Score(if scored && attempt.gradeResult == Some(M.Pass) then 1 else 0, scored);
  }

  /** One round of `selected`: the trial's cell is added, or the report is refused. */
  method SelectTrial(cells: Cells, attempts: seq<AttemptRecord>, byId: map<nat, nat>, trial: TrialRecord)
    returns (more: Cells, error: Option<ReportError>)
    requires DistinctAttempts(attempts) && PositionsById(attempts, byId)
    ensures error.None? <==> (trial.task, trial.repeat) !in cells && LastSelected(attempts, trial)
    ensures error.None? ==> more == cells[(trial.task, trial.repeat) := CellOf(attempts, trial)]
  {
    if (trial.task, trial.repeat) in cells { return cells, Some(DuplicateKey); }
    error := CheckSelection(attempts, trial);
    if error.Some? { return cells, error; }
    var cell := TrialCell(attempts, byId, trial);
    more := cells[(trial.task, trial.repeat) := cell];
  }

  /** What `selected` has established after the first `t` trials. */
  ghost predicate SelectedSoFar(cells: Cells, trials: seq<TrialRecord>, attempts: seq<AttemptRecord>, t: nat)
    requires t <= |trials|
  {
    |cells| == t && OneCellPerTrial(trials[..t]) && CellsMirror(cells, trials[..t], attempts)
    && SumPass(cells, cells.Keys) == Passed(trials[..t], attempts)
    && forall u :: 0 <= u < t ==> LastSelected(attempts, trials[u])
  }

  lemma SelectedOneMore(cells: Cells, trials: seq<TrialRecord>, attempts: seq<AttemptRecord>, t: nat)
    requires t < |trials| && SelectedSoFar(cells, trials, attempts, t)
    requires (trials[t].task, trials[t].repeat) !in cells && LastSelected(attempts, trials[t])
    ensures SelectedSoFar(cells[(trials[t].task, trials[t].repeat) := CellOf(attempts, trials[t])], trials, attempts,
                          t + 1)
  {
    AddCell(cells, (trials[t].task, trials[t].repeat), CellOf(attempts, trials[t]));
    MirrorGrows(cells, trials, attempts, t);
    PassedGrows(trials, attempts, t);
  }

  lemma SelectionRefused(cells: Cells, trials: seq<TrialRecord>, attempts: seq<AttemptRecord>, t: nat)
    requires t < |trials| && SelectedSoFar(cells, trials, attempts, t)
    requires (trials[t].task, trials[t].repeat) in cells || !LastSelected(attempts, trials[t])
    ensures !Selectable(trials, attempts)
  {
    if (trials[t].task, trials[t].repeat) in cells { RepeatedKey(cells, trials, attempts, t); }
  }

  lemma SelectedAll(cells: Cells, trials: seq<TrialRecord>, attempts: seq<AttemptRecord>)
    requires SelectedSoFar(cells, trials, attempts, |trials|) && DistinctAttempts(attempts)
    ensures Selectable(trials, attempts) && CellsMirror(cells, trials, attempts) && |cells| == |trials|
    ensures SumPass(cells, cells.Keys) == Passed(trials, attempts)
  {
    assert trials[..|trials|] == trials;
  }

  /** `selected`: one cell per planned trial, and as many passes as the metrics count. */
  method Selected(trials: seq<TrialRecord>, attempts: seq<AttemptRecord>)
    returns (cells: Cells, error: Option<ReportError>)
    ensures error.None? <==> Selectable(trials, attempts)
    ensures error.None? ==> CellsMirror(cells, trials, attempts) && |cells| == |trials|
    ensures error.None? ==> SumPass(cells, cells.Keys) == Passed(trials, attempts)
  {
    var distinct := UniqueAttempts(attempts);
    if !distinct { return map[], Some(DuplicateAttempt); }
    var byId := IndexAttempts(attempts);
    cells, error := SelectTrials(trials, attempts, byId);
    if error.None? { SelectedAll(cells, trials, attempts); }
  }

  /** The loop over the planned trials. */
  method SelectTrials(trials: seq<TrialRecord>, attempts: seq<AttemptRecord>, byId: map<nat, nat>)
    returns (cells: Cells, error: Option<ReportError>)
    requires DistinctAttempts(attempts) && PositionsById(attempts, byId)
    ensures error.None? ==> SelectedSoFar(cells, trials, attempts, |trials|)
    ensures error.Some? ==> !Selectable(trials, attempts)
  {
    cells := map[];
    var t := 0;
    while t < |trials|
      invariant t <= |trials| && SelectedSoFar(cells, trials, attempts, t)
    {
      var more, refused := SelectTrial(cells, attempts, byId, trials[t]);
      if refused.Some? {
        SelectionRefused(cells, trials, attempts, t);
        return cells, refused;
      }
      SelectedOneMore(cells, trials, attempts, t);
      cells, t := more, t + 1;
    }
    return cells, None;
  }

  lemma RepeatedKey(cells: Cells, trials: seq<TrialRecord>, attempts: seq<AttemptRecord>, t: nat)
    requires t < |trials| && CellsMirror(cells, trials[..t], attempts) && (trials[t].task, trials[t].repeat) in cells
    ensures !OneCellPerTrial(trials)
  {
    var u :| 0 <= u < t && (trials[t].task, trials[t].repeat) == (trials[..t][u].task, trials[..t][u].repeat);
    assert trials[..t][u] == trials[u];
  }

  lemma PassedGrows(trials: seq<TrialRecord>, attempts: seq<AttemptRecord>, t: nat)
    requires t < |trials|
    ensures Passed(trials[..t + 1], attempts) == Passed(trials[..t], attempts) + CellOf(attempts, trials[t]).pass
  {
    assert trials[..t + 1][..t] == trials[..t];
  }

  lemma MirrorGrows(cells: Cells, trials: seq<TrialRecord>, attempts: seq<AttemptRecord>, t: nat)
    requires t < |trials| && CellsMirror(cells, trials[..t], attempts) && OneCellPerTrial(trials[..t])
    requires (trials[t].task, trials[t].repeat) !in cells
    ensures CellsMirror(cells[(trials[t].task, trials[t].repeat) := CellOf(attempts, trials[t])], trials[..t + 1],
                        attempts)
    ensures OneCellPerTrial(trials[..t + 1])
  {
    var key := (trials[t].task, trials[t].repeat);
    var more, prefix := cells[key := CellOf(attempts, trials[t])], trials[..t + 1];
    forall u | 0 <= u < |prefix|
      ensures (prefix[u].task, prefix[u].repeat) in more
      ensures more[(prefix[u].task, prefix[u].repeat)] == CellOf(attempts, prefix[u])
      ensures u < t ==> (prefix[u].task, prefix[u].repeat) != key
    {
      if u < t { assert trials[..t][u] == prefix[u]; }
    }
    forall k | k in more ensures exists u :: 0 <= u < |prefix| && k == (prefix[u].task, prefix[u].repeat) {
      if k == key { assert prefix[t] == trials[t]; } else {
        var u :| 0 <= u < t && k == (trials[..t][u].task, trials[..t][u].repeat);
        assert prefix[u] == trials[..t][u];
      }
    }
    forall u, v | 0 <= u < v < |prefix| ensures (prefix[u].task, prefix[u].repeat) != (prefix[v].task,
        prefix[v].repeat) {
      if v < t { assert trials[..t][u] == prefix[u] && trials[..t][v] == prefix[v]; }
    }
  }

  lemma AddCell(cells: Cells, key: Key, cell: Score)
    requires key !in cells
    ensures var more := cells[key := cell];
            |more| == |cells| + 1 && SumPass(more, more.Keys) == SumPass(cells, cells.Keys) + cell.pass
  {
    var more := cells[key := cell];
    SumPassRemove(more, more.Keys, key);
    assert more.Keys - {key} == cells.Keys;
    assert |more.Keys| == |cells.Keys| + 1;
    SumPassAgree(more, cells, cells.Keys);
  }

  // ---------------------------------------------------------------- clusters

  datatype Group = Group(delta: int, pairs: nat)

  function SumDelta(groups: seq<Group>): int {
    if groups == [] then 0 else SumDelta(groups[..|groups| - 1]) + groups[|groups| - 1].delta
  }

  function SumPairs(groups: seq<Group>): nat {
    if groups == [] then 0 else SumPairs(groups[..|groups| - 1]) + groups[|groups| - 1].pairs
  }

  predicate Plausible(g: Group) { g.pairs >= 1 && -(g.pairs as int) <= g.delta <= g.pairs }

  function KeysOf(keys: set<Key>, task: nat): set<Key> { set k | k in keys && k.0 == task }

  predicate PassBits(cells: Cells) { forall k :: k in cells ==> cells[k].pass <= 1 }

  /** One task cluster: its summed difference and its number of pairs. */
  method Cluster(left: Cells, right: Cells, task: nat) returns (group: Group, allScored: bool)
    requires left.Keys == right.Keys && PassBits(left) && PassBits(right) && KeysOf(left.Keys, task) != {}
    ensures group == GroupOf(left, right, task) && Plausible(group)
    ensures allScored <==> BothScored(left, right, KeysOf(left.Keys, task))
  {
    var keys := KeysOf(left.Keys, task);
    var rest, delta, pairs, scored := keys, 0, 0, 0;
    while rest != {}
      invariant rest <= keys && pairs == |keys| - |rest| && -pairs <= delta <= pairs && 0 <= scored <= pairs
      invariant delta + SumPass(right, rest) - SumPass(left, rest) == SumPass(right, keys) - SumPass(left, keys)
      invariant scored == pairs <==> forall k :: k in keys && k !in rest ==> left[k].scored && right[k].scored
      decreases |rest|
    {
      var k :| k in rest;
      SumPassRemove(left, rest, k);
      SumPassRemove(right, rest, k);
      delta := delta + right[k].pass - left[k].pass;
      scored := scored + if left[k].scored && right[k].scored then 1 else 0;
      rest, pairs := rest - {k}, pairs + 1;
    }
    return Group(delta, pairs), scored == pairs;
  }

  function TasksOf(keys: set<Key>): set<nat> { set k | k in keys :: k.0 }

  lemma ClusterJoins(cells: Cells, done: set<Key>, keys: set<Key>)
    requires done <= cells.Keys && keys <= cells.Keys && done !! keys
    ensures SumPass(cells, done + keys) == SumPass(cells, done) + SumPass(cells, keys)
            && |done + keys| == |done| + |keys|
  {
    SumPassUnion(cells, done, keys);
  }

  lemma SumsGrow(groups: seq<Group>, g: Group)
    ensures SumDelta(groups + [g]) == SumDelta(groups) + g.delta && SumPairs(groups + [g]) == SumPairs(groups) + g.pairs
  {
    assert (groups + [g])[..|groups|] == groups;
  }

  predicate BothScored(left: Cells, right: Cells, keys: set<Key>)
    requires keys <= left.Keys && keys <= right.Keys
  {
    forall k :: k in keys ==> left[k].scored && right[k].scored
  }

  /** The clusters of the tasks in ascending order, each with its summed difference and its number of pairs. */
  ghost predicate ClustersOf(groups: seq<Group>, left: Cells, right: Cells, tasks: seq<nat>)
    requires left.Keys == right.Keys
  {
    |groups| == |tasks|
    && forall i :: 0 <= i < |tasks| ==> groups[i] == GroupOf(left, right, tasks[i])
  }

  ghost function GroupOf(left: Cells, right: Cells, task: nat): Group
    requires left.Keys == right.Keys
  {
    Group(SumPass(right, KeysOf(left.Keys, task)) - SumPass(left, KeysOf(left.Keys, task)), |KeysOf(left.Keys, task)|)
  }

  /** The pairs of the first tasks. */
  function KeysOfFirst(keys: set<Key>, tasks: seq<nat>): (r: set<Key>)
    ensures r <= keys
  {
    set k | k in keys && k.0 in tasks
  }

  lemma KeysOfOneMore(keys: set<Key>, tasks: seq<nat>, task: nat)
    requires task !in tasks
    ensures KeysOfFirst(keys, tasks + [task]) == KeysOfFirst(keys, tasks) + KeysOf(keys, task)
    ensures KeysOfFirst(keys, tasks) !! KeysOf(keys, task)
  {
  }

  /** What the clusters of some pairs add up to. */
  ghost predicate AddUp(groups: seq<Group>, left: Cells, right: Cells, done: set<Key>)
    requires left.Keys == right.Keys && done <= left.Keys
  {
    SumPairs(groups) == |done| && SumDelta(groups) == SumPass(right, done) - SumPass(left, done)
  }

  ghost predicate AllPlausible(groups: seq<Group>) { forall i :: 0 <= i < |groups| ==> Plausible(groups[i]) }

  ghost predicate ClustersSoFar(groups: seq<Group>, allScored: bool, left: Cells, right: Cells, tasks: seq<nat>)
    requires left.Keys == right.Keys
  {
    var done := KeysOfFirst(left.Keys, tasks);
    ClustersOf(groups, left, right, tasks) && AllPlausible(groups) && AddUp(groups, left, right, done)
    && (allScored <==> BothScored(left, right, done))
  }

  lemma AddUpOneMore(groups: seq<Group>, left: Cells, right: Cells, done: set<Key>, task: nat)
    requires left.Keys == right.Keys && done <= left.Keys && AddUp(groups, left, right, done)
             && done !! KeysOf(left.Keys, task)
    ensures AddUp(groups + [GroupOf(left, right, task)], left, right, done + KeysOf(left.Keys, task))
  {
    var keys := KeysOf(left.Keys, task);
    ClusterJoins(left, done, keys);
    ClusterJoins(right, done, keys);
    SumsGrow(groups, GroupOf(left, right, task));
  }

  lemma ScoredOneMore(left: Cells, right: Cells, done: set<Key>, keys: set<Key>)
    requires left.Keys == right.Keys && done <= left.Keys && keys <= left.Keys
    ensures BothScored(left, right, done + keys) <==> BothScored(left, right, done) && BothScored(left, right, keys)
  {
    forall k | k in done || k in keys ensures k in done + keys {}
  }

  lemma OneMoreCluster(groups: seq<Group>, allScored: bool, left: Cells, right: Cells, tasks: seq<nat>, task: nat,
                       scored: bool)
    requires left.Keys == right.Keys && task !in tasks && ClustersSoFar(groups, allScored, left, right, tasks)
    requires Plausible(GroupOf(left, right, task)) && (scored <==> BothScored(left, right, KeysOf(left.Keys, task)))
    ensures ClustersSoFar(groups + [GroupOf(left, right, task)], allScored && scored, left, right, tasks + [task])
  {
    var done, keys := KeysOfFirst(left.Keys, tasks), KeysOf(left.Keys, task);
    KeysOfOneMore(left.Keys, tasks, task);
    AddUpOneMore(groups, left, right, done, task);
    ScoredOneMore(left, right, done, keys);
    ListOneMore(groups, left, right, tasks, task);
  }

  lemma ListOneMore(groups: seq<Group>, left: Cells, right: Cells, tasks: seq<nat>, task: nat)
    requires left.Keys == right.Keys && ClustersOf(groups, left, right, tasks) && AllPlausible(groups)
    requires Plausible(GroupOf(left, right, task))
    ensures ClustersOf(groups + [GroupOf(left, right, task)], left, right, tasks + [task])
    ensures AllPlausible(groups + [GroupOf(left, right, task)])
  {
  }

  lemma AllClusters(groups: seq<Group>, allScored: bool, left: Cells, right: Cells)
    requires left.Keys == right.Keys
    requires ClustersSoFar(groups, allScored, left, right, SortedKeys(TasksOf(left.Keys)))
    ensures |groups| == |TasksOf(left.Keys)| && SumPairs(groups) == |left.Keys|
    ensures SumDelta(groups) == SumPass(right, right.Keys) - SumPass(left, left.Keys)
    ensures allScored <==> BothScored(left, right, left.Keys)
  {
    assert KeysOfFirst(left.Keys, SortedKeys(TasksOf(left.Keys))) == left.Keys;
    SortedKeysCount(TasksOf(left.Keys));
  }

  /** One round of the task loop. */
  method AddCluster(groups: seq<Group>, allScored: bool, left: Cells, right: Cells, ghost tasks: seq<nat>, task: nat)
    returns (more: seq<Group>, all: bool)
    requires left.Keys == right.Keys && PassBits(left) && PassBits(right) && task in TasksOf(left.Keys)
             && task !in tasks
    requires ClustersSoFar(groups, allScored, left, right, tasks)
    ensures ClustersSoFar(more, all, left, right, tasks + [task])
  {
    SomeKeyOf(left.Keys, task);
    var group, scored := Cluster(left, right, task);
    OneMoreCluster(groups, allScored, left, right, tasks, task, scored);
    return groups + [group], allScored && scored;
  }

  /** All clusters: together they hold every planned pair once, and the difference of the two pass counts. */
  method Clusters(left: Cells, right: Cells) returns (groups: seq<Group>, allScored: bool)
    requires left.Keys == right.Keys && PassBits(left) && PassBits(right)
    ensures ClustersOf(groups, left, right, SortedKeys(TasksOf(left.Keys))) && AllPlausible(groups)
    ensures |groups| == |TasksOf(left.Keys)| && SumPairs(groups) == |left.Keys|
    ensures SumDelta(groups) == SumPass(right, right.Keys) - SumPass(left, left.Keys)
    ensures allScored <==> BothScored(left, right, left.Keys)
  {
    groups, allScored := ClustersOver(left, right, SortedKeys(TasksOf(left.Keys)));
    AllClusters(groups, allScored, left, right);
  }

  /** The task loop. */
  method ClustersOver(left: Cells, right: Cells, tasks: seq<nat>) returns (groups: seq<Group>, allScored: bool)
    requires left.Keys == right.Keys && PassBits(left) && PassBits(right)
    requires forall task :: task in tasks ==> task in TasksOf(left.Keys)
    requires forall j, k :: 0 <= j < k < |tasks| ==> tasks[j] < tasks[k]
    ensures ClustersSoFar(groups, allScored, left, right, tasks)
  {
    groups, allScored := [], true;
    for i := 0 to |tasks|
      invariant ClustersSoFar(groups, allScored, left, right, tasks[..i])
    {
      AscendingIsNew(tasks, i);
      groups, allScored := AddCluster(groups, allScored, left, right, tasks[..i], tasks[i]);
    }
    assert tasks[..|tasks|] == tasks;
  }

  lemma AscendingIsNew(tasks: seq<nat>, i: nat)
    requires i < |tasks| && forall j, k :: 0 <= j < k < |tasks| ==> tasks[j] < tasks[k]
    ensures tasks[i] in tasks && tasks[i] !in tasks[..i] && tasks[..i + 1] == tasks[..i] + [tasks[i]]
  {
  }

  lemma SomeKeyOf(keys: set<Key>, task: nat)
    requires task in TasksOf(keys)
    ensures KeysOf(keys, task) != {}
  {
    var k :| k in keys && k.0 == task;
    assert k in KeysOf(keys, task);
  }

  // ---------------------------------------------------------------- the bootstrap interval

  lemma {:induction false} PlausibleSums(groups: seq<Group>)
    requires forall i :: 0 <= i < |groups| ==> Plausible(groups[i])
    ensures |groups| <= SumPairs(groups) && -(SumPairs(groups) as int) <= SumDelta(groups) <= SumPairs(groups)
  {
    if groups != [] { PlausibleSums(groups[..|groups| - 1]); }
  }

  lemma {:induction false} DrawInRange(delta: int, pairs: nat)
    requires pairs >= 1 && -(pairs as int) <= delta <= pairs
    ensures -1.0 <= delta as real / pairs as real <= 1.0
  {
    var q, n := delta as real / pairs as real, pairs as real;
    assert q * n == delta as real && -n <= q * n <= n;
    assert (1.0 - q) * n >= 0.0 && (q + 1.0) * n >= 0.0;
  }

  predicate Ascending(draws: seq<real>) {
    forall i, j :: 0 <= i <= j < |draws| ==> draws[i] <= draws[j]
  }

  /** `draw` put at position `i`. */
  function Placed(draws: seq<real>, draw: real, i: nat): (more: seq<real>)
    requires i <= |draws|
    ensures |more| == |draws| + 1
  {
    draws[..i] + [draw] + draws[i..]
  }

  lemma PlacedAscends(draws: seq<real>, draw: real, i: nat)
    requires i <= |draws| && Ascending(draws)
    requires (i > 0 ==> draws[i - 1] <= draw) && (i < |draws| ==> draw <= draws[i])
    ensures Ascending(Placed(draws, draw, i))
  {
    var more := Placed(draws, draw, i);
    forall j, k | 0 <= j <= k < |more| ensures more[j] <= more[k] {
      var low := if j < i then draws[j] else if j == i then draw else draws[j - 1];
      var high := if k < i then draws[k] else if k == i then draw else draws[k - 1];
      assert more[j] == low && more[k] == high;
      assert i > 0 && j < i ==> draws[j] <= draws[i - 1];
      assert i < |draws| && k > i ==> draws[i] <= draws[k - 1];
    }
  }

  lemma PlacedAdds(draws: seq<real>, draw: real, i: nat)
    requires i <= |draws|
    ensures multiset(Placed(draws, draw, i)) == multiset(draws) + multiset{draw}
  {
    assert draws == draws[..i] + draws[i..];
  }

  /** Where a draw goes in an ascending list. */
  method Insert(draws: seq<real>, draw: real) returns (more: seq<real>)
    requires Ascending(draws)
    ensures Ascending(more) && multiset(more) == multiset(draws) + multiset{draw} && |more| == |draws| + 1
  {
    var i := |draws|;
    while i > 0 && draws[i - 1] > draw
      invariant 0 <= i <= |draws| && (i < |draws| ==> draw <= draws[i])
    {
      i := i - 1;
    }
    PlacedAscends(draws, draw, i);
    PlacedAdds(draws, draw, i);
    return Placed(draws, draw, i);
  }

  predicate InUnit(draws: seq<real>) { forall i :: 0 <= i < |draws| ==> -1.0 <= draws[i] <= 1.0 }

  lemma StillInUnit(draws: seq<real>, draw: real, more: seq<real>)
    requires InUnit(draws) && -1.0 <= draw <= 1.0 && multiset(more) == multiset(draws) + multiset{draw}
    ensures InUnit(more)
  {
    forall i | 0 <= i < |more| ensures -1.0 <= more[i] <= 1.0 {
      assert more[i] in multiset(more);
      assert more[i] == draw || more[i] in draws;
    }
  }

  /** Resample `n`: as many clusters as there are, each picked by the generator. */
  function Resample(groups: seq<Group>, n: nat, rng: (nat, nat) -> nat): (draw: seq<Group>)
    requires groups != []
    ensures |draw| == |groups| && forall i :: 0 <= i < |draw| ==> draw[i] in groups
  {
    seq(|groups|, i requires 0 <= i < |groups| => groups[rng(n, i) % |groups|])
  }

  /** Every list of as many clusters can be drawn, for each resample independently: positions are picked one by one,
      with replacement. */
  lemma EveryDrawIsPossible(groups: seq<Group>, targets: nat -> seq<Group>) returns (rng: (nat, nat) -> nat)
    requires groups != []
    requires forall n :: |targets(n)| == |groups| && forall i :: 0 <= i < |groups| ==> targets(n)[i] in groups
    ensures forall n :: Resample(groups, n, rng) == targets(n)
  {
    rng := (n: nat, i: nat) => if i < |targets(n)| then FirstAt(groups, targets(n)[i]) else 0;
    forall n: nat ensures Resample(groups, n, rng) == targets(n) {
      assert forall i :: 0 <= i < |groups| ==> rng(n, i) == FirstAt(groups, targets(n)[i]);
      DrawnAsPicked(groups, targets(n), n, rng);
    }
  }

  lemma DrawnAsPicked(groups: seq<Group>, target: seq<Group>, n: nat, rng: (nat, nat) -> nat)
    requires groups != [] && |target| == |groups| && forall i :: 0 <= i < |groups| ==> target[i] in groups
    requires forall i :: 0 <= i < |groups| ==> rng(n, i) == FirstAt(groups, target[i])
    ensures Resample(groups, n, rng) == target
  {
    var draw := Resample(groups, n, rng);
    forall i | 0 <= i < |groups| ensures draw[i] == target[i] {
      SmallRemainder(FirstAt(groups, target[i]), |groups|);
      assert rng(n, i) % |groups| == FirstAt(groups, target[i]);
    }
  }

  lemma SmallRemainder(a: nat, b: nat)
    requires a < b
    ensures a % b == a
  {
  }

  function FirstAt(groups: seq<Group>, g: Group): (i: nat)
    ensures g in groups ==> i < |groups| && groups[i] == g
  {
    if groups == [] || groups[0] == g then 0 else 1 + FirstAt(groups[1..], g)
  }

  function Mean(draw: seq<Group>): real { if SumPairs(draw) == 0 then 0.0
                                         else SumDelta(draw) as real / SumPairs(draw) as real }

  /** The mean of each resample. */
  function MeanAt(groups: seq<Group>, rng: (nat, nat) -> nat): nat -> real
    requires groups != []
  {
    (n: nat) => Mean(Resample(groups, n, rng))
  }

  function Collected(mean: nat -> real, samples: nat): multiset<real> {
    if samples == 0 then multiset{} else Collected(mean, samples - 1) + multiset{mean(samples - 1)}
  }

  /** The means of the first `samples` resamples. */
  function Means(groups: seq<Group>, samples: nat, rng: (nat, nat) -> nat): multiset<real>
    requires groups != []
  {
    Collected(MeanAt(groups, rng), samples)
  }

  lemma MeanInRange(groups: seq<Group>, n: nat, rng: (nat, nat) -> nat)
    requires groups != [] && forall i :: 0 <= i < |groups| ==> Plausible(groups[i])
    ensures SumPairs(Resample(groups, n, rng)) >= 1 && -1.0 <= Mean(Resample(groups, n, rng)) <= 1.0
  {
    var draw := Resample(groups, n, rng);
    PlausibleSums(draw);
    DrawInRange(SumDelta(draw), SumPairs(draw));
  }

  function LowPosition(samples: nat): nat { samples * 25 / 1000 }

  function HighPosition(samples: nat): int { M.Min(samples - 1, samples * 975 / 1000) }

  /** The bounds stand at their percentile positions among all the means in ascending order. */
  ghost predicate PercentilesOf(means: multiset<real>, samples: nat, lower: real, upper: real)
    requires 100 <= samples <= 10000
  {
    exists draws: seq<real> :: Ascending(draws) && multiset(draws) == means && |draws| == samples
                               && lower == draws[LowPosition(samples)] && upper == draws[HighPosition(samples)]
  }

  /** The means, kept in ascending order as they are drawn. */
  method SortedMeans(groups: seq<Group>, samples: nat, rng: (nat, nat) -> nat) returns (draws: seq<real>)
    requires |groups| >= 1 && forall i :: 0 <= i < |groups| ==> Plausible(groups[i])
    ensures |draws| == samples && Ascending(draws) && InUnit(draws) && multiset(draws) == Means(groups, samples, rng)
  {
    draws := [];
    for n := 0 to samples
      invariant |draws| == n && Ascending(draws) && InUnit(draws) && multiset(draws) == Means(groups, n, rng)
    {
      var draw := Resample(groups, n, rng);
      MeanInRange(groups, n, rng);
      var mean := SumDelta(draw) as real / SumPairs(draw) as real;
      assert mean == Mean(draw);
      var more := Insert(draws, mean);
      StillInUnit(draws, mean, more);
      draws := more;
    }
  }

  /** `samples` resamples, position `i` of resample `n` picked by `rng(n, i)`; the percentile bounds are two of their
      means. */
  method Interval(groups: seq<Group>, samples: nat, rng: (nat, nat) -> nat) returns (lower: real, upper: real)
    requires 100 <= samples <= 10000 && |groups| >= 1
    requires forall i :: 0 <= i < |groups| ==> Plausible(groups[i])
    ensures PercentilesOf(Means(groups, samples, rng), samples, lower, upper)
    ensures -1.0 <= lower <= upper <= 1.0
  {
    var draws := SortedMeans(groups, samples, rng);
    return draws[LowPosition(samples)], draws[HighPosition(samples)];
  }

  // ---------------------------------------------------------------- the interval of the swapped arms

  /** The clusters with the arms swapped. */
  function Swapped(groups: seq<Group>): (swapped: seq<Group>)
    ensures |swapped| == |groups|
  {
    seq(|groups|, i requires 0 <= i < |groups| => Group(-groups[i].delta, groups[i].pairs))
  }

  /** The negated draws in reverse: ascending again. */
  function Mirrored(draws: seq<real>): (mirrored: seq<real>)
    ensures |mirrored| == |draws|
  {
    seq(|draws|, i requires 0 <= i < |draws| => -draws[|draws| - 1 - i])
  }

  lemma {:induction false} SwappedSums(groups: seq<Group>)
    ensures SumDelta(Swapped(groups)) == -SumDelta(groups) && SumPairs(Swapped(groups)) == SumPairs(groups)
  {
    if groups != [] {
      SwappedSums(groups[..|groups| - 1]);
      assert Swapped(groups)[..|groups| - 1] == Swapped(groups[..|groups| - 1]);
    }
  }

  lemma SwappedMean(groups: seq<Group>, rng: (nat, nat) -> nat)
    requires groups != []
    ensures forall n :: MeanAt(Swapped(groups), rng)(n) == -MeanAt(groups, rng)(n)
  {
    forall n: nat ensures MeanAt(Swapped(groups), rng)(n) == -MeanAt(groups, rng)(n) {
      assert Resample(Swapped(groups), n, rng) == Swapped(Resample(groups, n, rng));
      NegatedMean(Resample(groups, n, rng));
    }
  }

  lemma NegatedMean(draw: seq<Group>)
    ensures Mean(Swapped(draw)) == -Mean(draw)
  {
    SwappedSums(draw);
    if SumPairs(draw) > 0 { NegatedQuotient(SumDelta(draw) as real, SumPairs(draw) as real); }
  }

  lemma NegatedQuotient(d: real, p: real)
    requires p > 0.0
    ensures -d / p == -(d / p)
  {
  }

  lemma {:induction false} NegatedMeans(mean: nat -> real, other: nat -> real, samples: nat, x: real, y: real)
    requires (forall n :: other(n) == -mean(n)) && y == -x
    ensures Collected(other, samples)[y] == Collected(mean, samples)[x]
    decreases samples
  {
    if samples > 0 {
      NegatedMeans(mean, other, samples - 1, x, y);
      OneMoreEach(Collected(mean, samples - 1), Collected(other, samples - 1), mean(samples - 1), other(samples - 1), x,
                  y);
    }
  }

  lemma OneMoreEach(means: multiset<real>, swapped: multiset<real>, mean: real, other: real, x: real, y: real)
    requires swapped[y] == means[x] && other == -mean && y == -x
    ensures (swapped + multiset{other})[y] == (means + multiset{mean})[x]
  {
    assert other == y <==> mean == x;
  }

  lemma {:induction false} MirroredCounts(draws: seq<real>, x: real)
    ensures multiset(Mirrored(draws))[-x] == multiset(draws)[x]
    decreases |draws|
  {
    if draws != [] {
      var rest, last := draws[..|draws| - 1], draws[|draws| - 1];
      MirroredCounts(rest, x);
      assert Mirrored(draws) == [-last] + Mirrored(rest) && draws == rest + [last];
    }
  }

  lemma SameCount(a: seq<real>, b: seq<real>)
    requires multiset(a) == multiset(b)
    ensures |a| == |b|
  {
    assert |multiset(a)| == |a| && |multiset(b)| == |b|;
  }

  lemma LastOnce(a: seq<real>, b: seq<real>)
    requires Ascending(a) && Ascending(b) && multiset(a) == multiset(b) && a != [] && |a| == |b|
    ensures a[|a| - 1] == b[|b| - 1]
  {
    assert a[|a| - 1] in multiset(b) && b[|b| - 1] in multiset(a);
  }

  /** Two ascending lists of the same draws are the same list. */
  lemma {:induction false} AscendingOnce(a: seq<real>, b: seq<real>)
    requires Ascending(a) && Ascending(b) && multiset(a) == multiset(b)
    ensures a == b
    decreases |a|
  {
    SameCount(a, b);
    if a != [] {
      LastOnce(a, b);
      WithoutLast(a);
      WithoutLast(b);
      AscendingOnce(a[..|a| - 1], b[..|b| - 1]);
      LastJoined(a, b);
    }
  }

  lemma LastJoined(a: seq<real>, b: seq<real>)
    requires |a| == |b| > 0 && a[..|a| - 1] == b[..|b| - 1] && a[|a| - 1] == b[|b| - 1]
    ensures a == b
  {
    assert a == a[..|a| - 1] + [a[|a| - 1]];
  }

  lemma WithoutLast(a: seq<real>)
    requires a != []
    ensures multiset(a[..|a| - 1]) == multiset(a) - multiset{a[|a| - 1]}
    ensures Ascending(a) ==> Ascending(a[..|a| - 1])
  {
    assert a == a[..|a| - 1] + [a[|a| - 1]];
  }

  lemma MirroredMeans(groups: seq<Group>, samples: nat, rng: (nat, nat) -> nat, draws: seq<real>)
    requires groups != [] && multiset(draws) == Means(groups, samples, rng)
    ensures multiset(Mirrored(draws)) == Means(Swapped(groups), samples, rng)
  {
    SwappedMean(groups, rng);
    MirroredCollection(draws, MeanAt(groups, rng), MeanAt(Swapped(groups), rng), samples);
  }

  lemma MirroredCollection(draws: seq<real>, mean: nat -> real, other: nat -> real, samples: nat)
    requires (forall n :: other(n) == -mean(n)) && multiset(draws) == Collected(mean, samples)
    ensures multiset(Mirrored(draws)) == Collected(other, samples)
  {
    forall y: real ensures multiset(Mirrored(draws))[y] == Collected(other, samples)[y] {
      MirroredCounts(draws, -y);
      NegatedMeans(mean, other, samples, -y, y);
    }
  }

  /** The means behind an interval, in ascending order. */
  ghost predicate SortedDraws(draws: seq<real>, groups: seq<Group>, samples: nat, rng: (nat, nat) -> nat)
    requires groups != []
  {
    Ascending(draws) && |draws| == samples && multiset(draws) == Means(groups, samples, rng)
  }

  ghost predicate IntervalOf(groups: seq<Group>, samples: nat, rng: (nat, nat) -> nat, lower: real, upper: real)
    requires groups != [] && 100 <= samples <= 10000
  {
    PercentilesOf(Means(groups, samples, rng), samples, lower, upper)
  }

  /** The bounds of the swapped arms are negated draws, counted from the other end. */
  lemma SwappedBounds(groups: seq<Group>, samples: nat, rng: (nat, nat) -> nat, draws: seq<real>, lower: real,
                      upper: real)
    requires groups != [] && 100 <= samples <= 10000 && SortedDraws(draws, groups, samples, rng)
    requires IntervalOf(Swapped(groups), samples, rng, lower, upper)
    ensures lower == -draws[samples - 1 - LowPosition(samples)]
    ensures upper == -draws[samples - 1 - HighPosition(samples)]
  {
    var other: seq<real> :| Ascending(other) && multiset(other) == Means(Swapped(groups), samples, rng)
                            && |other| == samples && lower == other[LowPosition(samples)]
                            && upper == other[HighPosition(samples)];
    MirroredMeans(groups, samples, rng, draws);
    AscendingOnce(other, Mirrored(draws));
  }

  /** The two positions lie symmetrically exactly when 40 does not divide the number of samples. */
  lemma PositionsMirror(samples: nat)
    requires 100 <= samples <= 10000
    ensures LowPosition(samples) + HighPosition(samples) == samples - 1 <==> samples % 40 != 0
    ensures samples % 40 == 0 ==> LowPosition(samples) + HighPosition(samples) == samples
  {
  }

  /** Swapping the arms mirrors the interval. */
  ghost predicate Mirrors(groups: seq<Group>, samples: nat, rng: (nat, nat) -> nat)
    requires groups != [] && 100 <= samples <= 10000
  {
    forall lower, upper ::
      IntervalOf(groups, samples, rng, lower, upper) ==> IntervalOf(Swapped(groups), samples, rng, -upper, -lower)
  }

  /** On every input the swapped interval is the mirror image, exactly when 40 does not divide the number of samples;
      the default of 2000 is divisible. */
  lemma MirrorExactlyWhen(samples: nat)
    requires 100 <= samples <= 10000
    ensures (forall groups, rng: (nat, nat) -> nat :: |groups| >= 2 && AllPlausible(groups)
                                                      ==> Mirrors(groups, samples, rng))
            <==> samples % 40 != 0
  {
    if samples % 40 != 0 {
      forall groups: seq<Group>, rng: (nat, nat) -> nat | |groups| >= 2 ensures Mirrors(groups, samples, rng) {
        MirrorsWhen(groups, samples, rng);
      }
    } else {
      NotMirrored(samples);
    }
  }

  lemma MirrorsWhen(groups: seq<Group>, samples: nat, rng: (nat, nat) -> nat)
    requires groups != [] && 100 <= samples <= 10000 && samples % 40 != 0
    ensures Mirrors(groups, samples, rng)
  {
    forall lower, upper | IntervalOf(groups, samples, rng, lower, upper)
      ensures IntervalOf(Swapped(groups), samples, rng, -upper, -lower)
    {
      var draws: seq<real> :| Ascending(draws) && multiset(draws) == Means(groups, samples, rng) && |draws| == samples
                              && lower == draws[LowPosition(samples)] && upper == draws[HighPosition(samples)];
      MirroredInterval(groups, samples, rng, draws);
    }
  }

  lemma MirroredInterval(groups: seq<Group>, samples: nat, rng: (nat, nat) -> nat, draws: seq<real>)
    requires groups != [] && 100 <= samples <= 10000 && samples % 40 != 0 && SortedDraws(draws, groups, samples, rng)
    ensures IntervalOf(Swapped(groups), samples, rng, -draws[HighPosition(samples)], -draws[LowPosition(samples)])
  {
    MirroredMeans(groups, samples, rng, draws);
    MirroredAscends(draws);
    PositionsMirror(samples);
  }

  lemma MirroredAscends(draws: seq<real>)
    requires Ascending(draws)
    ensures Ascending(Mirrored(draws))
  {
  }

  const EITHER: seq<Group> := [Group(1, 1), Group(-1, 1)]

  /** A generator whose first `low` resamples take the second cluster only, and all others the first only. */
  function FirstLow(low: nat): (nat, nat) -> nat { (n, i) => if n < low then 1 else 0 }

  function LowThenHigh(low: nat, n: nat): seq<real> { seq(n, i => if i < low then -1.0 else 1.0) }

  lemma EitherMean(low: nat, n: nat)
    ensures Mean(Resample(EITHER, n, FirstLow(low))) == if n < low then -1.0 else 1.0
  {
    var pick := if n < low then EITHER[1] else EITHER[0];
    assert Resample(EITHER, n, FirstLow(low)) == [] + [pick] + [pick];
    SumsGrow([], pick);
    SumsGrow([] + [pick], pick);
  }

  lemma {:induction false} EitherMeans(low: nat, n: nat)
    ensures Means(EITHER, n, FirstLow(low)) == multiset(LowThenHigh(low, n))
  {
    if n > 0 {
      EitherMeans(low, n - 1);
      EitherMean(low, n - 1);
      OneMoreLow(low, n);
    }
  }

  lemma OneMoreLow(low: nat, n: nat)
    requires n > 0
    ensures multiset(LowThenHigh(low, n))
            == multiset(LowThenHigh(low, n - 1)) + multiset{if n - 1 < low then -1.0 else 1.0}
  {
    assert LowThenHigh(low, n) == LowThenHigh(low, n - 1) + [if n - 1 < low then -1.0 else 1.0];
  }

  /** Two clusters and a generator for which the interval is [1, 1] and the swapped one [-1, 1]. */
  lemma NotMirrored(samples: nat)
    requires 100 <= samples <= 10000 && samples % 40 == 0
    ensures AllPlausible(EITHER) && !Mirrors(EITHER, samples, FirstLow(samples / 40))
  {
    var rng, draws := FirstLow(samples / 40), LowThenHigh(samples / 40, samples);
    EitherMeans(samples / 40, samples);
    PositionsMirror(samples);
    assert Ascending(draws) && draws[LowPosition(samples)] == 1.0 && draws[HighPosition(samples)] == 1.0;
    assert IntervalOf(EITHER, samples, rng, 1.0, 1.0);
    if IntervalOf(Swapped(EITHER), samples, rng, -1.0, -1.0) {
      SwappedBounds(EITHER, samples, rng, draws, -1.0, -1.0);
    }
  }

  // ---------------------------------------------------------------- the report

  datatype Report = Report(numerator: int, pairs: nat, interval: Option<(real, real)>)

  function PlannedKeys(trials: seq<TrialRecord>): set<Key> {
    set t | 0 <= t < |trials| :: (trials[t].task, trials[t].repeat)
  }

  predicate EveryTrialScored(trials: seq<TrialRecord>, attempts: seq<AttemptRecord>) {
    forall t :: 0 <= t < |trials| ==> SelectedScored(attempts, trials[t])
  }

  predicate EveryCellScored(cells: Cells) { forall k :: k in cells ==> cells[k].scored }

  lemma CellsCoverPlan(cells: Cells, trials: seq<TrialRecord>, attempts: seq<AttemptRecord>)
    requires CellsMirror(cells, trials, attempts)
    ensures cells.Keys == PlannedKeys(trials) && PassBits(cells)
    ensures EveryCellScored(cells) <==> EveryTrialScored(trials, attempts)
  {
    forall k | k in cells ensures exists t :: 0 <= t < |trials| && k == (trials[t].task, trials[t].repeat)
                                            && cells[k] == CellOf(attempts, trials[t]) {}
    forall t | 0 <= t < |trials| ensures (trials[t].task, trials[t].repeat) in cells
                                         && cells[(trials[t].task, trials[t].repeat)] == CellOf(attempts, trials[t]) {}
  }

  /** The bounds are percentiles of the means over resampled task clusters, taken in ascending task order. */
  ghost predicate BootstrapOf(bounds: (real, real), left: Cells, right: Cells, samples: nat, rng: (nat, nat) -> nat)
    requires left.Keys == right.Keys && 100 <= samples <= 10000
  {
    exists groups :: groups != [] && ClustersOf(groups, left, right, SortedKeys(TasksOf(left.Keys)))
                     && PercentilesOf(Means(groups, samples, rng), samples, bounds.0, bounds.1)
  }

  /** What a report says of the two arms' cells. */
  ghost predicate ReportsOn(report: Report, left: Cells, right: Cells, samples: nat, rng: (nat, nat) -> nat)
    requires left.Keys == right.Keys && 100 <= samples <= 10000
  {
    report.numerator == SumPass(right, right.Keys) - SumPass(left, left.Keys) && report.pairs == |left|
    && (report.interval.Some? <==> EveryCellScored(left) && EveryCellScored(right) && |TasksOf(left.Keys)| >= 2)
    && (report.interval.Some? ==> -1.0 <= report.interval.value.0 <= report.interval.value.1 <= 1.0
                                  && BootstrapOf(report.interval.value, left, right, samples, rng))
  }

  method ReportOn(left: Cells, right: Cells, samples: nat, rng: (nat, nat) -> nat) returns (report: Report)
    requires left.Keys == right.Keys && PassBits(left) && PassBits(right) && 100 <= samples <= 10000
    ensures ReportsOn(report, left, right, samples, rng)
  {
    var groups, allScored := Clusters(left, right);
    ScoredMeaning(left, right);
    var interval: Option<(real, real)> := None;
    if allScored && |groups| >= 2 { interval := Bootstrap(groups, left, right, samples, rng); }
    return Report(SumDelta(groups), SumPairs(groups), interval);
  }

  lemma ScoredMeaning(left: Cells, right: Cells)
    requires left.Keys == right.Keys
    ensures BothScored(left, right, left.Keys) <==> EveryCellScored(left) && EveryCellScored(right)
  {
  }

  method Bootstrap(groups: seq<Group>, ghost left: Cells, ghost right: Cells, samples: nat, rng: (nat, nat) -> nat)
    returns (interval: Option<(real, real)>)
    requires left.Keys == right.Keys && 100 <= samples <= 10000 && groups != [] && AllPlausible(groups)
    requires ClustersOf(groups, left, right, SortedKeys(TasksOf(left.Keys)))
    ensures interval.Some? && -1.0 <= interval.value.0 <= interval.value.1 <= 1.0
    ensures BootstrapOf(interval.value, left, right, samples, rng)
  {
    var lower, upper := Interval(groups, samples, rng);
    return Some((lower, upper));
  }

  /** The cells of one arm. */
  ghost predicate ArmCells(cells: Cells, trials: seq<TrialRecord>, attempts: seq<AttemptRecord>) {
    cells.Keys == PlannedKeys(trials) && PassBits(cells) && |cells| == |trials| && CellsMirror(cells, trials, attempts)
    && SumPass(cells, cells.Keys) == Passed(trials, attempts)
    && (EveryCellScored(cells) <==> EveryTrialScored(trials, attempts))
  }

  /** One arm of the report, reduced to its cells. */
  method Arm(trials: seq<TrialRecord>, attempts: seq<AttemptRecord>) returns (cells: Cells, error: Option<ReportError>)
    ensures error.None? <==> Selectable(trials, attempts)
    ensures error.None? ==> ArmCells(cells, trials, attempts)
  {
    cells, error := Selected(trials, attempts);
    if error.None? { CellsCoverPlan(cells, trials, attempts); }
  }

  /** The numerator is the difference of the arms' pass counts; an interval is given exactly when every pair is graded
      in both arms and there are two clusters, and it is ordered within [-1, 1]. */
  predicate ReportRight(report: Report, aTrials: seq<TrialRecord>, aAttempts: seq<AttemptRecord>,
                        bTrials: seq<TrialRecord>, bAttempts: seq<AttemptRecord>) {
    report.numerator == Passed(bTrials, bAttempts) - Passed(aTrials, aAttempts) && report.pairs == |aTrials|
    && (report.interval.Some? <==> EveryTrialScored(aTrials, aAttempts) && EveryTrialScored(bTrials, bAttempts)
                                   && |TasksOf(PlannedKeys(aTrials))| >= 2)
    && (report.interval.Some? ==> -1.0 <= report.interval.value.0 <= report.interval.value.1 <= 1.0)
  }

  /** The report's interval is the bootstrap of the two arms' cells. */
  ghost predicate IntervalRight(
    report: Report, aTrials: seq<TrialRecord>, aAttempts: seq<AttemptRecord>, bTrials: seq<TrialRecord>,
    bAttempts: seq<AttemptRecord>, samples: nat, rng: (nat, nat) -> nat)
    requires 100 <= samples <= 10000
  {
    report.interval.Some?
    ==> BootstrapOfArms(report.interval.value, aTrials, aAttempts, bTrials, bAttempts, samples, rng)
  }

  ghost predicate BootstrapOfArms(
    bounds: (real, real), aTrials: seq<TrialRecord>, aAttempts: seq<AttemptRecord>, bTrials: seq<TrialRecord>,
    bAttempts: seq<AttemptRecord>, samples: nat, rng: (nat, nat) -> nat)
    requires 100 <= samples <= 10000
  {
    exists left, right :: CellsMirror(left, aTrials, aAttempts) && CellsMirror(right, bTrials, bAttempts)
                          && left.Keys == right.Keys && BootstrapOf(bounds, left, right, samples, rng)
  }

  /** The bounds stand at mirrored positions among the sorted draws. */
  ghost predicate MirroredBounds(bounds: (real, real), swapped: (real, real), samples: nat)
    requires 100 <= samples <= 10000
  {
    var low, high := LowPosition(samples), HighPosition(samples);
    exists draws: seq<real> ::
      Ascending(draws) && |draws| == samples && bounds.0 == draws[low] && bounds.1 == draws[high]
      && swapped.0 == -draws[samples - 1 - low] && swapped.1 == -draws[samples - 1 - high]
  }

  predicate AreMirrored(bounds: (real, real), swapped: (real, real)) {
    swapped.0 == -bounds.1 && swapped.1 == -bounds.0
  }

  /** Swapping the arms under the same generator negates the numerator, keeps the interval's availability and takes its
      bounds from the same draws, negated and counted from the other end: the mirror image unless 40 divides the number
      of samples. */
  lemma SwapNegates(
    report: Report, swapped: Report, aTrials: seq<TrialRecord>, aAttempts: seq<AttemptRecord>,
    bTrials: seq<TrialRecord>, bAttempts: seq<AttemptRecord>, samples: nat, rng: (nat, nat) -> nat)
    requires 100 <= samples <= 10000 && PlannedKeys(aTrials) == PlannedKeys(bTrials)
    requires ReportRight(report, aTrials, aAttempts, bTrials, bAttempts)
             && ReportRight(swapped, bTrials, bAttempts, aTrials, aAttempts)
    requires IntervalRight(report, aTrials, aAttempts, bTrials, bAttempts, samples, rng)
             && IntervalRight(swapped, bTrials, bAttempts, aTrials, aAttempts, samples, rng)
    ensures swapped.numerator == -report.numerator && (swapped.interval.Some? <==> report.interval.Some?)
    ensures report.interval.Some? ==> MirroredBounds(report.interval.value, swapped.interval.value, samples)
    ensures report.interval.Some? && samples % 40 != 0
            ==> AreMirrored(report.interval.value, swapped.interval.value)
  {
    if report.interval.Some? {
      var (bounds, others) := (report.interval.value, swapped.interval.value);
      SwappedArms(bounds, others, aTrials, aAttempts, bTrials, bAttempts, samples, rng);
      if samples % 40 != 0 { MirrorImage(bounds, others, samples); }
    }
  }

  lemma MirrorImage(bounds: (real, real), swapped: (real, real), samples: nat)
    requires 100 <= samples <= 10000 && samples % 40 != 0 && MirroredBounds(bounds, swapped, samples)
    ensures AreMirrored(bounds, swapped)
  {
    PositionsMirror(samples);
  }

  lemma SwappedArms(
    bounds: (real, real), swapped: (real, real), aTrials: seq<TrialRecord>, aAttempts: seq<AttemptRecord>,
    bTrials: seq<TrialRecord>, bAttempts: seq<AttemptRecord>, samples: nat, rng: (nat, nat) -> nat)
    requires 100 <= samples <= 10000
    requires BootstrapOfArms(bounds, aTrials, aAttempts, bTrials, bAttempts, samples, rng)
    requires BootstrapOfArms(swapped, bTrials, bAttempts, aTrials, aAttempts, samples, rng)
    ensures MirroredBounds(bounds, swapped, samples)
  {
    var left, right :| CellsMirror(left, aTrials, aAttempts) && CellsMirror(right, bTrials, bAttempts)
                       && left.Keys == right.Keys && BootstrapOf(bounds, left, right, samples, rng);
    var other, otherLeft :| CellsMirror(other, bTrials, bAttempts) && CellsMirror(otherLeft, aTrials, aAttempts)
                            && other.Keys == otherLeft.Keys && BootstrapOf(swapped, other, otherLeft, samples, rng);
    MirrorOnce(left, otherLeft, aTrials, aAttempts);
    MirrorOnce(right, other, bTrials, bAttempts);
    SwappedBootstrap(bounds, swapped, left, right, samples, rng);
  }

  lemma MirrorOnce(cells: Cells, others: Cells, trials: seq<TrialRecord>, attempts: seq<AttemptRecord>)
    requires CellsMirror(cells, trials, attempts) && CellsMirror(others, trials, attempts)
    ensures cells == others
  {
  }

  lemma SwappedBootstrap(bounds: (real, real), swapped: (real, real), left: Cells, right: Cells, samples: nat,
                         rng: (nat, nat) -> nat)
    requires left.Keys == right.Keys && 100 <= samples <= 10000
    requires BootstrapOf(bounds, left, right, samples, rng) && BootstrapOf(swapped, right, left, samples, rng)
    ensures MirroredBounds(bounds, swapped, samples)
  {
    var tasks := SortedKeys(TasksOf(left.Keys));
    var groups :| groups != [] && ClustersOf(groups, left, right, tasks)
                  && PercentilesOf(Means(groups, samples, rng), samples, bounds.0, bounds.1);
    var others :| others != [] && ClustersOf(others, right, left, tasks)
                  && PercentilesOf(Means(others, samples, rng), samples, swapped.0, swapped.1);
    SwappedClusters(groups, others, left, right, tasks);
    SwappedGroups(groups, bounds, swapped, samples, rng);
  }

  lemma SwappedClusters(groups: seq<Group>, others: seq<Group>, left: Cells, right: Cells, tasks: seq<nat>)
    requires left.Keys == right.Keys && ClustersOf(groups, left, right, tasks) && ClustersOf(others, right, left, tasks)
    ensures others == Swapped(groups)
  {
  }

  lemma SwappedGroups(groups: seq<Group>, bounds: (real, real), swapped: (real, real), samples: nat,
                      rng: (nat, nat) -> nat)
    requires groups != [] && 100 <= samples <= 10000
    requires IntervalOf(groups, samples, rng, bounds.0, bounds.1)
    requires IntervalOf(Swapped(groups), samples, rng, swapped.0, swapped.1)
    ensures MirroredBounds(bounds, swapped, samples)
  {
    var draws: seq<real> :| Ascending(draws) && multiset(draws) == Means(groups, samples, rng) && |draws| == samples
                            && bounds.0 == draws[LowPosition(samples)] && bounds.1 == draws[HighPosition(samples)];
    SwappedBounds(groups, samples, rng, draws, swapped.0, swapped.1);
  }

  /** The planned denominators agree and the bootstrap stays within its budget. */
  predicate Affordable(left: set<Key>, right: set<Key>, samples: nat) {
    left != {} && left == right && |TasksOf(left)| <= 1000 && |TasksOf(left)| * samples <= 2_000_000
  }

  /** `paired_report` for comparable configurations. */
  method Paired(aTrials: seq<TrialRecord>, aAttempts: seq<AttemptRecord>, bTrials: seq<TrialRecord>,
                bAttempts: seq<AttemptRecord>, samples: nat, rng: (nat, nat) -> nat)
    returns (report: Report, error: Option<ReportError>)
    ensures error.None? <==> 100 <= samples <= 10000 && Selectable(aTrials, aAttempts) && Selectable(bTrials, bAttempts)
                             && Affordable(PlannedKeys(aTrials), PlannedKeys(bTrials), samples)
    ensures error.None? ==> ReportRight(report, aTrials, aAttempts, bTrials, bAttempts)
                            && IntervalRight(report, aTrials, aAttempts, bTrials, bAttempts, samples, rng)
  {
    report := Report(0, 0, None);
    if !(100 <= samples <= 10000) { return report, Some(Oversized); }
    var left, leftError := Arm(aTrials, aAttempts);
    if leftError.Some? { return report, leftError; }
    var right, rightError := Arm(bTrials, bAttempts);
    if rightError.Some? { return report, rightError; }
    if left.Keys == {} || left.Keys != right.Keys { return report, Some(Denominators); }
    if !Affordable(left.Keys, right.Keys, samples) { return report, Some(Oversized); }
    report := ReportOn(left, right, samples, rng);
    CellsReported(report, left, right, aTrials, aAttempts, bTrials, bAttempts, samples, rng);
    error := None;
  }

  /** A report on the arms' cells is a report on the arms. */
  lemma CellsReported(
    report: Report, left: Cells, right: Cells, aTrials: seq<TrialRecord>, aAttempts: seq<AttemptRecord>,
    bTrials: seq<TrialRecord>, bAttempts: seq<AttemptRecord>, samples: nat, rng: (nat, nat) -> nat)
    requires ArmCells(left, aTrials, aAttempts) && ArmCells(right, bTrials, bAttempts)
    requires left.Keys == right.Keys && 100 <= samples <= 10000 && ReportsOn(report, left, right, samples, rng)
    ensures ReportRight(report, aTrials, aAttempts, bTrials, bAttempts)
    ensures IntervalRight(report, aTrials, aAttempts, bTrials, bAttempts, samples, rng)
  {
  }

  // ---------------------------------------------------------------- validator and report agree

  /** The rows a report is made from: one run's trials and their attempts. */
  function TrialsOfRun(trials: seq<TrialRecord>, r: nat): (local: seq<TrialRecord>)
    ensures forall t :: t in local <==> t in trials && t.run == r
  {
    if trials == [] then []
    else
      assert trials == trials[..|trials| - 1] + [trials[|trials| - 1]];
      TrialsOfRun(trials[..|trials| - 1], r) + if trials[|trials| - 1].run == r then [trials[|trials| - 1]] else []
  }

  function AttemptsOf(attempts: seq<AttemptRecord>, local: seq<TrialRecord>): (rows: seq<AttemptRecord>)
    ensures forall a :: a in rows <==> a in attempts && TrialKnown(local, a.trial)
  {
    if attempts == [] then []
    else
      var last := attempts[|attempts| - 1];
      assert attempts == attempts[..|attempts| - 1] + [last];
      AttemptsOf(attempts[..|attempts| - 1], local) + if TrialKnown(local, last.trial) then [last] else []
  }

  lemma {:induction false} RunKeepsDistinct(attempts: seq<AttemptRecord>, local: seq<TrialRecord>)
    requires DistinctAttempts(attempts)
    ensures DistinctAttempts(AttemptsOf(attempts, local))
    decreases |attempts|
  {
    if attempts != [] {
      var shorter, last := attempts[..|attempts| - 1], attempts[|attempts| - 1];
      RunKeepsDistinct(shorter, local);
      var rows := AttemptsOf(shorter, local);
      forall i | 0 <= i < |rows| ensures rows[i].id != last.id {
        assert rows[i] in shorter;
        var j :| 0 <= j < |shorter| && shorter[j] == rows[i];
        assert attempts[j].id != attempts[|attempts| - 1].id;
      }
    }
  }

  lemma {:induction false} RunCellsOnce(trials: seq<TrialRecord>, r: nat)
    requires CellsDistinct(trials, r)
    ensures OneCellPerTrial(TrialsOfRun(trials, r))
    decreases |trials|
  {
    if trials != [] {
      var shorter, last := trials[..|trials| - 1], trials[|trials| - 1];
      RunCellsOnce(shorter, r);
      var local := TrialsOfRun(shorter, r);
      forall i | 0 <= i < |local| && last.run == r ensures (local[i].task, local[i].repeat) != (last.task,
          last.repeat) {
        assert local[i] in shorter;
        var j :| 0 <= j < |shorter| && shorter[j] == local[i];
        assert trials[j].run == r && trials[|trials| - 1].run == r;
      }
    }
  }

  /** Among distinct attempts a trial's numbers and selection are the same in every list that keeps its rows. */
  lemma HistorySelectsLast(attempts: seq<AttemptRecord>, rows: seq<AttemptRecord>, trial: TrialRecord)
    requires DistinctAttempts(rows) && HistoryOk(attempts, trial)
    requires forall a :: a in rows ==> a in attempts
    requires forall a :: a in attempts && a.trial == trial.id ==> a in rows
    ensures LastSelected(rows, trial)
  {
    var n: nat :| NumbersRunTo(attempts, trial.id, n) && SelectsNumber(attempts, trial, n);
    forall i, j | 0 <= i < j < |rows| && rows[i].trial == trial.id && rows[j].trial == trial.id
      ensures rows[i].number != rows[j].number
    {
      SameNumberSameRow(attempts, rows[i], rows[j]);
      assert rows[i].id != rows[j].id;
    }
    forall i | 0 <= i < |rows| && rows[i].trial == trial.id ensures 1 <= rows[i].number <= n {
      assert rows[i] in attempts;
      var k :| 0 <= k < |attempts| && attempts[k] == rows[i];
    }
    if n > 0 {
      var k :| 0 <= k < |attempts| && attempts[k].trial == trial.id && attempts[k].number == n
               && trial.selected == Some(attempts[k].id);
      assert attempts[k] in rows;
      var i :| 0 <= i < |rows| && rows[i] == attempts[k];
    }
  }

  lemma SameNumberSameRow(attempts: seq<AttemptRecord>, a: AttemptRecord, b: AttemptRecord)
    requires NumbersDistinct(attempts, a.trial) && a.trial == b.trial && a in attempts && b in attempts
    ensures a.number == b.number ==> a == b
  {
    var i :| 0 <= i < |attempts| && attempts[i] == a;
    var j :| 0 <= j < |attempts| && attempts[j] == b;
    assert i < j ==> attempts[i].number != attempts[j].number;
    assert j < i ==> attempts[j].number != attempts[i].number;
  }

  /** From records the offline validator accepts, every run's report is selectable, whatever other runs they hold. */
  lemma AcceptedIsSelectable(
    trials: seq<TrialRecord>, attempts: seq<AttemptRecord>, grades: seq<GradeRecord>, plans: Plans, r: nat)
    requires RelationsHold(trials, attempts, grades, plans)
    ensures Selectable(TrialsOfRun(trials, r), AttemptsOf(attempts, TrialsOfRun(trials, r)))
    ensures r in plans ==> PlannedKeys(TrialsOfRun(trials, r)) == PlannedCells(plans[r])
  {
    var local := TrialsOfRun(trials, r);
    var rows := AttemptsOf(attempts, local);
    RunKeepsDistinct(attempts, local);
    RunIsPlanned(trials, plans, r);
    forall t | 0 <= t < |local| ensures LastSelected(rows, local[t]) {
      assert local[t] in trials;
      var u :| 0 <= u < |trials| && trials[u] == local[t];
      assert HistoryOk(attempts, trials[u]) && TrialKnown(local, local[t].id);
      HistorySelectsLast(attempts, rows, local[t]);
    }
  }

  lemma {:induction false} NoTrialsOfRun(trials: seq<TrialRecord>, r: nat)
    requires forall t :: 0 <= t < |trials| ==> trials[t].run != r
    ensures TrialsOfRun(trials, r) == []
  {
    if trials != [] { NoTrialsOfRun(trials[..|trials| - 1], r); }
  }

  lemma RunIsPlanned(trials: seq<TrialRecord>, plans: Plans, r: nat)
    requires forall t :: 0 <= t < |trials| ==> TrialPlanned(plans, trials[t])
    requires forall q :: q in plans ==> PlanCovered(trials, q, plans[q])
    ensures OneCellPerTrial(TrialsOfRun(trials, r))
    ensures r in plans ==> PlannedKeys(TrialsOfRun(trials, r)) == PlannedCells(plans[r])
  {
    var local := TrialsOfRun(trials, r);
    if r !in plans {
      assert forall t :: 0 <= t < |trials| ==> TrialPlanned(plans, trials[t]) && trials[t].run != r;
      NoTrialsOfRun(trials, r);
    } else {
      RunCellsOnce(trials, r);
      forall c ensures c in PlannedKeys(local) <==> c in PlannedCells(plans[r]) {
        CellIsPlanned(trials, r, plans[r], c.0, c.1);
      }
    }
  }

  lemma CellIsPlanned(trials: seq<TrialRecord>, r: nat, plan: Plan, task: nat, k: nat)
    requires PlanCovered(trials, r, plan)
    ensures (task, k) in PlannedKeys(TrialsOfRun(trials, r)) <==> (task, k) in PlannedCells(plan)
  {
    var local := TrialsOfRun(trials, r);
    if (task, k) in PlannedCells(plan) {
      assert HasCell(trials, r, task, k);
      var t :| 0 <= t < |trials| && trials[t].run == r && trials[t].task == task && trials[t].repeat == k;
      assert trials[t] in local;
      var u :| 0 <= u < |local| && local[u] == trials[t];
    }
    if (task, k) in PlannedKeys(local) {
      var t :| 0 <= t < |local| && (local[t].task, local[t].repeat) == (task, k);
      assert local[t] in trials;
    }
  }

  /** Drawing every cluster once gives the point estimate: the difference of passes over the number of pairs. */
  lemma OwnDrawIsThePoint(groups: seq<Group>, left: Cells, right: Cells, n: nat, rng: (nat, nat) -> nat)
    requires left.Keys == right.Keys && left.Keys != {} && groups != [] && AddUp(groups, left, right, left.Keys)
    requires forall i :: 0 <= i < |groups| ==> rng(n, i) == i
    ensures Resample(groups, n, rng) == groups
    ensures Mean(Resample(groups, n, rng))
            == (SumPass(right, right.Keys) - SumPass(left, left.Keys)) as real / |left.Keys| as real
  {
    OwnDraw(groups, n, rng);
  }

  lemma OwnDraw(groups: seq<Group>, n: nat, rng: (nat, nat) -> nat)
    requires groups != [] && forall i :: 0 <= i < |groups| ==> rng(n, i) == i
    ensures Resample(groups, n, rng) == groups
  {
    var draw := Resample(groups, n, rng);
    forall i | 0 <= i < |groups| ensures draw[i] == groups[i] {
      SmallRemainder(i, |groups|);
      assert rng(n, i) % |groups| == i;
    }
  }

  /** A trial passes, or counts as graded, by its selected attempt alone: an official grade that is a pass, or any. */
  lemma PassesExactlyWhen(attempts: seq<AttemptRecord>, trial: TrialRecord)
    ensures SelectedPasses(attempts, trial)
            <==> exists a :: a in attempts && trial.selected == Some(a.id) && a.gradeState == Some(M.Graded)
                             && a.gradeResult == Some(M.Pass)
    ensures SelectedScored(attempts, trial)
            <==> exists a :: a in attempts && trial.selected == Some(a.id) && a.gradeState == Some(M.Graded)
                             && a.gradeResult.Some?
  {
    if SelectedPasses(attempts, trial) {
      var i :| 0 <= i < |attempts| && trial.selected == Some(attempts[i].id) && Scored(attempts[i])
               && attempts[i].gradeResult == Some(M.Pass);
      assert attempts[i] in attempts;
    }
    if SelectedScored(attempts, trial) {
      var i :| 0 <= i < |attempts| && trial.selected == Some(attempts[i].id) && Scored(attempts[i]);
      assert attempts[i] in attempts;
    }
  }
}
