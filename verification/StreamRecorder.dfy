/**
Retrying a streamed request without ever mixing two attempts, and recording what was left open when one fails.
*/
module StreamRecorder {
  import opened Options
  import opened StreamAssembly
  import opened StreamTheorems

  // ---------------------------------------------------------------- retries

  predicate Semantic(e: Event) { e.Text? || e.Started? || e.ArgumentsDelta? || e.Completed? }

  /** The events a caller acts on. */
  function Semantics(events: seq<Event>): seq<Event> {
    if events == [] then []
    else Semantics(events[..|events| - 1]) + if Semantic(events[|events| - 1]) then [events[|events| - 1]] else []
  }

  datatype Answer =
    | Done
    | Refused(error: ProtocolError)
    | OutputTruncated(names: set<string>)
    | CallFailed(midStream: bool, retryable: bool)

  /** An attempt that failed in a way worth repeating before it emitted anything a caller acts on. */
  predicate Repeatable(run: (seq<Event>, Ending)) { run.1 == Interrupted(true) && Semantics(run.0) == [] }

  function AnswerOf(run: (seq<Event>, Ending)): Answer {
    match run.1
    case Finished => Done
    case Protocol(error) => Refused(error)
    case Truncated(names) => OutputTruncated(names)
    case Interrupted(retryable) => CallFailed(Semantics(run.0) != [] && retryable, retryable && Semantics(run.0) == [])
  }

  /** Everything the first `n` attempts emitted. */
  function Joined(attempts: nat -> Attempt, n: nat, tools: Tools): seq<Event> {
    if n == 0 then [] else Joined(attempts, n - 1, tools) + Run(attempts(n - 1), tools).0
  }

  lemma SemanticsOne(events: seq<Event>, e: Event)
    ensures Semantics(events + [e]) == Semantics(events) + if Semantic(e) then [e] else []
  {
    assert (events + [e])[..|events|] == events;
  }

  lemma ForwardOne(once: seq<Event>, k: nat)
    requires k < |once|
    ensures Semantics(once[..k + 1]) == Semantics(once[..k]) + if Semantic(once[k]) then [once[k]] else []
    ensures once[..k + 1] == once[..k] + [once[k]]
  {
    assert once[..k + 1] == once[..k] + [once[k]];
    SemanticsOne(once[..k], once[k]);
  }

  /** The inner loop: passes the events of one attempt on, and notes whether any of them is one to act on. */
  method Forward(before: seq<Event>, once: seq<Event>) returns (events: seq<Event>, emitted: bool)
    ensures events == before + once && (emitted <==> Semantics(once) != [])
  {
    events, emitted := before, false;
    for k := 0 to |once|
      invariant events == before + once[..k] && (emitted <==> Semantics(once[..k]) != [])
    {
      ForwardOne(once, k);
      if once[k].Text? || once[k].Started? || once[k].ArgumentsDelta? || once[k].Completed? { emitted := true; }
      events := events + [once[k]];
    }
    assert once[..|once|] == once;
  }

  /** How an attempt is answered: not at all when it may be repeated. */
  method Decide(ending: Ending, emitted: bool, more: bool) returns (answer: Option<Answer>)
    ensures answer.None? <==> ending == Interrupted(true) && !emitted && more
    ensures answer.Some? ==> forall events :: (emitted <==> Semantics(events) != [])
                                ==> answer.value == AnswerOf((events, ending))
  {
    match ending {
      case Finished => return Some(Done);
      case Protocol(error) => return Some(Refused(error));
      case Truncated(names) => return Some(OutputTruncated(names));
      case Interrupted(retryable) =>
        if retryable && !emitted && more { return None; }
        return Some(CallFailed(emitted && retryable, retryable && !emitted));
    }
  }

  /** The first `n` attempts all failed in a repeatable way. */
  ghost predicate AllRepeatable(attempts: nat -> Attempt, n: nat, tools: Tools) {
    forall a: nat :: a < n ==> Repeatable(Run(attempts(a), tools))
  }

  /** `stream`: the attempt whose events the caller acts on is `used`; every one before it was silent and repeatable. */
  method Stream(attempts: nat -> Attempt, maxRetries: nat, tools: Tools)
    returns (events: seq<Event>, answer: Answer, used: nat)
    ensures used <= maxRetries && AllRepeatable(attempts, used, tools)
    ensures Repeatable(Run(attempts(used), tools)) ==> used == maxRetries
    ensures events == Joined(attempts, used, tools) + Run(attempts(used), tools).0
    ensures answer == AnswerOf(Run(attempts(used), tools))
  {
    events, used := [], 0;
    while true
      invariant used <= maxRetries && events == Joined(attempts, used, tools) && AllRepeatable(attempts, used, tools)
      decreases maxRetries - used
    {
      var once, ending := StreamOnce(attempts(used), tools);
      assert Run(attempts(used), tools) == (once, ending);
      var emitted;
      events, emitted := Forward(events, once);
      var decided := Decide(ending, emitted, used < maxRetries);
      if decided.Some? { return events, decided.value, used; }
      used := used + 1;
    }
  }

  lemma {:induction false} SemanticsBoth(first: seq<Event>, second: seq<Event>)
    ensures Semantics(first + second) == Semantics(first) + Semantics(second)
    decreases |second|
  {
    if second == [] {
      assert first + second == first;
    } else {
      assert (first + second)[..|first + second| - 1] == first + second[..|second| - 1];
      SemanticsBoth(first, second[..|second| - 1]);
    }
  }

  lemma {:induction false} SilentHasNoIndex(events: seq<Event>, i: nat)
    requires Semantics(events) == []
    ensures Project(events, i) == []
    decreases |events|
  {
    if events != [] { SilentHasNoIndex(events[..|events| - 1], i); }
  }

  lemma {:induction false} JoinedIsSilent(attempts: nat -> Attempt, n: nat, tools: Tools)
    requires AllRepeatable(attempts, n, tools)
    ensures Semantics(Joined(attempts, n, tools)) == []
  {
    if n > 0 {
      JoinedIsSilent(attempts, n - 1, tools);
      SemanticsBoth(Joined(attempts, n - 1, tools), Run(attempts(n - 1), tools).0);
    }
  }

  /** All the events a caller acts on come from one attempt, whatever was retried before it. */
  lemma SingleAttempt(attempts: nat -> Attempt, used: nat, tools: Tools)
    requires AllRepeatable(attempts, used, tools)
    ensures var (events, last) := (Joined(attempts, used, tools) + Run(attempts(used), tools).0,
                                   Run(attempts(used), tools).0);
            Semantics(events) == Semantics(last) && forall i: nat :: Project(events, i) == Project(last, i)
  {
    var before, last := Joined(attempts, used, tools), Run(attempts(used), tools).0;
    JoinedIsSilent(attempts, used, tools);
    SemanticsBoth(before, last);
    forall i: nat ensures Project(before + last, i) == Project(last, i) {
      ProjectBoth(before, last, i);
      SilentHasNoIndex(before, i);
    }
  }

  // ---------------------------------------------------------------- the recorder

  /** A call that has not completed; the identity is unknown when no announcement came first. */
  datatype Partial = Partial(id: Option<string>, name: Option<string>, arguments: string)

  datatype Record = Record(text: string, calls: seq<Call>, partial: map<nat, Partial>, usage: nat,
                           finish: Option<string>)

  const NOTHING := Record("", [], map[], 0, None)

  /** One event, as the recorder sees it. */
  method RecordEvent(r: Record, e: Event) returns (next: Record)
    ensures next == RecordStep(r, e)
  {
    match e {
      case Text(text, _) => next := r.(text := r.text + text);
      case Started(index, id, name) => next := r.(partial := r.partial[index := Partial(Some(id), Some(name), "")]);
      case ArgumentsDelta(index, part) =>
        var open := if index in r.partial then r.partial[index] else Partial(None, None, "");
        assert "" + part == part;
        next := r.(partial := r.partial[index := open.(arguments := open.arguments + part)]);
      case Completed(call) => next := r.(calls := r.calls + [call], partial := r.partial - {call.index});
      case Usage(usage) => next := r.(usage := usage);
      case Response(stop) => next := r.(finish := stop);
    }
  }

  method RecordEvents(events: seq<Event>) returns (r: Record)
    ensures r == Recorded(events)
  {
    r := NOTHING;
    for k := 0 to |events|
      invariant r == Recorded(events[..k])
    {
      RecordedOne(events[..k], events[k]);
      assert events[..k + 1] == events[..k] + [events[k]];
      r := RecordEvent(r, events[k]);
    }
    assert events[..|events|] == events;
  }

  function PartialStep(was: Option<Partial>, e: Event): Option<Partial> {
    match e
    case Started(_, id, name) => Some(Partial(Some(id), Some(name), ""))
    case ArgumentsDelta(_, part) =>
      if was.Some? then Some(was.value.(arguments := was.value.arguments + part)) else Some(Partial(None, None, part))
    case Completed(_) => None
    case _ => was
  }

  function RecordStep(r: Record, e: Event): Record {
    match e
    case Text(text, _) => r.(text := r.text + text)
    case Usage(usage) => r.(usage := usage)
    case Response(stop) => r.(finish := stop)
    case Completed(call) => r.(calls := r.calls + [call], partial := r.partial - {call.index})
    case Started(index, _, _) => Update(r, index, e)
    case ArgumentsDelta(index, _) => Update(r, index, e)
  }

  function PartialIn(r: Record, i: nat): Option<Partial> { if i in r.partial then Some(r.partial[i]) else None }

  function Update(r: Record, index: nat, e: Event): Record
    requires e.Started? || e.ArgumentsDelta?
  {
    r.(partial := r.partial[index := PartialStep(PartialIn(r, index), e).value])
  }

  function Recorded(events: seq<Event>): Record {
    if events == [] then NOTHING else RecordStep(Recorded(events[..|events| - 1]), events[|events| - 1])
  }

  lemma RecordedOne(events: seq<Event>, e: Event)
    ensures Recorded(events + [e]) == RecordStep(Recorded(events), e)
  {
    assert (events + [e])[..|events|] == events;
  }

  lemma RecordStepAt(r: Record, e: Event, i: nat)
    ensures PartialIn(RecordStep(r, e), i) == if IndexOf(e) == Some(i) then PartialStep(PartialIn(r, i), e)
            else PartialIn(r, i)
  {
  }

  function PartialOf(events: seq<Event>): Option<Partial> {
    if events == [] then None else PartialStep(PartialOf(events[..|events| - 1]), events[|events| - 1])
  }

  /** The recorder's open call at an index depends on that index's events alone. */
  lemma {:induction false} RecordedByIndex(events: seq<Event>, i: nat)
    ensures PartialIn(Recorded(events), i) == PartialOf(Project(events, i))
    decreases |events|
  {
    if events != [] {
      var shorter, last := events[..|events| - 1], events[|events| - 1];
      RecordedByIndex(shorter, i);
      RecordStepAt(Recorded(shorter), last, i);
      if IndexOf(last) == Some(i) {
        var p := Project(events, i);
        assert p[..|p| - 1] == Project(shorter, i) && p[|p| - 1] == last;
      } else {
        assert Project(events, i) == Project(shorter, i);
      }
    }
  }

  lemma {:induction false} DeltasAccumulate(i: nat, id: string, name: string, parts: seq<string>)
    ensures PartialOf([Started(i, id, name)] + Deltas(i, parts)) == Some(Partial(Some(id), Some(name), Concat(parts)))
    decreases |parts|
  {
    var events := [Started(i, id, name)] + Deltas(i, parts);
    if parts == [] {
      assert events == [Started(i, id, name)] && events[..0] == [];
    } else {
      DeltasAccumulate(i, id, name, parts[..|parts| - 1]);
      assert events[..|events| - 1] == [Started(i, id, name)] + Deltas(i, parts[..|parts| - 1]);
      assert events[|events| - 1] == ArgumentsDelta(i, parts[|parts| - 1]);
    }
  }

  predicate HasStarted(events: seq<Event>, i: nat) { exists k :: 0 <= k < |events| && events[k].Started?
                                                        && events[k].index == i }

  predicate HasCompleted(events: seq<Event>, i: nat) { exists k :: 0 <= k < |events| && events[k].Completed?
                                                          && events[k].call.index == i }

  lemma {:induction false} ProjectKeeps(events: seq<Event>, i: nat)
    ensures HasStarted(events, i) <==> exists k :: 0 <= k < |Project(events, i)| && Project(events, i)[k].Started?
    ensures HasCompleted(events, i) <==> exists k :: 0 <= k < |Project(events, i)| && Project(events, i)[k].Completed?
    decreases |events|
  {
    if events != [] {
      var shorter, last := events[..|events| - 1], events[|events| - 1];
      ProjectKeeps(shorter, i);
      assert events == shorter + [last];
      var p, q := Project(shorter, i), Project(events, i);
      assert q == p + if IndexOf(last) == Some(i) then [last] else [];
      KeepsOne(shorter, last, p, i);
    }
  }

  lemma KeepsOne(events: seq<Event>, e: Event, p: seq<Event>, i: nat)
    requires HasStarted(events, i) <==> exists k :: 0 <= k < |p| && p[k].Started?
    requires HasCompleted(events, i) <==> exists k :: 0 <= k < |p| && p[k].Completed?
    ensures var q := p + if IndexOf(e) == Some(i) then [e] else [];
            (HasStarted(events + [e], i) <==> exists k :: 0 <= k < |q| && q[k].Started?)
            && (HasCompleted(events + [e], i) <==> exists k :: 0 <= k < |q| && q[k].Completed?)
  {
    HasOne(events, e, i);
    var q := p + if IndexOf(e) == Some(i) then [e] else [];
    if IndexOf(e) == Some(i) {
      assert q[|p|] == e;
      assert forall k :: 0 <= k < |p| ==> q[k] == p[k];
    } else {
      assert q == p;
    }
  }

  lemma HasOne(events: seq<Event>, e: Event, i: nat)
    ensures HasStarted(events + [e], i) <==> HasStarted(events, i) || (e.Started? && e.index == i)
    ensures HasCompleted(events + [e], i) <==> HasCompleted(events, i) || (e.Completed? && e.call.index == i)
  {
    var longer := events + [e];
    assert longer[|events|] == e;
    assert forall k :: 0 <= k < |events| ==> longer[k] == events[k];
  }

  /** An open call's record: announced identity, and all argument text forwarded so far. */
  function OpenRecord(p: seq<Event>, fr: seq<Fragment>): Option<Partial>
    requires p != [] && p[0].Started?
  {
    Some(Partial(Some(p[0].id), Some(p[0].name), Concat(Parts(fr))))
  }

  lemma OpenRecorded(i: nat, open: seq<Event>, id: string, name: string, parts: seq<string>)
    requires open == [Started(i, id, name)] + Deltas(i, parts)
    ensures PartialOf(open) == Some(Partial(Some(id), Some(name), Concat(parts)))
    ensures open[0].Started? && forall k :: 0 <= k < |open| ==> !open[k].Completed?
  {
    DeltasAccumulate(i, id, name, parts);
  }

  /** What one call's life leaves in the recorder. */
  lemma LifeRecorded(i: nat, p: seq<Event>, fr: seq<Fragment>, tools: Tools)
    requires LifeOf(i, p, fr, tools)
    ensures var (started, completed) := ((exists k :: 0 <= k < |p| && p[k].Started?),
                                         (exists k :: 0 <= k < |p| && p[k].Completed?));
            (PartialOf(p).Some? <==> started && !completed)
            && (PartialOf(p).Some? ==> p != [] && p[0].Started? && PartialOf(p) == OpenRecord(p, fr))
  {
    if p != [] {
      var open := [Started(i, p[0].id, p[0].name)] + Deltas(i, Parts(fr));
      OpenRecorded(i, open, p[0].id, p[0].name, Parts(fr));
      assert p[0].Started?;
      if p != open {
        assert p == open + [Completed(CallOf(i, fr, tools))];
        assert p[..|p| - 1] == open && p[|p| - 1].Completed?;
      }
    }
  }

  /** However the request ends, the recorder holds exactly the calls announced but not completed, with their text so
      far. */
  lemma RecorderHoldsOpenCalls(attempts: nat -> Attempt, used: nat, tools: Tools, i: nat)
    requires AllRepeatable(attempts, used, tools)
    ensures var events := Joined(attempts, used, tools) + Run(attempts(used), tools).0;
            var r := Recorded(events);
            (i in r.partial <==> HasStarted(events, i) && !HasCompleted(events, i))
            && (i in r.partial ==>
                  var p := Project(events, i);
                  p != [] && p[0].Started? && Some(r.partial[i]) == OpenRecord(p, FragsOf(attempts(used), i)))
            && (Run(attempts(used), tools).1.Finished? ==> i !in r.partial)
  {
    var events, last := Joined(attempts, used, tools) + Run(attempts(used), tools).0, Run(attempts(used), tools).0;
    var fr := FragsOf(attempts(used), i);
    SingleAttempt(attempts, used, tools);
    CallLife(attempts(used), tools, i);
    RecordedByIndex(events, i);
    ProjectKeeps(events, i);
    LifeRecorded(i, Project(last, i), fr, tools);
    if Run(attempts(used), tools).1.Finished? { FinishedLeavesNothing(i, Project(last, i), fr, tools); }
  }

  lemma FinishedLeavesNothing(i: nat, p: seq<Event>, fr: seq<Fragment>, tools: Tools)
    requires LifeOf(i, p, fr, tools) && WholeLife(i, p, fr, tools)
    ensures PartialOf(p).None?
  {
    if fr != [] { assert p[|p| - 1].Completed?; } else { assert p == []; }
  }

  lemma {:induction false} RecordedCalls(events: seq<Event>)
    ensures Recorded(events).calls == Calls(events)
    decreases |events|
  {
    if events != [] { RecordedCalls(events[..|events| - 1]); }
  }
}
