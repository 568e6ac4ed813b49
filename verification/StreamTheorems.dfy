/**
What the event stream says about each call, in terms of that call's fragments alone.
*/
module StreamTheorems {
  import opened Options
  import opened Maps
  import opened StreamAssembly

  // ---------------------------------------------------------------- one call's fragments

  /** The fragments of one index, in arrival order. */
  function Frags(inputs: seq<Input>, i: nat): seq<Fragment> {
    if inputs == [] then []
    else
      var last := inputs[|inputs| - 1];
      Frags(inputs[..|inputs| - 1], i) + if last.Part? && last.fragment.index == i then [last.fragment] else []
  }

  /** The last identifier that was sent. */
  function Id(fr: seq<Fragment>): string {
    if fr == [] then "" else if fr[|fr| - 1].id != "" then fr[|fr| - 1].id else Id(fr[..|fr| - 1])
  }

  /** All name pieces together. */
  function Name(fr: seq<Fragment>): string {
    if fr == [] then ""
    else if fr[|fr| - 1].call.Some? then Name(fr[..|fr| - 1]) + fr[|fr| - 1].call.value.name
    else Name(fr[..|fr| - 1])
  }

  /** The argument pieces. */
  function Parts(fr: seq<Fragment>): seq<string> {
    if fr == [] then []
    else if Carries(fr[|fr| - 1]) then Parts(fr[..|fr| - 1]) + [fr[|fr| - 1].call.value.arguments.value]
    else Parts(fr[..|fr| - 1])
  }

  predicate Ready(fr: seq<Fragment>, allowed: set<string>) { Id(fr) != "" && Name(fr) != "" && Name(fr) in allowed }

  /** How many fragments it takes until the call can be announced: the last of them carries arguments. */
  function StartPoint(fr: seq<Fragment>, allowed: set<string>): (k: Option<nat>)
    ensures k.Some? ==> 0 < k.value <= |fr| && Carries(fr[k.value - 1]) && Ready(fr[..k.value], allowed)
  {
    if fr == [] then None
    else
      var shorter := fr[..|fr| - 1];
      var before := StartPoint(shorter, allowed);
      if before.Some? then
        assert shorter[..before.value] == fr[..before.value];
        before
      else if Carries(fr[|fr| - 1]) && Ready(fr, allowed) then
        assert fr[..|fr|] == fr;
        Some(|fr|)
      else None
  }

  /** As `StartPoint`, with the end of the stream as the last occasion. */
  function EndStart(fr: seq<Fragment>, allowed: set<string>): (k: Option<nat>)
    ensures k.Some? ==> k.value <= |fr| && Ready(fr[..k.value], allowed)
  {
    if StartPoint(fr, allowed).Some? then StartPoint(fr, allowed)
    else if Ready(fr, allowed) then
      assert fr[..|fr|] == fr;
      Some(|fr|)
    else None
  }

  /** Before the start point the call was never ready while arguments arrived. */
  lemma {:induction false} StartPointIsFirst(fr: seq<Fragment>, allowed: set<string>, k: nat)
    requires 0 < k <= |fr| && Carries(fr[k - 1]) && Ready(fr[..k], allowed)
    ensures StartPoint(fr, allowed).Some? && StartPoint(fr, allowed).value <= k
    decreases |fr|
  {
    if k < |fr| {
      assert fr[..|fr| - 1][..k] == fr[..k];
      StartPointIsFirst(fr[..|fr| - 1], allowed, k);
    } else {
      assert fr[..k] == fr;
    }
  }

  /** Once sent, an identifier stays; names only grow. */
  lemma {:induction false} NamesGrow(fr: seq<Fragment>, k: nat)
    requires k <= |fr|
    ensures Name(fr[..k]) <= Name(fr) && (Id(fr[..k]) != "" ==> Id(fr) != "")
    ensures Name(fr) == Name(fr[..k])
            <==> forall j :: k <= j < |fr| && fr[j].call.Some? ==> fr[j].call.value.name == ""
    ensures (forall j :: k <= j < |fr| ==> fr[j].id == "" || fr[j].id == Id(fr[..k])) ==> Id(fr) == Id(fr[..k])
    decreases |fr|
  {
    if k == |fr| {
      assert fr[..k] == fr;
    } else {
      var shorter := fr[..|fr| - 1];
      assert shorter[..k] == fr[..k];
      NamesGrow(shorter, k);
      assert forall j :: k <= j < |fr| - 1 ==> shorter[j] == fr[j];
      var last := fr[|fr| - 1];
      assert last.call.Some? && last.call.value.name != "" ==> |Name(fr)| > |Name(shorter)|;
    }
  }

  /** The identifier is the last one of the later fragments, or else the one known before them. */
  lemma {:induction false} IdOfBoth(first: seq<Fragment>, later: seq<Fragment>)
    ensures Id(first + later) == if Id(later) != "" then Id(later) else Id(first)
    decreases |later|
  {
    if later == [] {
      assert first + later == first;
    } else {
      assert (first + later)[..|first + later| - 1] == first + later[..|later| - 1];
      IdOfBoth(first, later[..|later| - 1]);
    }
  }

  // ---------------------------------------------------------------- events of one index

  function IndexOf(e: Event): Option<nat> {
    match e
    case Started(index, _, _) => Some(index)
    case ArgumentsDelta(index, _) => Some(index)
    case Completed(call) => Some(call.index)
    case _ => None
  }

  function Project(events: seq<Event>, i: nat): seq<Event> {
    if events == [] then []
    else Project(events[..|events| - 1], i) + if IndexOf(events[|events| - 1]) == Some(i) then [events[|events| - 1]]
      else []
  }

  lemma {:induction false} ProjectBoth(first: seq<Event>, second: seq<Event>, i: nat)
    ensures Project(first + second, i) == Project(first, i) + Project(second, i)
    decreases |second|
  {
    if second == [] {
      assert first + second == first;
    } else {
      var shorter := second[..|second| - 1];
      assert (first + second)[..|first + second| - 1] == first + shorter;
      ProjectBoth(first, shorter, i);
    }
  }

  lemma {:induction false} ProjectSame(events: seq<Event>, i: nat)
    requires forall k :: 0 <= k < |events| ==> IndexOf(events[k]) == Some(i)
    ensures Project(events, i) == events
    decreases |events|
  {
    if events != [] { ProjectSame(events[..|events| - 1], i); }
  }

  lemma {:induction false} ProjectOther(events: seq<Event>, i: nat)
    requires forall k :: 0 <= k < |events| ==> IndexOf(events[k]) != Some(i)
    ensures Project(events, i) == []
    decreases |events|
  {
    if events != [] { ProjectOther(events[..|events| - 1], i); }
  }

  // ---------------------------------------------------------------- the state while chunks arrive

  function ItemOf(fr: seq<Fragment>, allowed: set<string>): Item {
    var begun := StartPoint(fr, allowed).Some?;
    Item(Id(fr), Name(fr), Parts(fr), if begun then |Parts(fr)| else 0, begun, begun)
  }

  /** What a call has emitted before the stream ends. */
  function Emitted(i: nat, fr: seq<Fragment>, allowed: set<string>): seq<Event> {
    match StartPoint(fr, allowed)
    case None => []
    case Some(k) => [Started(i, Id(fr[..k]), Name(fr[..k]))] + Deltas(i, Parts(fr))
  }

  function Longer(fr: seq<Fragment>, f: Fragment): (r: seq<Fragment>)
    ensures |r| == |fr| + 1 && r[|fr|] == f && r[..|fr|] == fr
  {
    fr + [f]
  }

  lemma AppliedItem(fr: seq<Fragment>, f: Fragment, allowed: set<string>)
    ensures var item := Apply(ItemOf(fr, allowed), f);
            item == ItemOf(fr, allowed).(id := Id(Longer(fr, f)), name := Name(Longer(fr, f)),
                                         parts := Parts(Longer(fr, f)))
  {
  }

  lemma FlushedMeaning(i: nat, fr: seq<Fragment>, f: Fragment, allowed: set<string>)
    requires Carries(f)
    ensures var item := Apply(ItemOf(fr, allowed), f);
            FlushedItem(item, allowed) == ItemOf(Longer(fr, f), allowed)
            && Emitted(i, Longer(fr, f), allowed) == Emitted(i, fr, allowed) + FlushedEvents(item, i, allowed)
  {
    var longer := Longer(fr, f);
    var item := Apply(ItemOf(fr, allowed), f);
    AppliedItem(fr, f, allowed);
    assert Parts(longer) == Parts(fr) + [f.call.value.arguments.value];
    if StartPoint(fr, allowed).Some? {
      var k := StartPoint(fr, allowed).value;
      assert longer[..k] == fr[..k];
      assert item.parts[item.emitted..] == [f.call.value.arguments.value];
      assert Deltas(i, Parts(longer)) == Deltas(i, Parts(fr)) + Deltas(i, [f.call.value.arguments.value]);
    } else if Ready(longer, allowed) {
      assert longer[..|longer|] == longer;
      assert item.parts[item.emitted..] == Parts(longer);
    }
  }

  lemma NotCarriedMeaning(i: nat, fr: seq<Fragment>, f: Fragment, allowed: set<string>)
    requires !Carries(f)
    ensures Apply(ItemOf(fr, allowed), f) == ItemOf(Longer(fr, f), allowed)
    ensures Emitted(i, Longer(fr, f), allowed) == Emitted(i, fr, allowed)
  {
    var longer := Longer(fr, f);
    AppliedItem(fr, f, allowed);
    assert StartPoint(longer, allowed) == StartPoint(fr, allowed);
    var k := StartPoint(fr, allowed);
    if k.Some? { assert longer[..k.value] == fr[..k.value]; }
  }

  /** The state holds for index `i` exactly what its fragments say. */
  ghost predicate Tracks(s: State, fr: seq<Fragment>, i: nat, allowed: set<string>) {
    (i in s.pending <==> fr != []) && (fr != [] ==> s.pending[i] == ItemOf(fr, allowed))
    && Project(s.out, i) == Emitted(i, fr, allowed)
  }

  lemma FlushedAllAtIndex(item: Item, index: nat, allowed: set<string>)
    ensures forall k :: 0 <= k < |FlushedEvents(item, index, allowed)|
               ==> IndexOf(FlushedEvents(item, index, allowed)[k]) == Some(index)
  {
  }

  lemma PartTracks(s: State, fr: seq<Fragment>, f: Fragment, i: nat, allowed: set<string>)
    requires Tracks(s, fr, i, allowed)
    ensures Tracks(StepPart(s, f, allowed), if f.index == i then Longer(fr, f) else fr, i, allowed)
  {
    var item := Apply(ItemAt(s.pending, f.index), f);
    var events := FlushedEvents(item, f.index, allowed);
    FlushedAllAtIndex(item, f.index, allowed);
    ProjectBoth(s.out, events, i);
    if f.index == i {
      assert ItemAt(s.pending, i) == ItemOf(fr, allowed);
      ProjectSame(events, i);
      if Carries(f) { FlushedMeaning(i, fr, f, allowed); } else { NotCarriedMeaning(i, fr, f, allowed); }
    } else {
      ProjectOther(events, i);
    }
  }

  lemma OtherInputTracks(s: State, fr: seq<Fragment>, input: Input, i: nat, allowed: set<string>)
    requires Tracks(s, fr, i, allowed) && !input.Part?
    ensures Tracks(Step(s, input, allowed), fr, i, allowed)
  {
    match input
    case UsageSeen(u) => ProjectSkips(s.out, Usage(u), i);
    case FinishSeen(_) =>
    case TextSeen(text, choice) => ProjectSkips(s.out, Text(text, choice), i);
  }

  lemma ProjectSkips(events: seq<Event>, e: Event, i: nat)
    requires IndexOf(e) != Some(i)
    ensures Project(events + [e], i) == Project(events, i)
  {
    assert (events + [e])[..|events|] == events;
  }

  lemma FragsOne(inputs: seq<Input>, last: Input, i: nat)
    ensures var fr := Frags(inputs, i);
            Frags(inputs + [last], i) == if last.Part?
              && last.fragment.index == i then Longer(fr, last.fragment) else fr
  {
    assert (inputs + [last])[..|inputs|] == inputs;
  }

  lemma StepTracks(inputs: seq<Input>, last: Input, s: State, i: nat, allowed: set<string>)
    requires Tracks(s, Frags(inputs, i), i, allowed)
    ensures Tracks(Step(s, last, allowed), Frags(inputs + [last], i), i, allowed)
  {
    FragsOne(inputs, last, i);
    if last.Part? {
      PartTracks(s, Frags(inputs, i), last.fragment, i, allowed);
    } else {
      OtherInputTracks(s, Frags(inputs, i), last, i, allowed);
    }
  }

  lemma {:induction false} StateTracks(inputs: seq<Input>, i: nat, allowed: set<string>)
    ensures Tracks(After(inputs, allowed), Frags(inputs, i), i, allowed)
    decreases |inputs|
  {
    if inputs != [] {
      var shorter, last := inputs[..|inputs| - 1], inputs[|inputs| - 1];
      StateTracks(shorter, i, allowed);
      StepTracks(shorter, last, After(shorter, allowed), i, allowed);
      assert inputs == shorter + [last];
    }
  }

  // ---------------------------------------------------------------- the end of the stream

  /** A call announced and with all its argument pieces forwarded. */
  function Opened(i: nat, fr: seq<Fragment>, allowed: set<string>): seq<Event>
    requires EndStart(fr, allowed).Some?
  {
    var k := EndStart(fr, allowed).value;
    [Started(i, Id(fr[..k]), Name(fr[..k]))] + Deltas(i, Parts(fr))
  }

  predicate Completes(fr: seq<Fragment>, tools: Tools) {
    EndStart(fr, tools.allowed).Some? && tools.decode(ArgumentText(Parts(fr), tools.space)).Object?
  }

  function CallOf(i: nat, fr: seq<Fragment>, tools: Tools): Call
    requires Completes(fr, tools)
  {
    Call(i, Id(fr), Name(fr), tools.decode(ArgumentText(Parts(fr), tools.space)).fields)
  }

  function Whole(i: nat, fr: seq<Fragment>, tools: Tools): seq<Event>
    requires Completes(fr, tools)
  {
    Opened(i, fr, tools.allowed) + [Completed(CallOf(i, fr, tools))]
  }

  /** One call's whole life: emitted before the end, plus what its end adds. */
  lemma EndMeaning(i: nat, fr: seq<Fragment>, tools: Tools)
    ensures var (events, error) := EndItem(ItemOf(fr, tools.allowed), i, tools);
            var all := Emitted(i, fr, tools.allowed) + events;
            (error.None? <==> Completes(fr, tools))
            && (error.None? ==> all == Whole(i, fr, tools))
            && (error.Some? ==> all == if EndStart(fr, tools.allowed).Some? then Opened(i, fr, tools.allowed) else [])
  {
    var item, start := ItemOf(fr, tools.allowed), EndStart(fr, tools.allowed);
    var flushed := FlushedEvents(item, i, tools.allowed);
    if start.Some? {
      var k := start.value;
      NamesGrow(fr, k);
      assert Emitted(i, fr, tools.allowed) + flushed == Opened(i, fr, tools.allowed) by {
        if StartPoint(fr, tools.allowed).Some? {
          assert item.parts[item.emitted..] == [];
        } else {
          assert fr[..k] == fr && item.parts[item.emitted..] == Parts(fr);
        }
      }
      if Completes(fr, tools) {
        var done := [Completed(CallOf(i, fr, tools))];
        assert Emitted(i, fr, tools.allowed) + (flushed + done) == Opened(i, fr, tools.allowed) + done;
      }
    } else {
      assert flushed == [];
    }
  }

  lemma EndsAtIndex(item: Item, index: nat, tools: Tools)
    ensures var events := EndItem(item, index, tools).0;
            forall k :: 0 <= k < |events| ==> IndexOf(events[k]) == Some(index)
  {
    FlushedAllAtIndex(item, index, tools.allowed);
  }

  /** How far the completion loop came: the position of the failing index, or all of them. */
  function Reached(pending: map<nat, Item>, indexes: seq<nat>, tools: Tools): (r: nat)
    requires forall i :: i in indexes ==> i in pending
    ensures r <= |indexes|
    decreases |indexes|
  {
    if indexes == [] then 0
    else
      var shorter := indexes[..|indexes| - 1];
      if EndAll(pending, shorter, tools).1.Some? then Reached(pending, shorter, tools)
      else if EndAll(pending, indexes, tools).1.Some? then |shorter|
      else |indexes|
  }

  predicate Ascending(indexes: seq<nat>) { forall j, k :: 0 <= j < k < |indexes| ==> indexes[j] < indexes[k] }

  /** Each call is ended at most once: those before the failing index without error. */
  lemma {:induction false} EndAllByIndex(pending: map<nat, Item>, indexes: seq<nat>, tools: Tools, i: nat)
    requires Ascending(indexes) && forall i :: i in indexes ==> i in pending
    ensures i !in indexes ==> Project(EndAll(pending, indexes, tools).0, i) == []
    ensures i in indexes ==> EndedAs(EndAll(pending, indexes, tools), EndItem(pending[i], i, tools), i)
    decreases |indexes|
  {
    if indexes != [] {
      var shorter, last := indexes[..|indexes| - 1], indexes[|indexes| - 1];
      assert indexes == shorter + [last];
      assert last in indexes && last !in shorter;
      EndAllByIndex(pending, shorter, tools, i);
      EndAllProjects(pending, indexes, tools, i);
      assert i in indexes <==> i in shorter || i == last;
    }
  }

  /** Of all that the calls end with, index `i` shows nothing or its own end; that end in full when no call failed. */
  predicate EndedAs(
    all: (seq<Event>, Option<ProtocolError>), own: (seq<Event>, Option<ProtocolError>), i: nat)
  {
    (Project(all.0, i) == [] || Project(all.0, i) == own.0)
    && (all.1.None? ==> Project(all.0, i) == own.0 && own.1.None?)
  }

  lemma EndAllProjects(pending: map<nat, Item>, indexes: seq<nat>, tools: Tools, i: nat)
    requires indexes != [] && forall k :: k in indexes ==> k in pending
    ensures var (shorter, last) := (indexes[..|indexes| - 1], indexes[|indexes| - 1]);
            var (before, end) := (EndAll(pending, shorter, tools), EndItem(pending[last], last, tools));
            var (events, error) := EndAll(pending, indexes, tools);
            if before.1.Some? then error == before.1 && events == before.0
            else error == end.1 && Project(events, i) == Project(before.0, i) + if i == last then end.0 else []
  {
    var (shorter, last) := (indexes[..|indexes| - 1], indexes[|indexes| - 1]);
    var end := EndItem(pending[last], last, tools).0;
    ProjectBoth(EndAll(pending, shorter, tools).0, end, i);
    EndsAtIndex(pending[last], last, tools);
    if i == last { ProjectSame(end, i); } else { ProjectOther(end, i); }
  }

  /** The loop succeeds when every call can be completed. */
  lemma {:induction false} EndAllSucceeds(pending: map<nat, Item>, indexes: seq<nat>, tools: Tools)
    requires forall i :: i in indexes ==> i in pending && EndItem(pending[i], i, tools).1.None?
    ensures EndAll(pending, indexes, tools).1.None?
    decreases |indexes|
  {
    if indexes != [] {
      EndAllSucceeds(pending, indexes[..|indexes| - 1], tools);
      assert indexes[|indexes| - 1] in indexes;
    }
  }

  // ---------------------------------------------------------------- the whole attempt

  function FragsOf(attempt: Attempt, i: nat): seq<Fragment> { Frags(Inputs(attempt.chunks), i) }

  /** What index `i` may show: nothing, an open call, or a completed one. */
  ghost predicate LifeOf(i: nat, events: seq<Event>, fr: seq<Fragment>, tools: Tools) {
    events == Emitted(i, fr, tools.allowed)
    || (EndStart(fr, tools.allowed).Some? && events == Opened(i, fr, tools.allowed))
    || (Completes(fr, tools) && events == Whole(i, fr, tools))
  }

  /** A call that was ever mentioned has completed. */
  ghost predicate WholeLife(i: nat, events: seq<Event>, fr: seq<Fragment>, tools: Tools) {
    fr != [] ==> Completes(fr, tools) && events == Whole(i, fr, tools)
  }

  /** The completion loop, on a state that tracks the fragments. */
  lemma EndTracks(s: State, fr: seq<Fragment>, i: nat, tools: Tools)
    requires Tracks(s, fr, i, tools.allowed)
    ensures var end := EndAll(s.pending, SortedKeys(s.pending.Keys), tools);
            LifeOf(i, Project(s.out + end.0, i), fr, tools)
            && (end.1.None? ==> WholeLife(i, Project(s.out + end.0, i), fr, tools))
  {
    var keys := SortedKeys(s.pending.Keys);
    EndAllByIndex(s.pending, keys, tools, i);
    ProjectBoth(s.out, EndAll(s.pending, keys, tools).0, i);
    EndMeaning(i, fr, tools);
  }

  lemma ProjectTail(events: seq<Event>, stop: Option<string>, i: nat)
    ensures Project(events + [Response(stop)], i) == Project(events, i)
  {
    assert IndexOf(Response(stop)).None?;
    ProjectSkips(events, Response(stop), i);
  }

  /** The closing response event belongs to no call. */
  lemma ConcludeProjects(s: State, interrupted: Option<bool>, i: nat, tools: Tools)
    ensures var (out, ending) := Conclude(s, interrupted, tools);
            var end := EndAll(s.pending, SortedKeys(s.pending.Keys), tools);
            if interrupted.Some? || CutShort(s.finish) then Project(out, i) == Project(s.out, i) && !ending.Finished?
            else Project(out, i) == Project(s.out + end.0, i) && (ending.Finished? ==> end.1.None?)
  {
    ConcludeReadProjects(s, i, tools);
  }

  lemma ConcludeReadProjects(s: State, i: nat, tools: Tools)
    ensures var (out, ending) := ConcludeRead(s, tools);
            var end := EndAll(s.pending, SortedKeys(s.pending.Keys), tools);
            Project(out, i) == Project(s.out + end.0, i) && (ending.Finished? ==> end.1.None?)
  {
    var end := EndAll(s.pending, SortedKeys(s.pending.Keys), tools);
    var shown := s.out + end.0;
    ProjectTail(shown, s.finish, i);
    if end.1.Some? || (!s.semantic && s.pending == map[]) {
      assert ConcludeRead(s, tools).0 == shown;
    } else {
      assert ConcludeRead(s, tools).0 == shown + [Response(s.finish)];
    }
  }

  lemma ConcludeTracks(s: State, interrupted: Option<bool>, fr: seq<Fragment>, i: nat, tools: Tools)
    requires Tracks(s, fr, i, tools.allowed)
    ensures var (out, ending) := Conclude(s, interrupted, tools);
            LifeOf(i, Project(out, i), fr, tools)
            && (ending.Finished? ==> WholeLife(i, Project(out, i), fr, tools))
  {
    ConcludeProjects(s, interrupted, i, tools);
    EndTracks(s, fr, i, tools);
  }

  /** Every index, in every attempt, shows one announcement, then all its argument pieces, then at most one
      completion. */
  lemma CallLife(attempt: Attempt, tools: Tools, i: nat)
    ensures var (out, ending) := Run(attempt, tools);
            LifeOf(i, Project(out, i), FragsOf(attempt, i), tools)
            && (ending.Finished? ==> WholeLife(i, Project(out, i), FragsOf(attempt, i), tools))
  {
    StateTracks(Inputs(attempt.chunks), i, tools.allowed);
    ConcludeTracks(After(Inputs(attempt.chunks), tools.allowed), attempt.interrupted, FragsOf(attempt, i), i, tools);
  }

  /** Nothing was sent that could be shown. */
  ghost predicate NothingToShow(attempt: Attempt, tools: Tools) {
    !After(Inputs(attempt.chunks), tools.allowed).semantic && forall i: nat :: FragsOf(attempt, i) == []
  }

  ghost predicate AllComplete(attempt: Attempt, tools: Tools) {
    forall i: nat :: FragsOf(attempt, i) != [] ==> Completes(FragsOf(attempt, i), tools)
  }

  lemma PendingMeaning(attempt: Attempt, tools: Tools)
    ensures var s := After(Inputs(attempt.chunks), tools.allowed);
            (NothingToShow(attempt, tools) <==> !s.semantic && s.pending == map[])
            && (AllComplete(attempt, tools) <==> EndAll(s.pending, SortedKeys(s.pending.Keys), tools).1.None?)
  {
    var s := After(Inputs(attempt.chunks), tools.allowed);
    forall i: nat
      ensures i in s.pending <==> FragsOf(attempt, i) != []
      ensures i in s.pending ==> (EndItem(s.pending[i], i, tools).1.None? <==> Completes(FragsOf(attempt, i), tools))
    {
      StateTracks(Inputs(attempt.chunks), i, tools.allowed);
      EndMeaning(i, FragsOf(attempt, i), tools);
    }
    if AllComplete(attempt, tools) { EndAllSucceeds(s.pending, SortedKeys(s.pending.Keys), tools); }
    if EndAll(s.pending, SortedKeys(s.pending.Keys), tools).1.None? {
      forall i: nat | FragsOf(attempt, i) != [] ensures Completes(FragsOf(attempt, i), tools) {
        EndAllByIndex(s.pending, SortedKeys(s.pending.Keys), tools, i);
      }
    }
    if s.pending != map[] {
      var i :| i in s.pending;
      assert FragsOf(attempt, i) != [];
    }
  }

  /** An attempt finishes exactly when nothing cut it short, every call completes, and there is something to show. */
  lemma FinishesExactlyWhen(attempt: Attempt, tools: Tools)
    ensures Run(attempt, tools).1.Finished?
            <==> attempt.interrupted.None? && !CutShort(After(Inputs(attempt.chunks), tools.allowed).finish)
                 && AllComplete(attempt, tools) && !NothingToShow(attempt, tools)
  {
    PendingMeaning(attempt, tools);
  }

  // ---------------------------------------------------------------- completed calls

  function Calls(events: seq<Event>): seq<Call> {
    if events == [] then []
    else Calls(events[..|events| - 1]) + if events[|events| - 1].Completed? then [events[|events| - 1].call] else []
  }

  lemma {:induction false} CallsBoth(first: seq<Event>, second: seq<Event>)
    ensures Calls(first + second) == Calls(first) + Calls(second)
    decreases |second|
  {
    if second == [] {
      assert first + second == first;
    } else {
      assert (first + second)[..|first + second| - 1] == first + second[..|second| - 1];
      CallsBoth(first, second[..|second| - 1]);
    }
  }

  lemma {:induction false} NoCalls(events: seq<Event>)
    requires forall k :: 0 <= k < |events| ==> !events[k].Completed?
    ensures Calls(events) == []
    decreases |events|
  {
    if events != [] { NoCalls(events[..|events| - 1]); }
  }

  lemma NoCallAdded(events: seq<Event>, more: seq<Event>)
    requires Calls(events) == [] && forall k :: 0 <= k < |more| ==> !more[k].Completed?
    ensures Calls(events + more) == []
  {
    NoCalls(more);
    CallsBoth(events, more);
  }

  lemma StepCompletesNothing(s: State, input: Input, allowed: set<string>)
    requires Calls(s.out) == []
    ensures Calls(Step(s, input, allowed).out) == []
  {
    match input
    case UsageSeen(u) => NoCallAdded(s.out, [Usage(u)]);
    case FinishSeen(_) =>
    case TextSeen(text, choice) => NoCallAdded(s.out, [Text(text, choice)]);
    case Part(f) => NoCallAdded(s.out, FlushedEvents(Apply(ItemAt(s.pending, f.index), f), f.index, allowed));
  }

  lemma {:induction false} NoCallsWhileReading(inputs: seq<Input>, allowed: set<string>)
    ensures Calls(After(inputs, allowed).out) == []
    decreases |inputs|
  {
    if inputs != [] {
      var shorter := inputs[..|inputs| - 1];
      NoCallsWhileReading(shorter, allowed);
      StepCompletesNothing(After(shorter, allowed), inputs[|inputs| - 1], allowed);
    }
  }

  predicate CallsAscend(calls: seq<Call>) { forall j, k :: 0 <= j < k < |calls| ==> calls[j].index < calls[k].index }

  lemma EndItemCalls(item: Item, index: nat, tools: Tools)
    ensures var (events, error) := EndItem(item, index, tools);
            |Calls(events)| <= 1 && (error.Some? ==> Calls(events) == []) && forall c :: c in Calls(events)
                                                                                ==> c.index == index
  {
    var flushed := FlushedEvents(item, index, tools.allowed);
    EndItemShape(item, index, tools);
    NoCalls(flushed);
    if EndItem(item, index, tools).1.None? { OneCall(flushed, EndItem(item, index, tools).0[|flushed|]); }
  }

  lemma EndItemShape(item: Item, index: nat, tools: Tools)
    ensures var (events, error) := EndItem(item, index, tools);
            var flushed := FlushedEvents(item, index, tools.allowed);
            if error.Some? then events == flushed
            else |events| == |flushed| + 1 && events == flushed + [events[|flushed|]]
                 && events[|flushed|].Completed? && events[|flushed|].call.index == index
  {
  }

  lemma OneCall(before: seq<Event>, last: Event)
    requires Calls(before) == [] && last.Completed?
    ensures Calls(before + [last]) == [last.call]
  {
    assert (before + [last])[..|before|] == before;
  }

  lemma {:induction false} EndAllCalls(pending: map<nat, Item>, indexes: seq<nat>, tools: Tools)
    requires Ascending(indexes) && forall i :: i in indexes ==> i in pending
    ensures CallsAscend(Calls(EndAll(pending, indexes, tools).0))
    ensures forall c :: c in Calls(EndAll(pending, indexes, tools).0) ==> c.index in indexes
    decreases |indexes|
  {
    if indexes != [] {
      var shorter, last := indexes[..|indexes| - 1], indexes[|indexes| - 1];
      assert indexes == shorter + [last];
      EndAllCalls(pending, shorter, tools);
      var before, end := EndAll(pending, shorter, tools), EndItem(pending[last], last, tools);
      EndItemCalls(pending[last], last, tools);
      CallsBoth(before.0, end.0);
      forall c | c in Calls(before.0) ensures c.index < last {
        var k :| 0 <= k < |shorter| && shorter[k] == c.index;
        assert indexes[k] < indexes[|indexes| - 1];
      }
    }
  }

  lemma CallsAround(first: seq<Event>, second: seq<Event>, stop: Option<string>)
    requires Calls(first) == []
    ensures Calls(first + second) == Calls(second) == Calls(first + second + [Response(stop)])
  {
    CallsBoth(first, second);
    CallsBoth(first + second, [Response(stop)]);
    NoCalls([Response(stop)]);
  }

  lemma ConcludedCalls(s: State, interrupted: Option<bool>, tools: Tools)
    requires Calls(s.out) == []
    ensures CallsAscend(Calls(Conclude(s, interrupted, tools).0))
  {
    ConcludedRead(s, tools);
  }

  lemma ConcludedRead(s: State, tools: Tools)
    requires Calls(s.out) == []
    ensures CallsAscend(Calls(ConcludeRead(s, tools).0))
  {
    var keys := SortedKeys(s.pending.Keys);
    var end := EndAll(s.pending, keys, tools);
    EndAllCalls(s.pending, keys, tools);
    CallsAround(s.out, end.0, s.finish);
    var out := ConcludeRead(s, tools).0;
    if end.1.Some? || (!s.semantic && s.pending == map[]) {
      assert out == s.out + end.0;
    } else {
      assert out == s.out + end.0 + [Response(s.finish)];
    }
  }

  /** Calls complete in ascending index order, however their fragments were interleaved. */
  lemma CompletedInOrder(attempt: Attempt, tools: Tools)
    ensures CallsAscend(Calls(Run(attempt, tools).0))
  {
    NoCallsWhileReading(Inputs(attempt.chunks), tools.allowed);
    ConcludedCalls(After(Inputs(attempt.chunks), tools.allowed), attempt.interrupted, tools);
  }

  /** After its announcement the call keeps its name and repeats no other identifier. */
  ghost predicate FixedOnceStarted(fr: seq<Fragment>, allowed: set<string>) {
    EndStart(fr, allowed).Some?
    ==> forall j :: EndStart(fr, allowed).value <= j < |fr|
                    ==> (fr[j].id == "" || fr[j].id == Id(fr[..EndStart(fr, allowed).value]))
                        && (fr[j].call.Some? ==> fr[j].call.value.name == "")
  }

  /** With identifier and name fixed the completed call is the announced one and names an offered tool. It keeps the
      announced name exactly when no later fragment adds to it, and the announced identifier exactly when the last later
      one, if any, is the same. */
  lemma CompletesAsAnnounced(i: nat, fr: seq<Fragment>, tools: Tools)
    requires Completes(fr, tools)
    ensures var (call, start) := (CallOf(i, fr, tools), Whole(i, fr, tools)[0]);
            start.Started? && start.name in tools.allowed
            && (FixedOnceStarted(fr, tools.allowed) ==>
                  call.id == start.id && call.name == start.name && call.name in tools.allowed)
            && (call.name == start.name
                <==> forall j :: EndStart(fr, tools.allowed).value <= j < |fr| && fr[j].call.Some?
                                 ==> fr[j].call.value.name == "")
            && (call.id == start.id <==> KeepsId(fr, EndStart(fr, tools.allowed).value))
  {
    var k := EndStart(fr, tools.allowed).value;
    NamesGrow(fr, k);
    IdOfBoth(fr[..k], fr[k..]);
    assert fr == fr[..k] + fr[k..];
  }

  /** The last identifier sent from fragment `k` on, if any, is the one known before it. */
  predicate KeepsId(fr: seq<Fragment>, k: nat)
    requires k <= |fr|
  {
    Id(fr[k..]) == "" || Id(fr[k..]) == Id(fr[..k])
  }

  /** The name pieces, in arrival order. */
  function NamePieces(fr: seq<Fragment>): seq<string> {
    if fr == [] then []
    else if fr[|fr| - 1].call.Some? then NamePieces(fr[..|fr| - 1]) + [fr[|fr| - 1].call.value.name]
    else NamePieces(fr[..|fr| - 1])
  }

  lemma {:induction false} NameIsConcat(fr: seq<Fragment>)
    ensures Name(fr) == Concat(NamePieces(fr))
    decreases |fr|
  {
    if fr != [] {
      NameIsConcat(fr[..|fr| - 1]);
      var pieces := NamePieces(fr);
      if fr[|fr| - 1].call.Some? { assert pieces[..|pieces| - 1] == NamePieces(fr[..|fr| - 1]); }
    }
  }

  /** Some fragment after the announcement adds to the name. */
  predicate NameExtended(fr: seq<Fragment>, allowed: set<string>)
    requires EndStart(fr, allowed).Some?
  {
    exists j :: EndStart(fr, allowed).value <= j < |fr| && fr[j].call.Some? && fr[j].call.value.name != ""
  }

  /** The first event announces an offered name, and the last completes under all the pieces together. */
  predicate NamedAsSpelled(p: seq<Event>, fr: seq<Fragment>, allowed: set<string>) {
    |p| >= 2 && p[0].Started? && p[0].name in allowed && p[|p| - 1].Completed? && EndStart(fr, allowed).Some?
    && (p[|p| - 1].call.name != p[0].name <==> NameExtended(fr, allowed))
    && (p[|p| - 1].call.name in allowed <==> Concat(NamePieces(fr)) in allowed)
  }

  /** In a finished attempt every call is announced under an offered name and completes under all its name pieces
      together: under another name exactly when a piece came later, and an offered one exactly when they spell one. */
  lemma CompletedName(attempt: Attempt, tools: Tools, i: nat)
    requires Run(attempt, tools).1.Finished? && FragsOf(attempt, i) != []
    ensures NamedAsSpelled(Project(Run(attempt, tools).0, i), FragsOf(attempt, i), tools.allowed)
  {
    CallLife(attempt, tools, i);
    WholeNamed(i, FragsOf(attempt, i), tools);
  }

  lemma WholeNamed(i: nat, fr: seq<Fragment>, tools: Tools)
    requires Completes(fr, tools)
    ensures NamedAsSpelled(Whole(i, fr, tools), fr, tools.allowed)
  {
    CompletesAsAnnounced(i, fr, tools);
    NameIsConcat(fr);
  }

  // ---------------------------------------------------------------- what a later fragment can change

  const ANNOUNCED := Fragment(0, "a", Some(Function("read", Some(""))))

  /** An announced call and one more fragment. */
  function Pieces(later: Fragment): seq<Fragment> { [ANNOUNCED, later] }

  /** An attempt that sends just these two. */
  function TwoPieces(later: Fragment): Attempt {
    Attempt([Chunk(None, [Choice(0, None, Some(Delta("", Pieces(later))))])], None)
  }

  lemma AnnouncedFacts()
    ensures Name([ANNOUNCED]) == "read" && Id([ANNOUNCED]) == "a" && Parts([ANNOUNCED]) == [""]
  {
    assert [ANNOUNCED][..0] == [];
    assert Name([]) == "" && Parts([]) == [];
    assert "" + "read" == "read" && [] + [""] == [""];
  }

  lemma PiecesFacts(later: Fragment)
    requires !Carries(later)
    ensures Pieces(later)[..1] == [ANNOUNCED] && Parts(Pieces(later)) == [""]
    ensures Name(Pieces(later)) == if later.call.Some? then "read" + later.call.value.name else "read"
    ensures Id(Pieces(later)) == if later.id != "" then later.id else "a"
  {
    AnnouncedFacts();
    assert Pieces(later) == Longer([ANNOUNCED], later);
  }

  lemma EmptyArguments(space: char -> bool)
    ensures ArgumentText([""], space) == "{}"
  {
    assert [""][..0] == [] && Concat([]) == "" && Concat([""]) == "" + "";
  }

  lemma PiecesComplete(later: Fragment, tools: Tools)
    requires "read" in tools.allowed && tools.decode("{}").Object? && !Carries(later)
    ensures Completes(Pieces(later), tools) && EndStart(Pieces(later), tools.allowed) == Some(1)
  {
    AnnouncedFacts();
    PiecesFacts(later);
    EmptyArguments(tools.space);
    StartPointIsFirst(Pieces(later), tools.allowed, 1);
  }

  lemma PiecesInputs(later: Fragment)
    ensures Inputs(TwoPieces(later).chunks) == [TextSeen("", 0), Part(ANNOUNCED), Part(later)]
  {
    var chunk := TwoPieces(later).chunks[0];
    var choice := chunk.choices[0];
    assert PartInputs(Pieces(later)) == [Part(ANNOUNCED), Part(later)];
    assert ChoiceInputs(choice) == [] + ([TextSeen("", 0)] + PartInputs(Pieces(later)));
    assert [choice][..0] == [] && ChoicesInputs([choice]) == ChoiceInputs(choice);
    assert [chunk][..0] == [] && Inputs([chunk]) == ChunkInputs(chunk);
    assert ChunkInputs(chunk) == [] + ChoicesInputs([choice]);
  }

  lemma PiecesFrags(later: Fragment, i: nat)
    requires later.index == 0
    ensures FragsOf(TwoPieces(later), i) == if i == 0 then Pieces(later) else []
  {
    var text, one, two := TextSeen("", 0), Part(ANNOUNCED), Part(later);
    PiecesInputs(later);
    assert [text][..0] == [] && [text, one][..1] == [text] && [text, one, two][..2] == [text, one];
    assert Frags([text], i) == [];
    assert Frags([text, one], i) == if i == 0 then [ANNOUNCED] else [];
  }

  lemma {:induction false} NoFinishSeen(inputs: seq<Input>, allowed: set<string>)
    requires forall k :: 0 <= k < |inputs| ==> !inputs[k].FinishSeen?
    ensures After(inputs, allowed).finish == None
    decreases |inputs|
  {
    if inputs != [] { NoFinishSeen(inputs[..|inputs| - 1], allowed); }
  }

  lemma PiecesShow(later: Fragment, tools: Tools)
    requires later.index == 0 && Completes(Pieces(later), tools)
    ensures AllComplete(TwoPieces(later), tools) && !NothingToShow(TwoPieces(later), tools)
  {
    forall i: nat ensures FragsOf(TwoPieces(later), i) == if i == 0 then Pieces(later) else [] {
      PiecesFrags(later, i);
    }
    assert |FragsOf(TwoPieces(later), 0)| == 2;
  }

  /** The attempt finishes with its call completed. */
  lemma PiecesFinish(later: Fragment, tools: Tools)
    requires "read" in tools.allowed && tools.decode("{}").Object? && !Carries(later) && later.index == 0
    ensures var (out, ending) := Run(TwoPieces(later), tools);
            ending.Finished? && Completes(Pieces(later), tools) && Project(out, 0) == Whole(0, Pieces(later), tools)
  {
    PiecesComplete(later, tools);
    PiecesShow(later, tools);
    PiecesInputs(later);
    NoFinishSeen(Inputs(TwoPieces(later).chunks), tools.allowed);
    FinishesExactlyWhen(TwoPieces(later), tools);
    PiecesFrags(later, 0);
    assert |Pieces(later)| == 2;
    CallLife(TwoPieces(later), tools, 0);
  }

  const EXTENDED := Fragment(0, "", Some(Function("x", None)))
  const REPLACED := Fragment(0, "b", None)

  lemma NotOffered(allowed: set<string>)
    requires allowed == {"read"}
    ensures "read" + "x" !in allowed
  {
    assert |"read" + "x"| == 5;
  }

  /** An attempt in which the only offered name is extended after its announcement: it finishes, and its call completes
      under a name that was never offered. */
  lemma RenamedAfterStart(tools: Tools)
    requires tools.allowed == {"read"} && tools.decode("{}").Object?
    ensures var (out, ending) := Run(TwoPieces(EXTENDED), tools);
            ending.Finished? && Completes(Pieces(EXTENDED), tools)
            && Project(out, 0) == Whole(0, Pieces(EXTENDED), tools)
    ensures Completes(Pieces(EXTENDED), tools) && CallOf(0, Pieces(EXTENDED), tools).name == "read" + "x"
            && "read" + "x" !in tools.allowed
  {
    PiecesFinish(EXTENDED, tools);
    PiecesFacts(EXTENDED);
    NotOffered(tools.allowed);
  }

  /** An attempt in which another identifier follows the announcement: the call is announced under "a" and completes
      under "b". */
  lemma ReidentifiedAfterStart(tools: Tools)
    requires tools.allowed == {"read"} && tools.decode("{}").Object?
    ensures var (out, ending) := Run(TwoPieces(REPLACED), tools);
            ending.Finished? && Completes(Pieces(REPLACED), tools)
            && Project(out, 0) == Whole(0, Pieces(REPLACED), tools)
    ensures Completes(Pieces(REPLACED), tools) && CallOf(0, Pieces(REPLACED), tools).id == "b"
            && Whole(0, Pieces(REPLACED), tools)[0] == Started(0, "a", "read")
  {
    PiecesFinish(REPLACED, tools);
    PiecesComplete(REPLACED, tools);
    PiecesFacts(REPLACED);
    AnnouncedFacts();
  }
}
