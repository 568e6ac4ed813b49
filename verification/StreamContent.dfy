/** What an attempt's events say of the response itself: its texts, usages, finish reason and argument texts, read off
    the chunks as they were sent. */
module StreamContent {
  import opened Options
  import opened Maps
  import opened StreamAssembly
  import opened StreamTheorems
  import opened StreamRecorder

  // ---------------------------------------------------------------- what was sent

  /** The fragments of one index in a delta, in order. */
  function Picked(calls: seq<Fragment>, i: nat): seq<Fragment> {
    if calls == [] then []
    else Picked(calls[..|calls| - 1], i) + if calls[|calls| - 1].index == i then [calls[|calls| - 1]] else []
  }

  function FragmentsIn(choices: seq<Choice>, i: nat): seq<Fragment> {
    if choices == [] then []
    else
      var last := choices[|choices| - 1];
      FragmentsIn(choices[..|choices| - 1], i) + if last.delta.Some? then Picked(last.delta.value.calls, i) else []
  }

  function FragmentsSent(chunks: seq<Chunk>, i: nat): seq<Fragment> {
    if chunks == [] then []
    else FragmentsSent(chunks[..|chunks| - 1], i) + FragmentsIn(chunks[|chunks| - 1].choices, i)
  }

  function TextOf(choice: Choice): seq<(string, nat)> {
    if choice.delta.Some? && choice.delta.value.text != "" then [(choice.delta.value.text, choice.index)] else []
  }

  /** The texts that are not empty, each with its choice. */
  function TextsIn(choices: seq<Choice>): seq<(string, nat)> {
    if choices == [] then [] else TextsIn(choices[..|choices| - 1]) + TextOf(choices[|choices| - 1])
  }

  function TextsSent(chunks: seq<Chunk>): seq<(string, nat)> {
    if chunks == [] then [] else TextsSent(chunks[..|chunks| - 1]) + TextsIn(chunks[|chunks| - 1].choices)
  }

  /** The last finish reason given, if any. */
  function FinishIn(choices: seq<Choice>): Option<string> {
    if choices == [] then None
    else if choices[|choices| - 1].finish.Some? then choices[|choices| - 1].finish
    else FinishIn(choices[..|choices| - 1])
  }

  function LastOf(later: Option<string>, earlier: Option<string>): Option<string> {
    if later.Some? then later else earlier
  }

  function FinishSent(chunks: seq<Chunk>): Option<string> {
    if chunks == [] then None
    else LastOf(FinishIn(chunks[|chunks| - 1].choices), FinishSent(chunks[..|chunks| - 1]))
  }

  function UsagesAfter(usages: seq<nat>, usage: Option<nat>): seq<nat> {
    if usage.None? || (usages != [] && usages[|usages| - 1] == usage.value) then usages else usages + [usage.value]
  }

  /** The usages, without those that repeat the one before. */
  function UsagesSent(chunks: seq<Chunk>): seq<nat> {
    if chunks == [] then []
    else UsagesAfter(UsagesSent(chunks[..|chunks| - 1]), chunks[|chunks| - 1].usage)
  }

  // ---------------------------------------------------------------- what is shown

  function TextsShown(events: seq<Event>): seq<(string, nat)> {
    if events == [] then []
    else
      var last := events[|events| - 1];
      TextsShown(events[..|events| - 1]) + if last.Text? then [(last.text, last.choice)] else []
  }

  function UsagesShown(events: seq<Event>): seq<nat> {
    if events == [] then []
    else
      var last := events[|events| - 1];
      UsagesShown(events[..|events| - 1]) + if last.Usage? then [last.usage] else []
  }

  /** All argument text that is forwarded, in one piece. */
  function ArgumentsShown(events: seq<Event>): string {
    if events == [] then ""
    else
      var last := events[|events| - 1];
      ArgumentsShown(events[..|events| - 1]) + if last.ArgumentsDelta? then last.part else ""
  }

  /** All argument text that was sent, in one piece. */
  function ArgumentsSent(fr: seq<Fragment>): string {
    if fr == [] then ""
    else
      var last := fr[|fr| - 1].call;
      ArgumentsSent(fr[..|fr| - 1])
      + if last.Some? && last.value.arguments.Some? then last.value.arguments.value else ""
  }

  // ---------------------------------------------------------------- the flat inputs are the chunks

  lemma {:induction false} FragsBoth(first: seq<Input>, second: seq<Input>, i: nat)
    ensures Frags(first + second, i) == Frags(first, i) + Frags(second, i)
    decreases |second|
  {
    if second == [] {
      assert first + second == first;
    } else {
      assert (first + second)[..|first + second| - 1] == first + second[..|second| - 1];
      FragsBoth(first, second[..|second| - 1], i);
    }
  }

  lemma {:induction false} FragsPicked(calls: seq<Fragment>, i: nat)
    ensures Frags(PartInputs(calls), i) == Picked(calls, i)
    decreases |calls|
  {
    if calls != [] {
      var shorter := calls[..|calls| - 1];
      FragsPicked(shorter, i);
      assert PartInputs(calls)[..|calls| - 1] == PartInputs(shorter);
    }
  }

  lemma FragsOfChoice(choice: Choice, i: nat)
    ensures Frags(ChoiceInputs(choice), i)
            == if choice.delta.Some? then Picked(choice.delta.value.calls, i) else []
  {
    var finish := FinishInputs(choice.finish);
    assert Frags(finish, i) == [];
    if choice.delta.Some? {
      var text, parts := [TextSeen(choice.delta.value.text, choice.index)], PartInputs(choice.delta.value.calls);
      FragsPicked(choice.delta.value.calls, i);
      FragsBoth(text, parts, i);
      FragsBoth(finish, text + parts, i);
      assert Frags(text, i) == [];
    } else {
      assert ChoiceInputs(choice) == finish;
    }
  }

  lemma {:induction false} FragsOfChoices(choices: seq<Choice>, i: nat)
    ensures Frags(ChoicesInputs(choices), i) == FragmentsIn(choices, i)
    decreases |choices|
  {
    if choices != [] {
      FragsOfChoices(choices[..|choices| - 1], i);
      FragsOfChoice(choices[|choices| - 1], i);
      FragsBoth(ChoicesInputs(choices[..|choices| - 1]), ChoiceInputs(choices[|choices| - 1]), i);
    }
  }

  /** The fragments a call is assembled from are exactly those the chunks hold for its index, in their order. */
  lemma {:induction false} FragmentsAreSent(chunks: seq<Chunk>, i: nat)
    ensures Frags(Inputs(chunks), i) == FragmentsSent(chunks, i)
    decreases |chunks|
  {
    if chunks != [] {
      var shorter, last := chunks[..|chunks| - 1], chunks[|chunks| - 1];
      FragmentsAreSent(shorter, i);
      FragsOfChoices(last.choices, i);
      FragsBoth(UsageInputs(last.usage), ChoicesInputs(last.choices), i);
      FragsBoth(Inputs(shorter), ChunkInputs(last), i);
      assert Frags(UsageInputs(last.usage), i) == [];
    }
  }

  // ---------------------------------------------------------------- texts, usages and the finish reason

  lemma {:induction false} TextsBoth(first: seq<Event>, second: seq<Event>)
    ensures TextsShown(first + second) == TextsShown(first) + TextsShown(second)
    ensures UsagesShown(first + second) == UsagesShown(first) + UsagesShown(second)
    decreases |second|
  {
    if second == [] {
      assert first + second == first;
    } else {
      assert (first + second)[..|first + second| - 1] == first + second[..|second| - 1];
      TextsBoth(first, second[..|second| - 1]);
    }
  }

  lemma {:induction false} CallEventsShowNoText(events: seq<Event>)
    requires forall k :: 0 <= k < |events| ==> IndexOf(events[k]).Some? || events[k].Response?
    ensures TextsShown(events) == [] && UsagesShown(events) == []
    decreases |events|
  {
    if events != [] { CallEventsShowNoText(events[..|events| - 1]); }
  }

  /** The state and its events say of the response what the given texts, usages and finish reason say. */
  ghost predicate Says(s: State, texts: seq<(string, nat)>, usages: seq<nat>, finish: Option<string>) {
    TextsShown(s.out) == texts && (s.semantic <==> texts != []) && s.finish == finish
    && UsagesShown(s.out) == usages && s.usage == if usages == [] then None else Some(usages[|usages| - 1])
  }

  lemma PartSays(s: State, f: Fragment, texts: seq<(string, nat)>, usages: seq<nat>, finish: Option<string>,
                 allowed: set<string>)
    requires Says(s, texts, usages, finish)
    ensures Says(StepPart(s, f, allowed), texts, usages, finish)
  {
    var events := FlushedEvents(Apply(ItemAt(s.pending, f.index), f), f.index, allowed);
    FlushedAllAtIndex(Apply(ItemAt(s.pending, f.index), f), f.index, allowed);
    CallEventsShowNoText(events);
    TextsBoth(s.out, events);
  }

  lemma {:induction false} PartsSay(s: State, calls: seq<Fragment>, texts: seq<(string, nat)>, usages: seq<nat>,
                                    finish: Option<string>, allowed: set<string>)
    requires Says(s, texts, usages, finish)
    ensures Says(AfterFrom(s, PartInputs(calls), allowed), texts, usages, finish)
    decreases |calls|
  {
    if calls != [] {
      var shorter := calls[..|calls| - 1];
      PartsSay(s, shorter, texts, usages, finish, allowed);
      PartOne(s, calls, |calls| - 1, allowed);
      assert calls[..|calls|] == calls;
      PartSays(AfterFrom(s, PartInputs(shorter), allowed), calls[|calls| - 1], texts, usages, finish, allowed);
    }
  }

  lemma ChoiceSays(s: State, choice: Choice, texts: seq<(string, nat)>, usages: seq<nat>, finish: Option<string>,
                   allowed: set<string>)
    requires Says(s, texts, usages, finish)
    ensures Says(AfterFrom(s, ChoiceInputs(choice), allowed), texts + TextOf(choice), usages,
                 LastOf(choice.finish, finish))
  {
    var reason := if choice.finish.Some? then choice.finish else finish;
    var begun := AfterFrom(s, FinishInputs(choice.finish), allowed);
    assert begun == s.(finish := reason) by {
      if choice.finish.Some? { AfterOne(s, [], FinishSeen(choice.finish.value), allowed); }
    }
    if choice.delta.None? {
      assert ChoiceInputs(choice) == FinishInputs(choice.finish) && texts + [] == texts;
    } else {
      var text, said := choice.delta.value.text, TextOf(choice);
      var spoken := Step(begun, TextSeen(text, choice.index), allowed);
      SpokenSays(begun, text, choice.index, texts, usages, reason, allowed);
      DeltaSplits(s, choice, allowed);
      PartsSay(spoken, choice.delta.value.calls, texts + said, usages, reason, allowed);
    }
  }

  lemma SpokenSays(s: State, text: string, choice: nat, texts: seq<(string, nat)>, usages: seq<nat>,
                   finish: Option<string>, allowed: set<string>)
    requires Says(s, texts, usages, finish)
    ensures Says(Step(s, TextSeen(text, choice), allowed), texts + if text != "" then [(text, choice)] else [], usages,
                 finish)
  {
    TextShows(s.out, text, choice);
    if text == "" { assert texts + [] == texts; }
  }

  lemma DeltaSplits(s: State, choice: Choice, allowed: set<string>)
    requires choice.delta.Some?
    ensures var begun := AfterFrom(s, FinishInputs(choice.finish), allowed);
            var spoken := Step(begun, TextSeen(choice.delta.value.text, choice.index), allowed);
            AfterFrom(s, ChoiceInputs(choice), allowed)
            == AfterFrom(spoken, PartInputs(choice.delta.value.calls), allowed)
  {
    var finish, text := FinishInputs(choice.finish), TextSeen(choice.delta.value.text, choice.index);
    AfterOne(s, finish, text, allowed);
    AfterBoth(s, finish + [text], PartInputs(choice.delta.value.calls), allowed);
    assert ChoiceInputs(choice) == finish + [text] + PartInputs(choice.delta.value.calls);
  }

  lemma {:induction false} ChoicesSay(s: State, choices: seq<Choice>, texts: seq<(string, nat)>, usages: seq<nat>,
                                      finish: Option<string>, allowed: set<string>)
    requires Says(s, texts, usages, finish)
    ensures Says(AfterFrom(s, ChoicesInputs(choices), allowed), texts + TextsIn(choices), usages,
                 LastOf(FinishIn(choices), finish))
    decreases |choices|
  {
    if choices == [] {
      assert texts + [] == texts;
    } else {
      var shorter, last := choices[..|choices| - 1], choices[|choices| - 1];
      ChoicesSay(s, shorter, texts, usages, finish, allowed);
      AfterBoth(s, ChoicesInputs(shorter), ChoiceInputs(last), allowed);
      ChoiceSays(AfterFrom(s, ChoicesInputs(shorter), allowed), last, texts + TextsIn(shorter), usages,
                 LastOf(FinishIn(shorter), finish), allowed);
      TextsInOneMore(texts, choices);
    }
  }

  lemma TextsInOneMore(texts: seq<(string, nat)>, choices: seq<Choice>)
    requires choices != []
    ensures texts + TextsIn(choices)
            == texts + TextsIn(choices[..|choices| - 1]) + TextOf(choices[|choices| - 1])
  {
    Associates(texts, TextsIn(choices[..|choices| - 1]), TextOf(choices[|choices| - 1]));
  }

  lemma Associates<T>(a: seq<T>, b: seq<T>, c: seq<T>)
    ensures a + (b + c) == a + b + c
  {
  }

  lemma UsageSays(s: State, usage: Option<nat>, texts: seq<(string, nat)>, usages: seq<nat>, finish: Option<string>,
                  allowed: set<string>)
    requires Says(s, texts, usages, finish)
    ensures Says(AfterFrom(s, UsageInputs(usage), allowed), texts, UsagesAfter(usages, usage), finish)
  {
    if usage.Some? {
      AfterOne(s, [], UsageSeen(usage.value), allowed);
      UsageShows(s.out, usage.value);
    }
  }

  lemma TextShows(events: seq<Event>, text: string, choice: nat)
    ensures TextsShown(events + [Text(text, choice)]) == TextsShown(events) + [(text, choice)]
    ensures UsagesShown(events + [Text(text, choice)]) == UsagesShown(events)
  {
    assert (events + [Text(text, choice)])[..|events|] == events;
  }

  lemma UsageShows(events: seq<Event>, usage: nat)
    ensures TextsShown(events + [Usage(usage)]) == TextsShown(events)
    ensures UsagesShown(events + [Usage(usage)]) == UsagesShown(events) + [usage]
  {
    assert (events + [Usage(usage)])[..|events|] == events;
  }

  lemma ChunkSays(s: State, chunk: Chunk, texts: seq<(string, nat)>, usages: seq<nat>, finish: Option<string>,
                  allowed: set<string>)
    requires Says(s, texts, usages, finish)
    ensures Says(AfterFrom(s, ChunkInputs(chunk), allowed), texts + TextsIn(chunk.choices),
                 UsagesAfter(usages, chunk.usage), LastOf(FinishIn(chunk.choices), finish))
  {
    UsageSays(s, chunk.usage, texts, usages, finish, allowed);
    AfterBoth(s, UsageInputs(chunk.usage), ChoicesInputs(chunk.choices), allowed);
    ChoicesSay(AfterFrom(s, UsageInputs(chunk.usage), allowed), chunk.choices, texts, UsagesAfter(usages, chunk.usage),
               finish, allowed);
  }

  /** After the chunks, the events show exactly the texts and usages that were sent; the finish reason is the last. */
  lemma {:induction false} ChunksSay(chunks: seq<Chunk>, allowed: set<string>)
    ensures Says(After(Inputs(chunks), allowed), TextsSent(chunks), UsagesSent(chunks), FinishSent(chunks))
    decreases |chunks|
  {
    if chunks != [] {
      var shorter, last := chunks[..|chunks| - 1], chunks[|chunks| - 1];
      ChunksSay(shorter, allowed);
      AfterBoth(START, Inputs(shorter), ChunkInputs(last), allowed);
      ChunkSays(After(Inputs(shorter), allowed), last, TextsSent(shorter), UsagesSent(shorter), FinishSent(shorter),
                allowed);
    }
  }

  // ---------------------------------------------------------------- the whole attempt

  lemma {:induction false} EndingIsIndexed(pending: map<nat, Item>, indexes: seq<nat>, tools: Tools)
    requires forall i :: i in indexes ==> i in pending
    ensures forall e :: e in EndAll(pending, indexes, tools).0 ==> IndexOf(e).Some?
    decreases |indexes|
  {
    if indexes != [] {
      EndingIsIndexed(pending, indexes[..|indexes| - 1], tools);
      var last := indexes[|indexes| - 1];
      EndsAtIndex(pending[last], last, tools);
    }
  }

  /** What the stream leaves, what the completion loop adds, and the response event of an attempt that finishes. */
  function Closing(s: State, tools: Tools): seq<Event> {
    s.out + EndAll(s.pending, SortedKeys(s.pending.Keys), tools).0
  }

  lemma ClosingIs(s: State, tools: Tools)
    ensures var (out, ending) := ConcludeRead(s, tools);
            if ending.Finished? then out == Closing(s, tools) + [Response(s.finish)] else out == Closing(s, tools)
  {
  }

  /** Nothing that ends an attempt shows text or usage. */
  lemma ConcludeShows(s: State, interrupted: Option<bool>, tools: Tools)
    ensures var out := Conclude(s, interrupted, tools).0;
            TextsShown(out) == TextsShown(s.out) && UsagesShown(out) == UsagesShown(s.out)
  {
    ConcludeReadShows(s, tools);
    assert Conclude(s, interrupted, tools).0 == s.out
           || Conclude(s, interrupted, tools).0 == ConcludeRead(s, tools).0;
  }

  lemma ConcludeReadShows(s: State, tools: Tools)
    ensures var out := ConcludeRead(s, tools).0;
            TextsShown(out) == TextsShown(s.out) && UsagesShown(out) == UsagesShown(s.out)
  {
    ClosingShows(s, tools);
    ResponseShows(Closing(s, tools), s.finish);
    ClosingIs(s, tools);
  }

  lemma ClosingShows(s: State, tools: Tools)
    ensures TextsShown(Closing(s, tools)) == TextsShown(s.out)
    ensures UsagesShown(Closing(s, tools)) == UsagesShown(s.out)
  {
    var end := EndAll(s.pending, SortedKeys(s.pending.Keys), tools).0;
    EndingIsIndexed(s.pending, SortedKeys(s.pending.Keys), tools);
    CallEventsShowNoText(end);
    TextsBoth(s.out, end);
  }

  lemma ResponseShows(events: seq<Event>, stop: Option<string>)
    ensures TextsShown(events + [Response(stop)]) == TextsShown(events)
    ensures UsagesShown(events + [Response(stop)]) == UsagesShown(events)
  {
    assert (events + [Response(stop)])[..|events|] == events;
  }

  /** Whatever an attempt ends in, its events show exactly the texts that were sent, with their choices and in order,
      and every usage that differs from the one before. */
  lemma TextsAreShown(attempt: Attempt, tools: Tools)
    ensures TextsShown(Run(attempt, tools).0) == TextsSent(attempt.chunks)
    ensures UsagesShown(Run(attempt, tools).0) == UsagesSent(attempt.chunks)
  {
    ChunksSay(attempt.chunks, tools.allowed);
    ConcludeShows(After(Inputs(attempt.chunks), tools.allowed), attempt.interrupted, tools);
  }

  predicate NoResponse(events: seq<Event>) { forall e :: e in events ==> !e.Response? }

  lemma {:induction false} NoResponseWhileReading(inputs: seq<Input>, allowed: set<string>)
    ensures NoResponse(After(inputs, allowed).out)
    decreases |inputs|
  {
    if inputs != [] {
      var s, last := After(inputs[..|inputs| - 1], allowed), inputs[|inputs| - 1];
      NoResponseWhileReading(inputs[..|inputs| - 1], allowed);
      if last.Part? {
        FlushedAllAtIndex(Apply(ItemAt(s.pending, last.fragment.index), last.fragment), last.fragment.index, allowed);
      }
    }
  }

  /** One response event at the end, or none. */
  predicate RespondsWith(events: seq<Event>, ending: Ending, stop: Option<string>) {
    if ending.Finished? then
      events != [] && events[|events| - 1] == Response(stop) && NoResponse(events[..|events| - 1])
    else NoResponse(events)
  }

  lemma ClosesOnce(before: seq<Event>, stop: Option<string>)
    requires NoResponse(before)
    ensures RespondsWith(before + [Response(stop)], Finished, stop)
  {
    assert (before + [Response(stop)])[..|before|] == before;
  }

  lemma ConcludeReadResponds(s: State, tools: Tools)
    requires NoResponse(s.out)
    ensures RespondsWith(ConcludeRead(s, tools).0, ConcludeRead(s, tools).1, s.finish)
  {
    EndingIsIndexed(s.pending, SortedKeys(s.pending.Keys), tools);
    NoResponseAfter(s.out, EndAll(s.pending, SortedKeys(s.pending.Keys), tools).0);
    ClosesOnce(Closing(s, tools), s.finish);
    ClosingIs(s, tools);
  }

  lemma NoResponseAfter(before: seq<Event>, end: seq<Event>)
    requires NoResponse(before) && forall e :: e in end ==> IndexOf(e).Some?
    ensures NoResponse(before + end)
  {
  }

  lemma ConcludeResponds(s: State, interrupted: Option<bool>, tools: Tools)
    requires NoResponse(s.out)
    ensures RespondsWith(Conclude(s, interrupted, tools).0, Conclude(s, interrupted, tools).1, s.finish)
  {
    ConcludeReadResponds(s, tools);
  }

  /** A finished attempt ends with its one response event, which carries the last finish reason that was sent; any other
      attempt has none. */
  lemma RespondsOnce(attempt: Attempt, tools: Tools)
    ensures RespondsWith(Run(attempt, tools).0, Run(attempt, tools).1, FinishSent(attempt.chunks))
  {
    ChunksSay(attempt.chunks, tools.allowed);
    NoResponseWhileReading(Inputs(attempt.chunks), tools.allowed);
    ConcludeResponds(After(Inputs(attempt.chunks), tools.allowed), attempt.interrupted, tools);
  }

  /** The finish reason says that the response was cut off. */
  predicate Limited(finish: Option<string>) { finish.Some? && finish.value in {"length", "max_tokens"} }

  /** Some call has this name. */
  ghost predicate NamedIn(pending: map<nat, Item>, name: string) {
    exists i :: i in pending && pending[i].name == name
  }

  ghost predicate NameSent(chunks: seq<Chunk>, name: string) {
    exists i: nat :: FragmentsSent(chunks, i) != [] && Name(FragmentsSent(chunks, i)) == name
  }

  lemma NamesGiven(pending: map<nat, Item>)
    ensures forall name :: name in NonEmptyNames(pending) <==> name != "" && NamedIn(pending, name)
  {
  }

  lemma ConcludeTruncates(s: State, interrupted: Option<bool>, tools: Tools)
    ensures var ending := Conclude(s, interrupted, tools).1;
            (ending.Truncated? <==> interrupted.None? && Limited(s.finish))
            && (ending.Truncated? ==> ending.names == NonEmptyNames(s.pending))
  {
    LimitedIsCutShort(s.finish);
  }

  lemma NamesAreSent(chunks: seq<Chunk>, allowed: set<string>, name: string)
    ensures NamedIn(After(Inputs(chunks), allowed).pending, name) <==> NameSent(chunks, name)
  {
    var pending := After(Inputs(chunks), allowed).pending;
    if NamedIn(pending, name) {
      var i :| i in pending && pending[i].name == name;
      PendingIsSent(chunks, allowed, i);
    }
    if NameSent(chunks, name) {
      var i: nat :| FragmentsSent(chunks, i) != [] && Name(FragmentsSent(chunks, i)) == name;
      PendingIsSent(chunks, allowed, i);
    }
  }

  lemma PendingIsSent(chunks: seq<Chunk>, allowed: set<string>, i: nat)
    ensures var s := After(Inputs(chunks), allowed);
            (i in s.pending <==> FragmentsSent(chunks, i) != [])
            && (i in s.pending ==> s.pending[i].name == Name(FragmentsSent(chunks, i)))
  {
    FragmentsAreSent(chunks, i);
    StateTracks(Inputs(chunks), i, allowed);
  }

  /** An attempt that was not interrupted is truncated exactly when the last finish reason sent says so; it names the
      calls that have a name. */
  lemma TruncatedExactlyWhen(attempt: Attempt, tools: Tools)
    ensures var ending := Run(attempt, tools).1;
            (ending.Truncated? <==> attempt.interrupted.None? && Limited(FinishSent(attempt.chunks)))
            && (ending.Truncated? ==>
                  forall name :: name in ending.names <==> name != "" && NameSent(attempt.chunks, name))
  {
    var s := After(Inputs(attempt.chunks), tools.allowed);
    ChunksSay(attempt.chunks, tools.allowed);
    ConcludeTruncates(s, attempt.interrupted, tools);
    NamesGiven(s.pending);
    forall name ensures NamedIn(s.pending, name) <==> NameSent(attempt.chunks, name) {
      NamesAreSent(attempt.chunks, tools.allowed, name);
    }
  }

  ghost predicate AllSentComplete(attempt: Attempt, tools: Tools) {
    forall i: nat :: FragmentsSent(attempt.chunks, i) != [] ==> Completes(FragmentsSent(attempt.chunks, i), tools)
  }

  ghost predicate SomethingSent(chunks: seq<Chunk>) {
    TextsSent(chunks) != [] || exists i: nat :: FragmentsSent(chunks, i) != []
  }

  lemma SentMeaning(attempt: Attempt, tools: Tools)
    ensures AllComplete(attempt, tools) <==> AllSentComplete(attempt, tools)
    ensures NothingToShow(attempt, tools) <==> !SomethingSent(attempt.chunks)
  {
    ChunksSay(attempt.chunks, tools.allowed);
    forall i: nat ensures FragsOf(attempt, i) == FragmentsSent(attempt.chunks, i) {
      FragmentsAreSent(attempt.chunks, i);
    }
  }

  lemma LimitedIsCutShort(finish: Option<string>)
    ensures CutShort(finish) <==> Limited(finish)
  {
  }

  /** An attempt finishes exactly when nothing cut it short, every call that was mentioned completes, and some text or
      call was sent. */
  lemma FinishedExactlyWhen(attempt: Attempt, tools: Tools)
    ensures Run(attempt, tools).1.Finished?
            <==> attempt.interrupted.None? && !Limited(FinishSent(attempt.chunks)) && AllSentComplete(attempt, tools)
                 && SomethingSent(attempt.chunks)
  {
    FinishesExactlyWhen(attempt, tools);
    ChunksSay(attempt.chunks, tools.allowed);
    SentMeaning(attempt, tools);
    LimitedIsCutShort(FinishSent(attempt.chunks));
  }

  // ---------------------------------------------------------------- what a completed call decodes

  predicate AllSpace(text: string, space: char -> bool) { forall k :: 0 <= k < |text| ==> space(text[k]) }

  /** `text` is what is left of `whole` when the space around it is taken away. */
  predicate Trimmed(whole: string, left: string, text: string, right: string, space: char -> bool) {
    whole == left + text + right && AllSpace(left, space) && AllSpace(right, space)
    && (text != "" ==> !space(text[0]) && !space(text[|text| - 1]))
  }

  lemma {:induction false} LeftSplits(text: string, space: char -> bool) returns (left: string)
    ensures text == left + StripLeft(text, space) && AllSpace(left, space)
    ensures StripLeft(text, space) != "" ==> !space(StripLeft(text, space)[0])
    decreases |text|
  {
    left := "";
    if text != "" && space(text[0]) {
      var rest := LeftSplits(text[1..], space);
      left := [text[0]] + rest;
    }
  }

  lemma {:induction false} RightSplits(text: string, space: char -> bool) returns (right: string)
    ensures text == StripRight(text, space) + right && AllSpace(right, space)
    ensures var kept := StripRight(text, space); kept != "" ==> !space(kept[|kept| - 1])
    decreases |text|
  {
    right := "";
    if text != "" && space(text[|text| - 1]) {
      var rest := RightSplits(text[..|text| - 1], space);
      right := rest + [text[|text| - 1]];
      assert text == text[..|text| - 1] + [text[|text| - 1]];
    }
  }

  lemma StripTrims(whole: string, space: char -> bool) returns (left: string, right: string)
    ensures Trimmed(whole, left, StripRight(StripLeft(whole, space), space), right, space)
  {
    left := LeftSplits(whole, space);
    right := RightSplits(StripLeft(whole, space), space);
    var text := StripRight(StripLeft(whole, space), space);
    assert text != "" ==> text[0] == StripLeft(whole, space)[0];
    assert whole == left + (text + right) == left + text + right;
  }

  lemma {:induction false} ShownBoth(first: seq<Event>, second: seq<Event>)
    ensures ArgumentsShown(first + second) == ArgumentsShown(first) + ArgumentsShown(second)
    decreases |second|
  {
    if second == [] {
      assert first + second == first;
    } else {
      assert (first + second)[..|first + second| - 1] == first + second[..|second| - 1];
      ShownBoth(first, second[..|second| - 1]);
    }
  }

  lemma {:induction false} DeltasShow(i: nat, parts: seq<string>)
    ensures ArgumentsShown(Deltas(i, parts)) == Concat(parts)
    decreases |parts|
  {
    if parts != [] {
      DeltasShow(i, parts[..|parts| - 1]);
      assert Deltas(i, parts)[..|parts| - 1] == Deltas(i, parts[..|parts| - 1]);
    }
  }

  lemma {:induction false} PartsAreSent(fr: seq<Fragment>)
    ensures Concat(Parts(fr)) == ArgumentsSent(fr)
    decreases |fr|
  {
    if fr != [] {
      var shorter := Parts(fr[..|fr| - 1]);
      PartsAreSent(fr[..|fr| - 1]);
      if Carries(fr[|fr| - 1]) { assert Parts(fr)[..|shorter|] == shorter; }
    }
  }

  lemma OpenedShows(i: nat, fr: seq<Fragment>, allowed: set<string>)
    requires EndStart(fr, allowed).Some?
    ensures ArgumentsShown(Opened(i, fr, allowed)) == Concat(Parts(fr))
  {
    var k := EndStart(fr, allowed).value;
    var start := Started(i, Id(fr[..k]), Name(fr[..k]));
    ShownBoth([start], Deltas(i, Parts(fr)));
    DeltasShow(i, Parts(fr));
    assert [start][..0] == [];
  }

  lemma WholeShows(i: nat, fr: seq<Fragment>, tools: Tools)
    requires Completes(fr, tools)
    ensures ArgumentsShown(Whole(i, fr, tools)) == ArgumentsSent(fr)
  {
    OpenedShows(i, fr, tools.allowed);
    ShownBoth(Opened(i, fr, tools.allowed), [Completed(CallOf(i, fr, tools))]);
    assert ArgumentsShown([Completed(CallOf(i, fr, tools))]) == "";
    PartsAreSent(fr);
  }

  /** A call decodes what was sent for it, without the space around it. */
  lemma DecodesTrimmed(i: nat, fr: seq<Fragment>, tools: Tools) returns (left: string, text: string, right: string)
    requires Completes(fr, tools)
    ensures Trimmed(ArgumentsSent(fr), left, text, right, tools.space)
    ensures tools.decode(if text == "" then "{}" else text) == Object(CallOf(i, fr, tools).arguments)
  {
    left, right := StripTrims(Concat(Parts(fr)), tools.space);
    text := StripRight(StripLeft(Concat(Parts(fr)), tools.space), tools.space);
    PartsAreSent(fr);
  }

  /** The events end in a completed call: they forward exactly the text that was sent, `text` is that without the space
      around it, and the call's arguments are what `text` decodes to, an empty one standing for an empty object. */
  predicate Decodes(events: seq<Event>, sent: string, left: string, text: string, right: string, tools: Tools) {
    events != [] && events[|events| - 1].Completed? && ArgumentsShown(events) == sent
    && Trimmed(sent, left, text, right, tools.space)
    && tools.decode(if text == "" then "{}" else text) == Object(events[|events| - 1].call.arguments)
  }

  lemma WholeDecodes(i: nat, fr: seq<Fragment>, tools: Tools) returns (left: string, text: string, right: string)
    requires Completes(fr, tools)
    ensures Decodes(Whole(i, fr, tools), ArgumentsSent(fr), left, text, right, tools)
  {
    left, text, right := DecodesTrimmed(i, fr, tools);
    WholeShows(i, fr, tools);
  }

  /** A call that completes, in whatever attempt, has forwarded all the argument text that was sent for it and decodes
      that. */
  lemma CompletesWithItsArguments(attempt: Attempt, tools: Tools, i: nat)
    returns (left: string, text: string, right: string)
    ensures var events := Project(Run(attempt, tools).0, i);
            events != [] && events[|events| - 1].Completed?
            ==> Decodes(events, ArgumentsSent(FragmentsSent(attempt.chunks, i)), left, text, right, tools)
  {
    var events := Project(Run(attempt, tools).0, i);
    left, text, right := "", "", "";
    if events != [] && events[|events| - 1].Completed? {
      EndsCompleted(attempt, tools, i);
      FragmentsAreSent(attempt.chunks, i);
      left, text, right := WholeDecodes(i, FragsOf(attempt, i), tools);
    }
  }

  lemma EndsCompleted(attempt: Attempt, tools: Tools, i: nat)
    requires var events := Project(Run(attempt, tools).0, i); events != [] && events[|events| - 1].Completed?
    ensures Completes(FragsOf(attempt, i), tools)
            && Project(Run(attempt, tools).0, i) == Whole(i, FragsOf(attempt, i), tools)
  {
    CallLife(attempt, tools, i);
  }

  // ---------------------------------------------------------------- retries and the recorder

  /** An attempt is repeated exactly after a retryable interruption, having shown usages at most. */
  lemma RepeatableExactlyWhen(attempt: Attempt, tools: Tools)
    ensures Repeatable(Run(attempt, tools))
            <==> attempt.interrupted == Some(true) && TextsSent(attempt.chunks) == []
                 && ShowsNoCall(Run(attempt, tools).0)
  {
    TextsAreShown(attempt, tools);
    InterruptedExactlyWhen(After(Inputs(attempt.chunks), tools.allowed), attempt.interrupted, tools);
    SilentExactlyWhen(Run(attempt, tools).0);
  }

  ghost predicate ShowsNoCall(events: seq<Event>) { forall i: nat :: Project(events, i) == [] }

  lemma SilentExactlyWhen(events: seq<Event>)
    ensures Semantics(events) == [] <==> TextsShown(events) == [] && ShowsNoCall(events)
  {
    SilentShowsNothing(events);
    if TextsShown(events) == [] && ShowsNoCall(events) { NothingShownIsSilent(events); }
    if Semantics(events) == [] {
      forall i: nat ensures Project(events, i) == [] { SilentHasNoIndex(events, i); }
    }
  }

  /** An interruption is reported as worth a retry exactly when it was retryable and nothing had been shown; when
      something had, as a broken stream. */
  lemma InterruptedAnswer(attempt: Attempt, tools: Tools)
    requires attempt.interrupted.Some?
    ensures var shown := TextsSent(attempt.chunks) != [] || !ShowsNoCall(Run(attempt, tools).0);
            AnswerOf(Run(attempt, tools))
            == CallFailed(attempt.interrupted.value && shown, attempt.interrupted.value && !shown)
  {
    TextsAreShown(attempt, tools);
    SilentExactlyWhen(Run(attempt, tools).0);
  }

  lemma InterruptedExactlyWhen(s: State, interrupted: Option<bool>, tools: Tools)
    ensures Conclude(s, interrupted, tools).1 == Interrupted(true) <==> interrupted == Some(true)
  {
    assert !ConcludeRead(s, tools).1.Interrupted?;
  }

  lemma {:induction false} SilentShowsNothing(events: seq<Event>)
    ensures Semantics(events) == [] ==> TextsShown(events) == []
    decreases |events|
  {
    if events != [] { SilentShowsNothing(events[..|events| - 1]); }
  }

  lemma {:induction false} NothingShownIsSilent(events: seq<Event>)
    requires TextsShown(events) == [] && ShowsNoCall(events)
    ensures Semantics(events) == []
    decreases |events|
  {
    if events != [] {
      var shorter, last := events[..|events| - 1], events[|events| - 1];
      forall i: nat ensures Project(shorter, i) == [] && IndexOf(last) != Some(i) { assert Project(events, i) == []; }
      NothingShownIsSilent(shorter);
      assert Project(shorter, if IndexOf(last).Some? then IndexOf(last).value else 0) == [];
    }
  }

  function JoinedTexts(texts: seq<(string, nat)>): string {
    if texts == [] then "" else JoinedTexts(texts[..|texts| - 1]) + texts[|texts| - 1].0
  }

  lemma JoinedOne(texts: seq<(string, nat)>, text: string, choice: nat)
    ensures JoinedTexts(texts + [(text, choice)]) == JoinedTexts(texts) + text
  {
    assert (texts + [(text, choice)])[..|texts|] == texts;
  }

  lemma RecordsOne(r: Record, texts: seq<(string, nat)>, e: Event)
    requires r.text == JoinedTexts(texts)
    ensures RecordStep(r, e).text == JoinedTexts(texts + if e.Text? then [(e.text, e.choice)] else [])
  {
    if e.Text? { JoinedOne(texts, e.text, e.choice); } else { assert texts + [] == texts; }
  }

  lemma {:induction false} RecordsText(events: seq<Event>)
    ensures Recorded(events).text == JoinedTexts(TextsShown(events))
    decreases |events|
  {
    if events != [] {
      var shorter := events[..|events| - 1];
      RecordsText(shorter);
      RecordsOne(Recorded(shorter), TextsShown(shorter), events[|events| - 1]);
    }
  }

  /** The recorded usage is the last one shown. */
  lemma {:induction false} RecordsUsage(events: seq<Event>)
    ensures Recorded(events).usage
            == if UsagesShown(events) == [] then 0 else UsagesShown(events)[|UsagesShown(events)| - 1]
    decreases |events|
  {
    if events != [] {
      var shorter, last := events[..|events| - 1], events[|events| - 1];
      RecordsUsage(shorter);
      assert UsagesShown(events) == UsagesShown(shorter) + if last.Usage? then [last.usage] else [];
    }
  }

  lemma {:induction false} RecordsNoFinish(events: seq<Event>)
    requires NoResponse(events)
    ensures Recorded(events).finish.None?
    decreases |events|
  {
    if events != [] { RecordsNoFinish(events[..|events| - 1]); }
  }

  function ResponsesShown(events: seq<Event>): seq<Option<string>> {
    if events == [] then []
    else
      var last := events[|events| - 1];
      ResponsesShown(events[..|events| - 1]) + if last.Response? then [last.stop] else []
  }

  lemma {:induction false} NoneShown(events: seq<Event>)
    ensures NoResponse(events) <==> ResponsesShown(events) == []
    decreases |events|
  {
    if events != [] {
      NoneShown(events[..|events| - 1]);
      assert events == events[..|events| - 1] + [events[|events| - 1]];
    }
  }

  lemma {:induction false} ResponsesBoth(first: seq<Event>, second: seq<Event>)
    ensures ResponsesShown(first + second) == ResponsesShown(first) + ResponsesShown(second)
    decreases |second|
  {
    if second == [] {
      assert first + second == first;
    } else {
      assert (first + second)[..|first + second| - 1] == first + second[..|second| - 1];
      ResponsesBoth(first, second[..|second| - 1]);
    }
  }

  lemma RepeatedHasNoResponse(attempt: Attempt, tools: Tools)
    requires Repeatable(Run(attempt, tools))
    ensures ResponsesShown(Run(attempt, tools).0) == []
  {
    RespondsOnce(attempt, tools);
    NoneShown(Run(attempt, tools).0);
  }

  lemma {:induction false} JoinedHasNoResponse(attempts: nat -> Attempt, n: nat, tools: Tools)
    requires AllRepeatable(attempts, n, tools)
    ensures ResponsesShown(Joined(attempts, n, tools)) == []
    decreases n
  {
    if n > 0 {
      JoinedHasNoResponse(attempts, n - 1, tools);
      RepeatedHasNoResponse(attempts(n - 1), tools);
      ResponsesBoth(Joined(attempts, n - 1, tools), Run(attempts(n - 1), tools).0);
    }
  }

  lemma NoResponseBoth(first: seq<Event>, second: seq<Event>)
    requires NoResponse(first) && NoResponse(second)
    ensures NoResponse(first + second)
  {
  }

  lemma JoinedShowsNothing(attempts: nat -> Attempt, n: nat, tools: Tools)
    requires AllRepeatable(attempts, n, tools)
    ensures TextsShown(Joined(attempts, n, tools)) == [] && NoResponse(Joined(attempts, n, tools))
  {
    JoinedIsSilent(attempts, n, tools);
    SilentShowsNothing(Joined(attempts, n, tools));
    JoinedHasNoResponse(attempts, n, tools);
    NoneShown(Joined(attempts, n, tools));
  }

  lemma SilentBoth(first: seq<Event>, second: seq<Event>)
    ensures TextsShown(first) == [] ==> TextsShown(first + second) == TextsShown(second)
  {
    TextsBoth(first, second);
  }

  /** However the request went, the recorder's text is that of the one attempt that was used, whole and in order. */
  lemma RecorderHoldsTheText(attempts: nat -> Attempt, used: nat, tools: Tools)
    requires AllRepeatable(attempts, used, tools)
    ensures Recorded(Joined(attempts, used, tools) + Run(attempts(used), tools).0).text
            == JoinedTexts(TextsSent(attempts(used).chunks))
  {
    var before, last := Joined(attempts, used, tools), Run(attempts(used), tools).0;
    JoinedShowsNothing(attempts, used, tools);
    SilentBoth(before, last);
    TextsAreShown(attempts(used), tools);
    RecordsText(before + last);
  }

  /** Its finish reason is the last one that attempt was sent, when it finished, and none otherwise. */
  lemma RecorderHoldsTheFinish(attempts: nat -> Attempt, used: nat, tools: Tools)
    requires AllRepeatable(attempts, used, tools)
    ensures Recorded(Joined(attempts, used, tools) + Run(attempts(used), tools).0).finish
            == if Run(attempts(used), tools).1.Finished? then FinishSent(attempts(used).chunks) else None
  {
    var before, run := Joined(attempts, used, tools), Run(attempts(used), tools);
    JoinedShowsNothing(attempts, used, tools);
    RespondsOnce(attempts(used), tools);
    RecordsFinish(before, run.0, run.1, FinishSent(attempts(used).chunks));
  }

  lemma RecordsFinish(before: seq<Event>, last: seq<Event>, ending: Ending, stop: Option<string>)
    requires NoResponse(before) && RespondsWith(last, ending, stop)
    ensures Recorded(before + last).finish == if ending.Finished? then stop else None
  {
    if ending.Finished? {
      assert before + last == before + last[..|last| - 1] + [last[|last| - 1]];
      NoResponseBoth(before, last[..|last| - 1]);
      RecordedOne(before + last[..|last| - 1], last[|last| - 1]);
    } else {
      NoResponseBoth(before, last);
      RecordsNoFinish(before + last);
    }
  }
}
