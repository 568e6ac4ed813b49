/**
Assembling a streamed model response: tool calls arrive in fragments, interleaved by index, and are announced, forwarded
and completed as events while they come in.
*/
module StreamAssembly {
  import opened Options
  import opened Maps

  datatype Function = Function(name: string, arguments: Option<string>)

  /** A piece of a tool call; an empty `id` or `name` is an absent one. */
  datatype Fragment = Fragment(index: nat, id: string, call: Option<Function>)

  datatype Delta = Delta(text: string, calls: seq<Fragment>)

  datatype Choice = Choice(index: nat, finish: Option<string>, delta: Option<Delta>)

  datatype Chunk = Chunk(usage: Option<nat>, choices: seq<Choice>)

  /** What the transport delivers: chunks, then possibly an error that may be worth a retry. */
  datatype Attempt = Attempt(chunks: seq<Chunk>, interrupted: Option<bool>)

  type Arguments = map<string, string>

  datatype Call = Call(index: nat, id: string, name: string, arguments: Arguments)

  datatype Event =
    | Usage(usage: nat)
    | Text(text: string, choice: nat)
    | Started(index: nat, id: string, name: string)
    | ArgumentsDelta(index: nat, part: string)
    | Completed(call: Call)
    | Response(stop: Option<string>)

  datatype Decoded = Object(fields: Arguments) | NotObject | NotJson

  /** The offered tools, and how argument text is trimmed and decoded. */
  datatype Tools = Tools(allowed: set<string>, space: char -> bool, decode: string -> Decoded)

  datatype ProtocolError =
    | IncompleteCall(index: nat)
    | UnavailableTool(name: string)
    | InvalidArguments(name: string)
    | EmptyResponse

  datatype Ending =
    | Finished
    | Protocol(error: ProtocolError)
    | Truncated(names: set<string>)
    | Interrupted(retryable: bool)

  /** A call being put together. */
  datatype Item = Item(id: string, name: string, parts: seq<string>, emitted: nat, started: bool, allowed: bool)

  const NEW_ITEM := Item("", "", [], 0, false, false)

  datatype State = State(pending: map<nat, Item>, finish: Option<string>, semantic: bool, usage: Option<nat>,
                         out: seq<Event>)

  const START := State(map[], None, false, None, [])

  // ---------------------------------------------------------------- the response as a flat list of inputs

  datatype Input = UsageSeen(usage: nat) | FinishSeen(reason: string) | TextSeen(text: string,
      choice: nat) | Part(fragment: Fragment)

  function UsageInputs(usage: Option<nat>): seq<Input> { if usage.Some? then [UsageSeen(usage.value)] else [] }

  function FinishInputs(finish: Option<string>): seq<Input> { if finish.Some? then [FinishSeen(finish.value)] else [] }

  function PartInputs(calls: seq<Fragment>): seq<Input> { seq(|calls|, k requires 0 <= k < |calls| => Part(calls[k])) }

  function ChoiceInputs(choice: Choice): seq<Input> {
    FinishInputs(choice.finish)
    + if choice.delta.Some? then [TextSeen(choice.delta.value.text, choice.index)]
      + PartInputs(choice.delta.value.calls) else []
  }

  function ChoicesInputs(choices: seq<Choice>): seq<Input> {
    if choices == [] then [] else ChoicesInputs(choices[..|choices| - 1]) + ChoiceInputs(choices[|choices| - 1])
  }

  function ChunkInputs(chunk: Chunk): seq<Input> { UsageInputs(chunk.usage) + ChoicesInputs(chunk.choices) }

  function Inputs(chunks: seq<Chunk>): seq<Input> {
    if chunks == [] then [] else Inputs(chunks[..|chunks| - 1]) + ChunkInputs(chunks[|chunks| - 1])
  }

  // ---------------------------------------------------------------- one input at a time

  function Apply(item: Item, f: Fragment): Item {
    var named := if f.id != "" then item.(id := f.id) else item;
    if f.call.None? then named
    else named.(name := item.name + f.call.value.name,
                parts := item.parts + if f.call.value.arguments.Some? then [f.call.value.arguments.value] else [])
  }

  predicate Carries(f: Fragment) { f.call.Some? && f.call.value.arguments.Some? }

  function Deltas(index: nat, parts: seq<string>): (r: seq<Event>)
    ensures |r| == |parts|
  {
    seq(|parts|, k requires 0 <= k < |parts| => ArgumentsDelta(index, parts[k]))
  }

  predicate Starts(item: Item, allowed: set<string>) { !item.started && item.id != "" && item.name != ""
                                                      && item.name in allowed }

  function FlushedItem(item: Item, allowed: set<string>): Item {
    var begun := if Starts(item, allowed) then item.(started := true, allowed := true) else item;
    if begun.started && begun.allowed && begun.emitted < |begun.parts| then begun.(emitted := |begun.parts|) else begun
  }

  function FlushedEvents(item: Item, index: nat, allowed: set<string>): seq<Event> {
    var begun := if Starts(item, allowed) then item.(started := true, allowed := true) else item;
    (if Starts(item, allowed) then [Started(index, item.id, item.name)] else [])
    + if begun.started && begun.allowed && begun.emitted <= |item.parts| then Deltas(index, item.parts[item.emitted..])
      else []
  }

  function ItemAt(pending: map<nat, Item>, index: nat): Item { if index in pending then pending[index] else NEW_ITEM }

  function StepPart(s: State, f: Fragment, allowed: set<string>): State {
    var item := Apply(ItemAt(s.pending, f.index), f);
    if Carries(f)
    then s.(pending := s.pending[f.index := FlushedItem(item, allowed)],
            out := s.out + FlushedEvents(item, f.index, allowed))
    else s.(pending := s.pending[f.index := item])
  }

  function Step(s: State, input: Input, allowed: set<string>): State {
    match input
    case UsageSeen(u) => if s.usage == Some(u) then s else s.(usage := Some(u), out := s.out + [Usage(u)])
    case FinishSeen(reason) => s.(finish := Some(reason))
    case TextSeen(text, choice) => if text == "" then s else s.(semantic := true, out := s.out + [Text(text, choice)])
    case Part(f) => StepPart(s, f, allowed)
  }

  function AfterFrom(s: State, inputs: seq<Input>, allowed: set<string>): State
    decreases |inputs|
  {
    if inputs == [] then s else Step(AfterFrom(s, inputs[..|inputs| - 1], allowed), inputs[|inputs| - 1], allowed)
  }

  function After(inputs: seq<Input>, allowed: set<string>): State { AfterFrom(START, inputs, allowed) }

  lemma AfterOne(s: State, inputs: seq<Input>, input: Input, allowed: set<string>)
    ensures AfterFrom(s, inputs + [input], allowed) == Step(AfterFrom(s, inputs, allowed), input, allowed)
  {
    assert (inputs + [input])[..|inputs|] == inputs;
  }

  lemma {:induction false} AfterBoth(s: State, first: seq<Input>, second: seq<Input>, allowed: set<string>)
    ensures AfterFrom(s, first + second, allowed) == AfterFrom(AfterFrom(s, first, allowed), second, allowed)
    decreases |second|
  {
    if second == [] {
      assert first + second == first;
    } else {
      var shorter, last := second[..|second| - 1], second[|second| - 1];
      assert first + second == (first + shorter) + [last];
      AfterOne(s, first + shorter, last, allowed);
      AfterBoth(s, first, shorter, allowed);
    }
  }

  // ---------------------------------------------------------------- reading the chunks

  /** `_start_and_flush`. */
  method StartAndFlush(item: Item, index: nat, allowed: set<string>) returns (flushed: Item, events: seq<Event>)
    requires item.emitted <= |item.parts|
    ensures flushed == FlushedItem(item, allowed) && events == FlushedEvents(item, index, allowed)
  {
    flushed, events := item, [];
    if !item.started && item.id != "" && item.name != "" && item.name in allowed {
      flushed := flushed.(started := true, allowed := true);
      events := [Started(index, item.id, item.name)];
    }
    if flushed.started && flushed.allowed {
      ghost var begun, opening := flushed, events;
      while flushed.emitted < |flushed.parts|
        invariant item.emitted <= flushed.emitted <= |item.parts| && flushed == begun.(emitted := flushed.emitted)
        invariant events == opening + Deltas(index, item.parts[item.emitted..flushed.emitted])
      {
        events := events + [ArgumentsDelta(index, flushed.parts[flushed.emitted])];
        flushed := flushed.(emitted := flushed.emitted + 1);
      }
      assert item.parts[item.emitted..|item.parts|] == item.parts[item.emitted..];
    }
  }

  /** Every pending call has been flushed no further than its parts. */
  ghost predicate Sane(s: State) { forall i :: i in s.pending ==> s.pending[i].emitted <= |s.pending[i].parts| }

  lemma {:induction false} StaysSane(s: State, inputs: seq<Input>, allowed: set<string>)
    requires Sane(s)
    ensures Sane(AfterFrom(s, inputs, allowed))
    decreases |inputs|
  {
    if inputs != [] {
      StaysSane(s, inputs[..|inputs| - 1], allowed);
      StepSane(AfterFrom(s, inputs[..|inputs| - 1], allowed), inputs[|inputs| - 1], allowed);
    }
  }

  lemma StepSane(s: State, input: Input, allowed: set<string>)
    requires Sane(s)
    ensures Sane(Step(s, input, allowed))
  {
  }

  /** The innermost loop: the tool-call fragments of one delta. */
  method ReadCalls(s: State, calls: seq<Fragment>, allowed: set<string>) returns (r: State)
    requires Sane(s)
    ensures r == AfterFrom(s, PartInputs(calls), allowed)
  {
    r := s;
    for k := 0 to |calls|
      invariant Sane(r) && r == AfterFrom(s, PartInputs(calls[..k]), allowed)
    {
      PartOne(s, calls, k, allowed);
      r := ReadCall(r, calls[k], allowed);
    }
    assert calls[..|calls|] == calls;
  }

  lemma PartOne(s: State, calls: seq<Fragment>, k: nat, allowed: set<string>)
    requires k < |calls|
    ensures AfterFrom(s, PartInputs(calls[..k + 1]), allowed)
            == StepPart(AfterFrom(s, PartInputs(calls[..k]), allowed), calls[k], allowed)
  {
    assert PartInputs(calls[..k + 1]) == PartInputs(calls[..k]) + [Part(calls[k])];
    AfterOne(s, PartInputs(calls[..k]), Part(calls[k]), allowed);
  }

  /** One fragment. */
  method ReadCall(s: State, raw: Fragment, allowed: set<string>) returns (r: State)
    requires Sane(s)
    ensures Sane(r) && r == StepPart(s, raw, allowed)
  {
    var item := Apply(ItemAt(s.pending, raw.index), raw);
    var events := [];
    if Carries(raw) { item, events := StartAndFlush(item, raw.index, allowed); }
    r := s.(pending := s.pending[raw.index := item], out := s.out + events);
  }

  /** One choice: its finish reason, its text, its calls. */
  method ReadChoice(s: State, choice: Choice, allowed: set<string>) returns (r: State)
    requires Sane(s)
    ensures r == AfterFrom(s, ChoiceInputs(choice), allowed)
  {
    r := s;
    if choice.finish.Some? { r := r.(finish := Some(choice.finish.value)); }
    ghost var finish := FinishInputs(choice.finish);
    assert r == AfterFrom(s, finish, allowed);
    if choice.delta.None? {
      assert ChoiceInputs(choice) == finish;
      return;
    }
    DeltaAfter(s, choice, allowed);
    var text := choice.delta.value.text;
    if text != "" { r := r.(semantic := true, out := r.out + [Text(text, choice.index)]); }
    r := ReadCalls(r, choice.delta.value.calls, allowed);
  }

  lemma DeltaAfter(s: State, choice: Choice, allowed: set<string>)
    requires Sane(s) && choice.delta.Some?
    ensures var begun := AfterFrom(s, FinishInputs(choice.finish), allowed);
            var spoken := Step(begun, TextSeen(choice.delta.value.text, choice.index), allowed);
            Sane(spoken) && AfterFrom(s, ChoiceInputs(choice), allowed)
                            == AfterFrom(spoken, PartInputs(choice.delta.value.calls), allowed)
  {
    var finish, text := FinishInputs(choice.finish), TextSeen(choice.delta.value.text, choice.index);
    AfterOne(s, finish, text, allowed);
    StaysSane(s, finish + [text], allowed);
    AfterBoth(s, finish + [text], PartInputs(choice.delta.value.calls), allowed);
    assert ChoiceInputs(choice) == finish + [text] + PartInputs(choice.delta.value.calls);
  }

  method ReadChunk(s: State, chunk: Chunk, allowed: set<string>) returns (r: State)
    requires Sane(s)
    ensures r == AfterFrom(s, ChunkInputs(chunk), allowed)
  {
    r := s;
    if chunk.usage.Some? && r.usage != Some(chunk.usage.value) {
      r := r.(usage := Some(chunk.usage.value), out := r.out + [Usage(chunk.usage.value)]);
    }
    ghost var usage := UsageInputs(chunk.usage);
    assert r == AfterFrom(s, usage, allowed);
    StaysSane(s, usage, allowed);
    AfterBoth(s, usage, ChoicesInputs(chunk.choices), allowed);
    r := ReadChoices(r, chunk.choices, allowed);
  }

  /** The choices of one chunk. */
  method ReadChoices(s: State, choices: seq<Choice>, allowed: set<string>) returns (r: State)
    requires Sane(s)
    ensures r == AfterFrom(s, ChoicesInputs(choices), allowed)
  {
    r := s;
    for j := 0 to |choices|
      invariant r == AfterFrom(s, ChoicesInputs(choices[..j]), allowed)
    {
      StaysSane(s, ChoicesInputs(choices[..j]), allowed);
      AfterBoth(s, ChoicesInputs(choices[..j]), ChoiceInputs(choices[j]), allowed);
      assert choices[..j + 1][..j] == choices[..j];
      r := ReadChoice(r, choices[j], allowed);
    }
    assert choices[..|choices|] == choices;
  }

  method ReadChunks(chunks: seq<Chunk>, allowed: set<string>) returns (r: State)
    ensures r == After(Inputs(chunks), allowed)
  {
    r := START;
    for i := 0 to |chunks|
      invariant r == After(Inputs(chunks[..i]), allowed)
    {
      StaysSane(START, Inputs(chunks[..i]), allowed);
      AfterBoth(START, Inputs(chunks[..i]), ChunkInputs(chunks[i]), allowed);
      assert chunks[..i + 1][..i] == chunks[..i];
      r := ReadChunk(r, chunks[i], allowed);
    }
    assert chunks[..|chunks|] == chunks;
  }

  // ---------------------------------------------------------------- completing the calls

  function Concat(parts: seq<string>): string {
    if parts == [] then "" else Concat(parts[..|parts| - 1]) + parts[|parts| - 1]
  }

  function StripLeft(text: string, space: char -> bool): string {
    if text != "" && space(text[0]) then StripLeft(text[1..], space) else text
  }

  function StripRight(text: string, space: char -> bool): string {
    if text != "" && space(text[|text| - 1]) then StripRight(text[..|text| - 1], space) else text
  }

  /** The argument text that is decoded. */
  function ArgumentText(parts: seq<string>, space: char -> bool): string {
    var stripped := StripRight(StripLeft(Concat(parts), space), space);
    if stripped == "" then "{}" else stripped
  }

  /** The end of one call: its last events, and the error if it cannot be completed. */
  function EndItem(item: Item, index: nat, tools: Tools): (seq<Event>, Option<ProtocolError>) {
    var events := FlushedEvents(item, index, tools.allowed);
    if item.id == "" || item.name == "" then (events, Some(IncompleteCall(index)))
    else if !FlushedItem(item, tools.allowed).allowed then (events, Some(UnavailableTool(item.name)))
    else
      match tools.decode(ArgumentText(item.parts, tools.space))
      case Object(fields) => (events + [Completed(Call(index, item.id, item.name, fields))], None)
      case _ => (events, Some(InvalidArguments(item.name)))
  }

  function EndAll(pending: map<nat, Item>, indexes: seq<nat>, tools: Tools): (seq<Event>, Option<ProtocolError>)
    requires forall i :: i in indexes ==> i in pending
    decreases |indexes|
  {
    if indexes == [] then ([], None)
    else
      var before := EndAll(pending, indexes[..|indexes| - 1], tools);
      if before.1.Some? then before
      else
        assert indexes[|indexes| - 1] in indexes;
        var last := EndItem(pending[indexes[|indexes| - 1]], indexes[|indexes| - 1], tools);
        (before.0 + last.0, last.1)
  }

  predicate CutShort(finish: Option<string>) { finish == Some("length") || finish == Some("max_tokens") }

  function NonEmptyNames(pending: map<nat, Item>): set<string> { set i | i in pending
                                                                && pending[i].name != "" :: pending[i].name }

  /** What one attempt emits, and how it ends. */
  function Run(attempt: Attempt, tools: Tools): (seq<Event>, Ending) {
    Conclude(After(Inputs(attempt.chunks), tools.allowed), attempt.interrupted, tools)
  }

  /** The end of the stream, from the state the chunks left. */
  function Conclude(s: State, interrupted: Option<bool>, tools: Tools): (seq<Event>, Ending) {
    if interrupted.Some? then (s.out, Interrupted(interrupted.value))
    else if CutShort(s.finish) then (s.out, Truncated(NonEmptyNames(s.pending)))
    else ConcludeRead(s, tools)
  }

  /** The end of an attempt that was neither interrupted nor cut short. */
  function ConcludeRead(s: State, tools: Tools): (seq<Event>, Ending) {
    var end := EndAll(s.pending, SortedKeys(s.pending.Keys), tools);
    if end.1.Some? then (s.out + end.0, Protocol(end.1.value))
    else if !s.semantic && s.pending == map[] then (s.out + end.0, Protocol(EmptyResponse))
    else (s.out + end.0 + [Response(s.finish)], Finished)
  }

  lemma EndOneMore(pending: map<nat, Item>, indexes: seq<nat>, k: nat, tools: Tools)
    requires k < |indexes| && forall i :: i in indexes ==> i in pending
    requires EndAll(pending, indexes[..k], tools).1.None?
    ensures var last := EndItem(pending[indexes[k]], indexes[k], tools);
            EndAll(pending, indexes[..k + 1], tools) == (EndAll(pending, indexes[..k], tools).0 + last.0, last.1)
  {
    assert indexes[..k + 1][..k] == indexes[..k];
  }

  lemma {:induction false} ErrorStays(pending: map<nat, Item>, indexes: seq<nat>, k: nat, tools: Tools)
    requires k <= |indexes| && forall i :: i in indexes ==> i in pending
    requires EndAll(pending, indexes[..k], tools).1.Some?
    ensures EndAll(pending, indexes, tools) == EndAll(pending, indexes[..k], tools)
    decreases |indexes|
  {
    if k == |indexes| {
      assert indexes[..k] == indexes;
    } else {
      var shorter := indexes[..|indexes| - 1];
      assert shorter[..k] == indexes[..k];
      ErrorStays(pending, shorter, k, tools);
    }
  }

  /** The completion loop, in ascending index order. */
  method EndCalls(pending: map<nat, Item>, indexes: seq<nat>, tools: Tools)
    returns (events: seq<Event>, error: Option<ProtocolError>)
    requires forall i :: i in indexes ==> i in pending
    requires forall i :: i in pending ==> pending[i].emitted <= |pending[i].parts|
    ensures (events, error) == EndAll(pending, indexes, tools)
  {
    events, error := [], None;
    for k := 0 to |indexes|
      invariant error.None? && (events, error) == EndAll(pending, indexes[..k], tools)
    {
      var index := indexes[k];
      EndOneMore(pending, indexes, k, tools);
      var item, flushed := StartAndFlush(pending[index], index, tools.allowed);
      ghost var before := events;
      events := events + flushed;
      if item.id == "" || item.name == "" {
        error := Some(IncompleteCall(index));
      } else if !item.allowed {
        error := Some(UnavailableTool(item.name));
      } else {
        var decoded := tools.decode(ArgumentText(item.parts, tools.space));
        if decoded.Object? {
          events := events + [Completed(Call(index, item.id, item.name, decoded.fields))];
          assert events == before + (flushed + [Completed(Call(index, item.id, item.name, decoded.fields))]);
        } else {
          error := Some(InvalidArguments(item.name));
        }
      }
      if error.Some? {
        ErrorStays(pending, indexes, k + 1, tools);
        return;
      }
    }
    assert indexes[..|indexes|] == indexes;
  }

  /** `_stream_once`. */
  method StreamOnce(attempt: Attempt, tools: Tools) returns (events: seq<Event>, ending: Ending)
    ensures (events, ending) == Run(attempt, tools)
  {
    var s := ReadChunks(attempt.chunks, tools.allowed);
    StaysSane(START, Inputs(attempt.chunks), tools.allowed);
    if attempt.interrupted.Some? { return s.out, Interrupted(attempt.interrupted.value); }
    if CutShort(s.finish) { return s.out, Truncated(NonEmptyNames(s.pending)); }
    var ended, error := EndCalls(s.pending, SortedKeys(s.pending.Keys), tools);
    if error.Some? { return s.out + ended, Protocol(error.value); }
    if !s.semantic && s.pending == map[] { return s.out + ended, Protocol(EmptyResponse); }
    return s.out + ended + [Response(s.finish)], Finished;
  }
}
