/** What a plugin session holds, the disposer stack that undoes it, and what activating plugins does to both. */
module PluginSession {
  import opened Options
  import opened PluginGraph

  datatype HostError =
    | Untrusted
    | DuplicatePlugin
    | Dependency(cause: VisitError)
    | ScopeClosed
    | DuplicateName
    | UnknownEvent
    | CheckRefused
    | ActivationRaised
    | NotCallable
    | NotADisposer

  /** What undoing a registration or effect does; `owner` is the plugin being activated when it was registered. */
  datatype Disposer =
    | RemoveTool(owner: string, name: string, tool: nat)
    | RemoveService(owner: string, name: string)
    | RemoveProvider(owner: string, name: string)
    | RemoveHandler(owner: string, event: string, callback: nat)
    | RemoveCheck(owner: string, key: string)
    | Custom(owner: string, effect: nat, fails: bool)

  /** A tool in the session's registry: one of this host's, or somebody else's. */
  datatype ToolEntry = HostTool(tool: nat) | OtherTool(other: nat)

  /** What a plugin hands over to be called at close; the host refuses what cannot be called. */
  datatype Callback = Callable(effect: nat, fails: bool) | Uncallable

  /** One thing an `activate` function does; a refused registration raises unless the plugin catches it. */
  datatype Action =
    | DoEffect(dispose: Callback)
    | DoTool(name: string)
    | DoService(name: string, close: Option<Callback>)
    | DoProvider(name: string)
    | DoHandler(event: string, callback: nat)
    | DoCheck(name: string, callable: bool)
    | DoRaise
  datatype Step = Step(action: Action, caught: bool)
  datatype Specification = Specification(trusted: bool, id: string, needs: seq<string>, inTree: bool, script: seq<Step>,
                                         returned: Option<Callback>)

  function Reversed(ds: seq<Disposer>): seq<Disposer> {
    seq(|ds|, i requires 0 <= i < |ds| => ds[|ds| - 1 - i])
  }

  /** What a disposer takes away, whoever owns it. */
  datatype Token =
    | ToolToken(name: string, tool: nat)
    | ServiceToken(name: string)
    | ProviderToken(name: string)
    | HandlerToken(event: string, callback: nat)
    | CheckToken(key: string)
    | NoToken

  function TokenOf(d: Disposer): Token {
    match d
    case RemoveTool(_, name, tool) => ToolToken(name, tool)
    case RemoveService(_, name) => ServiceToken(name)
    case RemoveProvider(_, name) => ProviderToken(name)
    case RemoveHandler(_, event, callback) => HandlerToken(event, callback)
    case RemoveCheck(_, key) => CheckToken(key)
    case Custom(_, _, _) => NoToken
  }

  /** Everything the stack will take away; handlers are counted apart, as one item may be registered twice. */
  function Promised(ds: seq<Disposer>): set<Token> {
    if ds == [] then {} else Promised(ds[..|ds| - 1]) + {TokenOf(ds[|ds| - 1])}
  }

  function HandlersIn(ds: seq<Disposer>): multiset<(string, nat)> {
    if ds == [] then multiset{}
    else
      var d := ds[|ds| - 1];
      HandlersIn(ds[..|ds| - 1]) + (if d.RemoveHandler? then multiset{(d.event, d.callback)} else multiset{})
  }

  // ---------------------------------------------------------------- registrations as a value

  datatype Held = Held(tools: map<string, nat>, services: set<string>, providers: set<string>,
                       handlers: seq<(string, nat)>, checks: set<string>, registry: Option<map<string, ToolEntry>>)

  predicate Fails(d: Disposer) { d.Custom? && d.fails }

  const NOTHING_HELD := Held(map[], {}, {}, [], {}, None)

  /** Everything registered has its removal on the stack. */
  predicate Tracked(h: Held, ds: seq<Disposer>) {
    (forall name :: name in h.tools ==> ToolToken(name, h.tools[name]) in Promised(ds))
    && (forall name :: name in h.services ==> ServiceToken(name) in Promised(ds))
    && (forall name :: name in h.providers ==> ProviderToken(name) in Promised(ds))
    && (forall key :: key in h.checks ==> CheckToken(key) in Promised(ds))
    && multiset(h.handlers) == HandlersIn(ds)
    && (h.registry.Some? ==>
          forall name :: name in h.registry.value && h.registry.value[name].HostTool?
                         ==> ToolToken(name, h.registry.value[name].tool) in Promised(ds))
  }

  predicate HoldsNothing(h: Held) {
    h.tools == map[] && h.services == {} && h.providers == {} && h.handlers == [] && h.checks == {}
    && (h.registry.Some? ==> forall name :: name in h.registry.value ==> h.registry.value[name].OtherTool?)
  }

  /** The registration a disposer is pushed for. */
  function Added(h: Held, d: Disposer): Held {
    match d
    case RemoveTool(_, name, tool) => h.(tools := h.tools[name := tool])
    case RemoveService(_, name) => h.(services := h.services + {name})
    case RemoveProvider(_, name) => h.(providers := h.providers + {name})
    case RemoveHandler(_, event, callback) => h.(handlers := h.handlers + [(event, callback)])
    case RemoveCheck(_, key) => h.(checks := h.checks + {key})
    case Custom(_, _, _) => h
  }

  /** list.remove: the list without its first equal item. */
  function WithoutFirst(items: seq<(string, nat)>, item: (string, nat)): (rest: seq<(string, nat)>)
    ensures item in items ==> multiset(rest) == multiset(items) - multiset{item}
    ensures item !in items ==> rest == items
  {
    if items == [] then []
    else if items[0] == item then (assert items == [items[0]] + items[1..]; items[1..])
    else (assert items == [items[0]] + items[1..]; [items[0]] + WithoutFirst(items[1..], item))
  }

  /** What running a disposer leaves. */
  function Removed(h: Held, d: Disposer): Held {
    match d
    case RemoveTool(_, name, tool) =>
      h.(tools := h.tools - {name},
         registry := if h.registry.Some? && name in h.registry.value && h.registry.value[name] == HostTool(tool)
                     then Some(h.registry.value - {name}) else h.registry)
    case RemoveService(_, name) => h.(services := h.services - {name})
    case RemoveProvider(_, name) => h.(providers := h.providers - {name})
    case RemoveHandler(_, event, callback) => h.(handlers := WithoutFirst(h.handlers, (event, callback)))
    case RemoveCheck(_, key) => h.(checks := h.checks - {key})
    case Custom(_, _, _) => h
  }

  lemma OnTop(ds: seq<Disposer>, d: Disposer)
    ensures Promised(ds + [d]) == Promised(ds) + {TokenOf(d)}
    ensures HandlersIn(ds + [d])
            == HandlersIn(ds) + if d.RemoveHandler? then multiset{(d.event, d.callback)} else multiset{}
  {
    assert (ds + [d])[..|ds|] == ds;
  }

  lemma PushTracks(h: Held, ds: seq<Disposer>, d: Disposer)
    requires Tracked(h, ds) && (d.RemoveTool? ==> d.name !in h.tools)
    ensures Tracked(Added(h, d), ds + [d])
  {
    OnTop(ds, d);
    if d.RemoveHandler? {
      PushHandler(h, ds, d);
    } else if d.RemoveTool? {
      PushTool(h, ds, d);
    }
  }

  lemma PushHandler(h: Held, ds: seq<Disposer>, d: Disposer)
    requires Tracked(h, ds) && d.RemoveHandler?
    ensures Tracked(Added(h, d), ds + [d])
  {
    OnTop(ds, d);
    assert multiset(h.handlers + [(d.event, d.callback)]) == multiset(h.handlers) + multiset{(d.event, d.callback)};
  }

  lemma PushTool(h: Held, ds: seq<Disposer>, d: Disposer)
    requires Tracked(h, ds) && d.RemoveTool? && d.name !in h.tools
    ensures Tracked(Added(h, d), ds + [d])
  {
    OnTop(ds, d);
  }

  lemma PopTracks(h: Held, ds: seq<Disposer>, d: Disposer)
    requires Tracked(h, ds + [d])
    ensures Tracked(Removed(h, d), ds)
    ensures d.RemoveHandler? ==> (d.event, d.callback) in h.handlers
  {
    OnTop(ds, d);
    if d.RemoveHandler? {
      PopHandler(h, ds, d);
    } else if d.RemoveTool? {
      PopTool(h, ds, d);
    } else {
      PopOther(h, ds, d);
    }
  }

  lemma PopHandler(h: Held, ds: seq<Disposer>, d: Disposer)
    requires Tracked(h, ds + [d]) && d.RemoveHandler?
    ensures Tracked(Removed(h, d), ds) && (d.event, d.callback) in h.handlers
  {
    OnTop(ds, d);
    assert (d.event, d.callback) in multiset(h.handlers);
  }

  lemma PopTool(h: Held, ds: seq<Disposer>, d: Disposer)
    requires Tracked(h, ds + [d]) && d.RemoveTool?
    ensures Tracked(Removed(h, d), ds)
  {
    OnTop(ds, d);
    var after := Removed(h, d);
    forall name | name in after.tools ensures ToolToken(name, after.tools[name]) in Promised(ds) {
      assert ToolToken(name, h.tools[name]) in Promised(ds + [d]);
    }
  }

  lemma PopOther(h: Held, ds: seq<Disposer>, d: Disposer)
    requires Tracked(h, ds + [d]) && !d.RemoveHandler? && !d.RemoveTool?
    ensures Tracked(Removed(h, d), ds)
  {
    OnTop(ds, d);
  }

  /** Somebody else's registry entries are left alone. */
  predicate KeepsOthers(before: Option<map<string, ToolEntry>>, after: Option<map<string, ToolEntry>>) {
    before.Some? == after.Some?
    && (after.Some? ==>
          forall name :: name in before.value && before.value[name].OtherTool?
                         ==> name in after.value && after.value[name] == before.value[name])
  }

  /** Running a whole stack, last pushed first. */
  function RemovedAll(h: Held, ds: seq<Disposer>): Held
    decreases |ds|
  {
    if ds == [] then h else RemovedAll(Removed(h, ds[|ds| - 1]), ds[..|ds| - 1])
  }

  /** Unwinding the stack leaves nothing registered, and touches nobody else's registry entries. */
  lemma {:induction false} UnwindingEmpties(h: Held, ds: seq<Disposer>)
    requires Tracked(h, ds)
    ensures HoldsNothing(RemovedAll(h, ds)) && KeepsOthers(h.registry, RemovedAll(h, ds).registry)
    decreases |ds|
  {
    if ds == [] {
      assert |multiset(h.handlers)| == |h.handlers|;
    } else {
      var rest := ds[..|ds| - 1];
      assert rest + [ds[|ds| - 1]] == ds;
      PopTracks(h, rest, ds[|ds| - 1]);
      UnwindingEmpties(Removed(h, ds[|ds| - 1]), rest);
    }
  }

  /** Disposing right after registering undoes it: the same things are held, handlers as a collection. */
  lemma DisposeUndoesRegister(h: Held, d: Disposer)
    requires d.RemoveTool? ==> d.name !in h.tools && (h.registry.Some? && d.name in h.registry.value
                                                      ==> h.registry.value[d.name] != HostTool(d.tool))
    requires (d.RemoveService? ==> d.name !in h.services) && (d.RemoveProvider? ==> d.name !in h.providers)
    requires d.RemoveCheck? ==> d.key !in h.checks
    ensures var after := Removed(Added(h, d), d);
            after.(handlers := h.handlers) == h && multiset(after.handlers) == multiset(h.handlers)
  {
    if d.RemoveHandler? {
      var item := (d.event, d.callback);
      assert item in multiset(h.handlers + [item]);
      assert multiset(h.handlers + [item]) == multiset(h.handlers) + multiset{item};
    }
  }

  /** From position `i` up the stack has been run. */
  predicate Unwound(before: Held, after: Held, ds: seq<Disposer>, i: nat)
    requires i <= |ds|
  {
    RemovedAll(after, ds[..i]) == RemovedAll(before, ds)
  }

  lemma UnwoundOne(before: Held, after: Held, ds: seq<Disposer>, i: nat)
    requires i < |ds| && Unwound(before, after, ds, i + 1)
    ensures Unwound(before, Removed(after, ds[i]), ds, i)
  {
    assert ds[..i + 1][..i] == ds[..i];
  }

  lemma ReversedOne(ds: seq<Disposer>, i: nat)
    requires i < |ds|
    ensures Reversed(ds)[..|ds| - i] == Reversed(ds)[..|ds| - i - 1] + [ds[i]]
  {
  }

  // ---------------------------------------------------------------- what an activation does

  /** What the host holds, its stack, and the number of its next tool. */
  datatype Session = Session(held: Held, stack: seq<Disposer>, nextTool: nat)

  function Registered(s: Session, d: Disposer): Session {
    Session(Added(s.held, d), s.stack + [d], if d.RemoveTool? then s.nextTool + 1 else s.nextTool)
  }

  function RegisteredAll(s: Session, ds: seq<Disposer>): Session {
    if ds == [] then s else Registered(RegisteredAll(s, ds[..|ds| - 1]), ds[|ds| - 1])
  }

  function CheckKey(owner: string, name: string): string { owner + "." + name }

  function AskedToRun(owner: string, dispose: Callback): seq<Disposer> {
    if dispose.Callable? then [Custom(owner, dispose.effect, dispose.fails)] else []
  }

  /** The registrations one call asks for, when tools are numbered from `nextTool`. */
  function Asked(owner: string, action: Action, nextTool: nat): seq<Disposer> {
    match action
    case DoEffect(dispose) => AskedToRun(owner, dispose)
    case DoTool(name) => [RemoveTool(owner, name, nextTool)]
    case DoService(name, close) =>
      [RemoveService(owner, name)] + if close.Some? then AskedToRun(owner, close.value) else []
    case DoProvider(name) => [RemoveProvider(owner, name)]
    case DoHandler(event, callback) => [RemoveHandler(owner, event, callback)]
    case DoCheck(name, _) => [RemoveCheck(owner, CheckKey(owner, name))]
    case DoRaise => []
  }

  /** Why a call raises. */
  function Objection(s: Session, owner: string, action: Action, events: set<string>, bound: bool): Option<HostError> {
    match action
    case DoEffect(dispose) => if dispose.Uncallable? then Some(NotCallable) else None
    case DoTool(name) => if name in s.held.tools then Some(DuplicateName) else None
    case DoService(name, close) =>
      if name in s.held.services then Some(DuplicateName)
      else if close == Some(Uncallable) then Some(NotCallable) else None
    case DoProvider(name) => if name in s.held.providers then Some(DuplicateName) else None
    case DoHandler(event, _) => if event !in events then Some(UnknownEvent) else None
    case DoCheck(name, callable) =>
      if bound || CheckKey(owner, name) in s.held.checks || !callable then Some(CheckRefused) else None
    case DoRaise => Some(ActivationRaised)
  }

  /** A new service stays registered even when its close effect is refused afterwards. */
  predicate NewService(s: Session, action: Action) { action.DoService? && action.name !in s.held.services }

  /** What a call registers: nothing when it is refused at once. */
  function Granted(s: Session, owner: string, action: Action, events: set<string>, bound: bool): seq<Disposer> {
    if Objection(s, owner, action, events, bound).Some? && !NewService(s, action) then []
    else Asked(owner, action, s.nextTool)
  }

  function Performed(s: Session, owner: string, action: Action, events: set<string>, bound: bool): Session {
    RegisteredAll(s, Granted(s, owner, action, events, bound))
  }

  /** The call was made: its registrations and its exception. */
  predicate Made(
    before: Session, after: Session, error: Option<HostError>, owner: string, action: Action, events: set<string>,
    bound: bool)
  {
    error == Objection(before, owner, action, events, bound) && after == Performed(before, owner, action, events, bound)
  }

  /** A registration's answer: a closed scope refuses and changes nothing. */
  predicate Answered(
    closed: bool, before: Session, after: Session, error: Option<HostError>, owner: string, action: Action,
    events: set<string>, bound: bool)
  {
    if closed then error == Some(ScopeClosed) && after == before
    else Made(before, after, error, owner, action, events, bound)
  }

  /** A call that asks for one registration and is not refused makes it, and everything held stays tracked. */
  lemma Registers(s: Session, owner: string, action: Action, events: set<string>, bound: bool)
    returns (after: Session)
    requires Tracked(s.held, s.stack) && |Asked(owner, action, s.nextTool)| == 1
    requires Objection(s, owner, action, events, bound).None?
    ensures after == Registered(s, Asked(owner, action, s.nextTool)[0])
    ensures Performed(s, owner, action, events, bound) == after && Tracked(after.held, after.stack)
  {
    after := Registered(s, Asked(owner, action, s.nextTool)[0]);
    RegisteredOne(s, Asked(owner, action, s.nextTool));
    PushTracks(s.held, s.stack, Asked(owner, action, s.nextTool)[0]);
  }

  /** Registering a service with a close effect is registering the service, then the effect. */
  lemma ServiceThenClose(s: Session, owner: string, name: string, close: Callback, events: set<string>, bound: bool)
    requires name !in s.held.services
    ensures var (service, effect, both) := (DoService(name, None), DoEffect(close), DoService(name, Some(close)));
            var first := Performed(s, owner, service, events, bound);
            Performed(s, owner, both, events, bound) == Performed(first, owner, effect, events, bound)
            && Objection(s, owner, both, events, bound) == Objection(first, owner, effect, events, bound)
  {
    RegisteredBoth(s, [RemoveService(owner, name)], AskedToRun(owner, close));
  }

  /** A call that raises has registered nothing, except exactly when it is a new service whose close effect cannot be
      called: the service stays. */
  lemma RaisesAfterRegistering(s: Session, owner: string, action: Action, events: set<string>, bound: bool)
    ensures Objection(s, owner, action, events, bound).Some? && Performed(s, owner, action, events, bound) != s
            <==> NewService(s, action) && action.close == Some(Uncallable)
  {
    if NewService(s, action) && action.close == Some(Uncallable) {
      RegisteredMeaning(s, [RemoveService(owner, action.name)]);
    }
  }

  /** One more call, unless an exception escaped before. */
  function RanOne(before: (Session, Option<HostError>), owner: string, step: Step, events: set<string>, bound: bool)
    : (Session, Option<HostError>)
  {
    if before.1.Some? then before
    else
      var objection := Objection(before.0, owner, step.action, events, bound);
      (Performed(before.0, owner, step.action, events, bound), if step.caught then None else objection)
  }

  /** The calls one after another, up to the first exception the plugin does not catch. */
  function Ran(s: Session, owner: string, script: seq<Step>, events: set<string>, bound: bool)
    : (Session, Option<HostError>)
  {
    if script == [] then (s, None)
    else
      RanOne(Ran(s, owner, script[..|script| - 1], events, bound), owner, script[|script| - 1], events, bound)
  }

  function Begun(s: Session, spec: Specification): Session {
    if spec.inTree then Registered(s, Custom(spec.id, 0, false)) else s
  }

  /** `activate`: the loader's own effect, the script, and the disposer it returns. */
  function Activated(s: Session, spec: Specification, events: set<string>, bound: bool): (Session, Option<HostError>) {
    var ran := Ran(Begun(s, spec), spec.id, spec.script, events, bound);
    if ran.1.Some? then ran else Concluded(ran.0, spec)
  }

  /** What `activate` returned: a disposer is pushed, anything else but nothing is refused. */
  function Concluded(s: Session, spec: Specification): (Session, Option<HostError>) {
    match spec.returned
    case None => (s, None)
    case Some(Callable(effect, fails)) => (Registered(s, Custom(spec.id, effect, fails)), None)
    case Some(Uncallable) => (s, Some(NotADisposer))
  }

  /** Several activations one after another, up to the first that fails. */
  function ActivatedAll(s: Session, plugins: seq<Specification>, events: set<string>, bound: bool)
    : (Session, Option<HostError>)
  {
    if plugins == [] then (s, None)
    else
      var before := ActivatedAll(s, plugins[..|plugins| - 1], events, bound);
      if before.1.Some? then before else Activated(before.0, plugins[|plugins| - 1], events, bound)
  }

  function ActivatedUpTo(s: Session, plugins: seq<Specification>, i: nat, events: set<string>, bound: bool)
    : (Session, Option<HostError>)
    requires i <= |plugins|
  {
    ActivatedAll(s, plugins[..i], events, bound)
  }

  lemma ActivatedNext(s: Session, plugins: seq<Specification>, i: nat, events: set<string>, bound: bool)
    requires i < |plugins| && ActivatedUpTo(s, plugins, i, events, bound).1.None?
    ensures ActivatedUpTo(s, plugins, i + 1, events, bound)
            == Activated(ActivatedUpTo(s, plugins, i, events, bound).0, plugins[i], events, bound)
  {
    assert plugins[..i + 1][..i] == plugins[..i];
  }

  lemma AllActivated(s: Session, plugins: seq<Specification>, events: set<string>, bound: bool)
    ensures ActivatedUpTo(s, plugins, |plugins|, events, bound) == ActivatedAll(s, plugins, events, bound)
  {
    assert plugins[..|plugins|] == plugins;
  }

  /** Once an activation failed, nothing more is activated. */
  lemma {:induction false} ActivatedStops(s: Session, plugins: seq<Specification>, k: nat, events: set<string>,
                                          bound: bool)
    requires k <= |plugins| && ActivatedUpTo(s, plugins, k, events, bound).1.Some?
    ensures ActivatedAll(s, plugins, events, bound) == ActivatedUpTo(s, plugins, k, events, bound)
    decreases |plugins|
  {
    if k == |plugins| {
      AllActivated(s, plugins, events, bound);
    } else {
      var shorter := plugins[..|plugins| - 1];
      assert shorter[..k] == plugins[..k];
      ActivatedStops(s, shorter, k, events, bound);
    }
  }

  /** Everything an activation asks for, in order. */
  function AskedByScript(owner: string, script: seq<Step>, nextTool: nat): (ds: seq<Disposer>) {
    if script == [] then []
    else
      AskedNext(owner, AskedByScript(owner, script[..|script| - 1], nextTool), script[|script| - 1].action, nextTool)
  }

  function AskedNext(owner: string, before: seq<Disposer>, action: Action, nextTool: nat): seq<Disposer> {
    before + Asked(owner, action, nextTool + ToolsIn(before))
  }

  function ToolsIn(ds: seq<Disposer>): nat {
    if ds == [] then 0 else ToolsIn(ds[..|ds| - 1]) + if ds[|ds| - 1].RemoveTool? then 1 else 0
  }

  function AskedBy(spec: Specification, nextTool: nat): seq<Disposer> {
    Opening(spec) + AskedByScript(spec.id, spec.script, nextTool) + Closing(spec)
  }

  function Opening(spec: Specification): seq<Disposer> { if spec.inTree then [Custom(spec.id, 0, false)] else [] }

  function Closing(spec: Specification): seq<Disposer> {
    if spec.returned.Some? then AskedToRun(spec.id, spec.returned.value) else []
  }

  lemma BegunMeaning(s: Session, spec: Specification)
    ensures Begun(s, spec) == RegisteredAll(s, Opening(spec)) && Begun(s, spec).nextTool == s.nextTool
  {
    RegisteredOne(s, Opening(spec));
  }

  lemma ConcludedMeaning(s: Session, spec: Specification)
    ensures Concluded(s, spec).0 == RegisteredAll(s, Closing(spec))
  {
    RegisteredOne(s, Closing(spec));
  }

  lemma {:induction false} RegisteredBoth(s: Session, first: seq<Disposer>, second: seq<Disposer>)
    ensures RegisteredAll(s, first + second) == RegisteredAll(RegisteredAll(s, first), second)
    decreases |second|
  {
    if second == [] {
      assert first + second == first;
    } else {
      assert (first + second)[..|first + second| - 1] == first + second[..|second| - 1];
      RegisteredBoth(s, first, second[..|second| - 1]);
    }
  }

  lemma {:induction false} RegisteredMeaning(s: Session, ds: seq<Disposer>)
    ensures RegisteredAll(s, ds).stack == s.stack + ds && RegisteredAll(s, ds).nextTool == s.nextTool + ToolsIn(ds)
    decreases |ds|
  {
    if ds != [] {
      RegisteredMeaning(s, ds[..|ds| - 1]);
      assert ds == ds[..|ds| - 1] + [ds[|ds| - 1]];
    }
  }

  predicate NothingCaught(script: seq<Step>) { forall i :: 0 <= i < |script| ==> !script[i].caught }

  lemma NotRefused(s: Session, owner: string, action: Action, events: set<string>, bound: bool)
    requires Objection(s, owner, action, events, bound).None?
    ensures Performed(s, owner, action, events, bound) == RegisteredAll(s, Asked(owner, action, s.nextTool))
  {
  }

  lemma OneMoreCall(s: Session, owner: string, asked: seq<Disposer>, action: Action, events: set<string>, bound: bool)
    requires Objection(RegisteredAll(s, asked), owner, action, events, bound).None?
    ensures Performed(RegisteredAll(s, asked), owner, action, events, bound)
            == RegisteredAll(s, AskedNext(owner, asked, action, s.nextTool))
  {
    NotRefused(RegisteredAll(s, asked), owner, action, events, bound);
    RegisteredMeaning(s, asked);
    RegisteredBoth(s, asked, Asked(owner, action, s.nextTool + ToolsIn(asked)));
  }

  lemma RanLonger(s: Session, owner: string, script: seq<Step>, last: Step, events: set<string>, bound: bool)
    requires !last.caught && Ran(s, owner, script + [last], events, bound).1.None?
    ensures var before := Ran(s, owner, script, events, bound);
            before.1.None? && Objection(before.0, owner, last.action, events, bound).None?
            && Ran(s, owner, script + [last], events, bound).0 == Performed(before.0, owner, last.action, events, bound)
  {
    assert (script + [last])[..|script|] == script;
  }

  lemma AskedLonger(owner: string, script: seq<Step>, last: Step, nextTool: nat)
    ensures AskedByScript(owner, script + [last], nextTool)
            == AskedNext(owner, AskedByScript(owner, script, nextTool), last.action, nextTool)
  {
    assert (script + [last])[..|script|] == script;
  }

  lemma ScriptOneMore(
    s: Session, owner: string, script: seq<Step>, last: Step, asked: seq<Disposer>, events: set<string>, bound: bool)
    requires !last.caught && Ran(s, owner, script + [last], events, bound).1.None?
    requires Ran(s, owner, script, events, bound).0 == RegisteredAll(s, asked)
    ensures Ran(s, owner, script + [last], events, bound).0
            == RegisteredAll(s, AskedNext(owner, asked, last.action, s.nextTool))
  {
    RanLonger(s, owner, script, last, events, bound);
    OneMoreCall(s, owner, asked, last.action, events, bound);
  }

  /** A script that neither fails nor swallows an exception makes every registration it asks for, in order. */
  lemma {:induction false} ScriptRegistersAll(s: Session, owner: string, script: seq<Step>, events: set<string>,
                                              bound: bool)
    requires NothingCaught(script) && Ran(s, owner, script, events, bound).1.None?
    ensures Ran(s, owner, script, events, bound).0 == RegisteredAll(s, AskedByScript(owner, script, s.nextTool))
    decreases |script|
  {
    if script != [] {
      var shorter, last := script[..|script| - 1], script[|script| - 1];
      assert script == shorter + [last];
      RanLonger(s, owner, shorter, last, events, bound);
      ScriptRegistersAll(s, owner, shorter, events, bound);
      ScriptOneMore(s, owner, shorter, last, AskedByScript(owner, shorter, s.nextTool), events, bound);
      AskedLonger(owner, shorter, last, s.nextTool);
    }
  }

  /** A successful activation that swallows no exception makes exactly the registrations it asks for, in order, and ends
      with the disposer it returned. */
  lemma ActivationRegistersAll(s: Session, spec: Specification, events: set<string>, bound: bool)
    requires NothingCaught(spec.script) && Activated(s, spec, events, bound).1.None?
    ensures Activated(s, spec, events, bound).0 == RegisteredAll(s, AskedBy(spec, s.nextTool))
    ensures Activated(s, spec, events, bound).0.stack == s.stack + AskedBy(spec, s.nextTool)
  {
    var asked := AskedByScript(spec.id, spec.script, s.nextTool);
    BegunMeaning(s, spec);
    ScriptRegistersAll(Begun(s, spec), spec.id, spec.script, events, bound);
    RegisteredBoth(s, Opening(spec), asked);
    ConcludedMeaning(RegisteredAll(s, Opening(spec) + asked), spec);
    RegisteredBoth(s, Opening(spec) + asked, Closing(spec));
    RegisteredMeaning(s, AskedBy(spec, s.nextTool));
  }

  lemma RegisteredOne(s: Session, ds: seq<Disposer>)
    requires |ds| <= 1
    ensures RegisteredAll(s, ds) == if ds == [] then s else Registered(s, ds[0])
  {
    assert ds != [] ==> ds[..0] == [];
  }

  lemma RanNext(s: Session, owner: string, script: seq<Step>, i: nat, events: set<string>, bound: bool)
    requires i < |script| && Ran(s, owner, script[..i], events, bound).1.None?
    ensures var (before, step) := (Ran(s, owner, script[..i], events, bound).0, script[i]);
            var objection := Objection(before, owner, step.action, events, bound);
            Ran(s, owner, script[..i + 1], events, bound)
            == (Performed(before, owner, step.action, events, bound), if step.caught then None else objection)
  {
    assert script[..i + 1][..i] == script[..i];
  }

  /** Once an exception escaped, nothing more is called. */
  lemma {:induction false} RanStops(s: Session, owner: string, script: seq<Step>, k: nat, events: set<string>,
                                    bound: bool)
    requires k <= |script| && Ran(s, owner, script[..k], events, bound).1.Some?
    ensures Ran(s, owner, script, events, bound) == Ran(s, owner, script[..k], events, bound)
    decreases |script|
  {
    if k == |script| {
      assert script[..k] == script;
    } else {
      var shorter := script[..|script| - 1];
      assert shorter[..k] == script[..k];
      RanStops(s, owner, shorter, k, events, bound);
    }
  }

  /** The disposers belong to one plugin. */
  predicate AllOwnedBy(ds: seq<Disposer>, owner: string) { forall i :: 0 <= i < |ds| ==> ds[i].owner == owner }

  /** However an activation ends, what it added is what it pushed. */
  lemma ActivationAddsWhatItPushes(s: Session, spec: Specification, events: set<string>, bound: bool)
    returns (ds: seq<Disposer>)
    ensures Activated(s, spec, events, bound).0 == RegisteredAll(s, ds) && AllOwnedBy(ds, spec.id)
    ensures Activated(s, spec, events, bound).0.stack == s.stack + ds
  {
    BegunMeaning(s, spec);
    var pushed := ScriptAdds(Begun(s, spec), spec.id, spec.script, events, bound);
    RegisteredBoth(s, Opening(spec), pushed);
    ds := Opening(spec) + pushed;
    if Ran(Begun(s, spec), spec.id, spec.script, events, bound).1.None? {
      ConcludedMeaning(RegisteredAll(s, ds), spec);
      RegisteredBoth(s, ds, Closing(spec));
      ds := ds + Closing(spec);
    }
    RegisteredMeaning(s, ds);
  }

  lemma {:induction false} ScriptAdds(s: Session, owner: string, script: seq<Step>, events: set<string>, bound: bool)
    returns (ds: seq<Disposer>)
    ensures Ran(s, owner, script, events, bound).0 == RegisteredAll(s, ds)
    ensures AllOwnedBy(ds, owner)
    decreases |script|
  {
    if script == [] {
      ds := [];
    } else {
      var before := Ran(s, owner, script[..|script| - 1], events, bound);
      ds := ScriptAdds(s, owner, script[..|script| - 1], events, bound);
      var more := CallAdds(before, owner, script[|script| - 1], events, bound);
      RegisteredBoth(s, ds, more);
      ds := ds + more;
    }
  }

  lemma CallAdds(before: (Session, Option<HostError>), owner: string, step: Step, events: set<string>, bound: bool)
    returns (ds: seq<Disposer>)
    ensures RanOne(before, owner, step, events, bound).0 == RegisteredAll(before.0, ds) && AllOwnedBy(ds, owner)
  {
    ds := if before.1.Some? then [] else Granted(before.0, owner, step.action, events, bound);
    if before.1.None? { GrantedIsOwned(before.0, owner, step.action, events, bound); }
  }

  lemma GrantedIsOwned(s: Session, owner: string, action: Action, events: set<string>, bound: bool)
    ensures AllOwnedBy(Granted(s, owner, action, events, bound), owner)
  {
  }

  // ---------------------------------------------------------------- the order of disposal

  /** The stack was pushed plugin by plugin, in load order. */
  ghost predicate StackFollows(order: seq<string>, ds: seq<Disposer>) {
    (forall i :: 0 <= i < |ds| ==> ds[i].owner in order)
    && forall i, j :: 0 <= i < j < |ds| ==>
         ds[i].owner in order && ds[j].owner in order && Position(order, ds[i].owner) <= Position(order, ds[j].owner)
  }

  lemma StackOrder(order: seq<string>, ds: seq<Disposer>, i: nat, j: nat)
    requires StackFollows(order, ds) && i < |ds| && j < |ds| && ds[i].owner in order && ds[j].owner in order
    requires Position(order, ds[j].owner) < Position(order, ds[i].owner)
    ensures j < i
  {
  }

  lemma RequirerPushedLater(g: Graph, order: seq<string>, ds: seq<Disposer>, i: nat, j: nat)
    requires Topological(g, order) && StackFollows(order, ds) && i < |ds| && j < |ds|
    requires TransitivelyRequires(g, ds[i].owner, ds[j].owner)
    ensures j < i
  {
    assert ds[i].owner in order && ds[j].owner in order;
    RequiredBefore(g, order, ds[i].owner, ds[j].owner);
    StackOrder(order, ds, i, j);
  }

  lemma RequiredBefore(g: Graph, order: seq<string>, from: string, to: string)
    requires Topological(g, order) && from in order && TransitivelyRequires(g, from, to)
    ensures to in order && Position(order, to) < Position(order, from)
  {
    var p: seq<string> :| |p| >= 2 && IsPath(g, p) && p[0] == from && p[|p| - 1] == to;
    PathDescends(g, order, p);
  }

  /** Every load-time effect of a plugin is disposed before any of a plugin it requires, however indirectly. */
  lemma DependantsFirst(g: Graph, order: seq<string>, ds: seq<Disposer>, i: nat, j: nat)
    requires Topological(g, order) && StackFollows(order, ds) && i < |ds| && j < |ds|
    requires TransitivelyRequires(g, Reversed(ds)[i].owner, Reversed(ds)[j].owner)
    ensures i < j
  {
    RequirerPushedLater(g, order, ds, |ds| - 1 - i, |ds| - 1 - j);
  }
}
