/** The plugin host: registrations owned by the session, and the disposer stack that undoes them. */
module PluginHost {
  import opened Options
  import opened PluginGraph
  import opened PluginSession
  import opened PluginCalls

  // ---------------------------------------------------------------- the host

  class Host {
    const events: set<string>
    var tools: map<string, nat>
    var services: set<string>
    var providers: set<string>
    var handlers: seq<(string, nat)>
    var checks: set<string>
    var cleanups: seq<Disposer>
    var registry: Option<map<string, ToolEntry>>
    var bound: bool
    var closing: bool
    var loaded: seq<string>
    var nextTool: nat
    /** Every disposer run so far, in order. */
    ghost var disposed: seq<Disposer>

    ghost function Holds(): Held
      reads this
    {
      Held(tools, services, providers, handlers, checks, registry)
    }

    ghost function State(): Session
      reads this
    {
      Session(Holds(), cleanups, nextTool)
    }

    /** Open hosts track what they hold; closed hosts hold nothing. */
    ghost predicate Valid()
      reads this
    {
      if closing then HoldsNothing(Holds()) && cleanups == [] else Tracked(Holds(), cleanups)
    }

    constructor (events: set<string>)
      ensures this.events == events && Holds() == NOTHING_HELD && cleanups == [] && Valid()
      ensures !closing && !bound && loaded == [] && disposed == []
    {
      this.events := events;
      tools, services, providers, handlers, checks, cleanups := map[], {}, {}, [], {}, [];
      registry, bound, closing, loaded, nextTool, disposed := None, false, false, [], 0, [];
    }

    // -------------------------------------------------------------- plugin context

    method Effect(owner: string, dispose: Callback) returns (error: Option<HostError>)
      requires Valid()
      modifies this`cleanups
      ensures Valid() && Answered(closing, old(State()), State(), error, owner, DoEffect(dispose), events, bound)
    {
      if closing { return Some(ScopeClosed); }
      if dispose.Uncallable? { return Some(NotCallable); }
      ghost var after := Registers(State(), owner, DoEffect(dispose), events, bound);
      cleanups := cleanups + [Custom(owner, dispose.effect, dispose.fails)];
      assert State() == after;
      return None;
    }

    method RegisterTool(owner: string, name: string) returns (error: Option<HostError>)
      requires Valid()
      modifies this`cleanups, this`tools, this`nextTool
      ensures Valid() && Answered(closing, old(State()), State(), error, owner, DoTool(name), events, bound)
    {
      if closing { return Some(ScopeClosed); }
      if name in tools { return Some(DuplicateName); }
      ghost var after := Registers(State(), owner, DoTool(name), events, bound);
      tools := tools[name := nextTool];
      cleanups := cleanups + [RemoveTool(owner, name, nextTool)];
      nextTool := nextTool + 1;
      assert State() == after;
      return None;
    }

    /** The service and, when it has one, the effect that closes it; refusing that effect leaves the service. */
    method RegisterService(owner: string, name: string, close: Option<Callback>) returns (error: Option<HostError>)
      requires Valid()
      modifies this`cleanups, this`services
      ensures Valid() && Answered(closing, old(State()), State(), error, owner, DoService(name, close), events, bound)
    {
      if closing { return Some(ScopeClosed); }
      if name in services { return Some(DuplicateName); }
      if close.Some? { ServiceThenClose(State(), owner, name, close.value, events, bound); }
      AddService(owner, name);
      if close.None? { return None; }
      error := Effect(owner, close.value);
    }

    method AddService(owner: string, name: string)
      requires Valid() && !closing && name !in services
      modifies this`cleanups, this`services
      ensures Valid() && State() == Performed(old(State()), owner, DoService(name, None), events, bound)
    {
      ghost var after := Registers(State(), owner, DoService(name, None), events, bound);
      services := services + {name};
      cleanups := cleanups + [RemoveService(owner, name)];
      assert State() == after;
    }

    method RegisterProvider(owner: string, name: string) returns (error: Option<HostError>)
      requires Valid()
      modifies this`cleanups, this`providers
      ensures Valid() && Answered(closing, old(State()), State(), error, owner, DoProvider(name), events, bound)
    {
      if closing { return Some(ScopeClosed); }
      if name in providers { return Some(DuplicateName); }
      ghost var after := Registers(State(), owner, DoProvider(name), events, bound);
      providers := providers + {name};
      cleanups := cleanups + [RemoveProvider(owner, name)];
      assert State() == after;
      return None;
    }

    method On(owner: string, event: string, callback: nat) returns (error: Option<HostError>)
      requires Valid()
      modifies this`cleanups, this`handlers
      ensures Valid() && Answered(closing, old(State()), State(), error, owner, DoHandler(event, callback), events,
                                  bound)
    {
      if closing { return Some(ScopeClosed); }
      if event !in events { return Some(UnknownEvent); }
      ghost var after := Registers(State(), owner, DoHandler(event, callback), events, bound);
      handlers := handlers + [(event, callback)];
      cleanups := cleanups + [RemoveHandler(owner, event, callback)];
      assert State() == after;
      return None;
    }

    method RegisterCheck(owner: string, name: string, callable: bool) returns (error: Option<HostError>)
      requires Valid()
      modifies this`cleanups, this`checks
      ensures Valid() && Answered(closing, old(State()), State(), error, owner, DoCheck(name, callable), events, bound)
    {
      if closing { return Some(ScopeClosed); }
      var key := CheckKey(owner, name);
      if bound || key in checks || !callable { return Some(CheckRefused); }
      ghost var after := Registers(State(), owner, DoCheck(name, callable), events, bound);
      checks := checks + {key};
      cleanups := cleanups + [RemoveCheck(owner, key)];
      assert State() == after;
      return None;
    }

    /** Registers this host's tools in the session's registry, stopping at the first name already taken there. */
    method BindRegistry(others: map<string, nat>) returns (ok: bool)
      requires Valid() && !closing && registry.None?
      modifies this`registry
      ensures Valid() && registry.Some?
      ensures forall name :: name in others ==>
                name in registry.value && registry.value[name] == OtherTool(others[name])
      ensures ok <==> tools.Keys !! others.Keys
      ensures ok ==> forall name :: name in tools
                        ==> name in registry.value && registry.value[name] == HostTool(tools[name])
    {
      var entries: map<string, ToolEntry> := map name | name in others :: OtherTool(others[name]);
      var todo := tools.Keys;
      ok := true;
      while todo != {} && ok
        invariant todo <= tools.Keys
        invariant forall name :: name in entries ==> name in others || name in tools
        invariant forall name :: name in others ==> name in entries && entries[name] == OtherTool(others[name])
        invariant forall name :: name in tools && name !in others && name !in todo ==> name in entries
        invariant forall name :: name in entries && name !in others
                     ==> name !in todo && entries[name] == HostTool(tools[name])
        invariant ok ==> forall name :: name in tools && name !in todo ==> name !in others
        invariant !ok ==> exists name :: name in tools && name in others
        decreases todo
      {
        var name :| name in todo;
        todo := todo - {name};
        if name in entries { ok := false; } else { entries := entries[name := HostTool(tools[name])]; }
      }
      registry := Some(entries);
    }

    // -------------------------------------------------------------- closing

    /** Runs one disposer; what it was registered for is gone afterwards, even when it fails. */
    method Dispose(d: Disposer) returns (failed: bool)
      modifies this`tools, this`services, this`providers, this`handlers, this`checks, this`registry, this`disposed
      ensures Holds() == Removed(old(Holds()), d) && disposed == old(disposed) + [d]
      ensures failed <==> Fails(d)
    {
      match d {
        case RemoveTool(_, name, tool) =>
          tools := tools - {name};
          if registry.Some? && name in registry.value && registry.value[name] == HostTool(tool) {
            registry := Some(registry.value - {name});
          }
        case RemoveService(_, name) => services := services - {name};
        case RemoveProvider(_, name) => providers := providers - {name};
        case RemoveHandler(_, event, callback) => handlers := WithoutFirst(handlers, (event, callback));
        case RemoveCheck(_, key) => checks := checks - {key};
        case Custom(_, _, _) =>
      }
      failed := d.Custom? && d.fails;
      disposed := disposed + [d];
    }

    /** `_close`: every disposer once, last registered first, whether or not some fail; nothing is held afterwards. */
    method Close() returns (failures: nat)
      requires Valid()
      modifies this
      ensures Valid() && closing && HoldsNothing(Holds()) && cleanups == []
      ensures disposed == old(disposed) + Reversed(old(cleanups))
      ensures failures == 0 <==> forall i :: 0 <= i < |old(cleanups)| ==> !Fails(old(cleanups)[i])
      ensures KeepsOthers(old(registry), registry) && loaded == old(loaded)
    {
      if closing { return 0; }
      closing := true;
      UnwindingEmpties(Holds(), cleanups);
      failures := RunDisposers();
      cleanups := [];
    }

    method RunDisposers() returns (failures: nat)
      modifies this`tools, this`services, this`providers, this`handlers, this`checks, this`registry, this`disposed
      ensures Holds() == RemovedAll(old(Holds()), cleanups)
      ensures disposed == old(disposed) + Reversed(cleanups)
      ensures failures == 0 <==> forall i :: 0 <= i < |cleanups| ==> !Fails(cleanups[i])
    {
      failures := 0;
      var i := |cleanups|;
      assert cleanups[..i] == cleanups;
      while i > 0
        invariant 0 <= i <= |cleanups| && Unwound(old(Holds()), Holds(), cleanups, i)
        invariant DisposedFrom(old(disposed), disposed, cleanups, i)
        invariant failures == 0 <==> forall k :: i <= k < |cleanups| ==> !Fails(cleanups[k])
      {
        i := i - 1;
        UnwoundOne(old(Holds()), Holds(), cleanups, i);
        DisposedOneMore(old(disposed), disposed, cleanups, i);
        var failed := Dispose(cleanups[i]);
        if failed { failures := failures + 1; }
      }
    }

    // -------------------------------------------------------------- activation

    /** One call an activating plugin makes. */
    method Perform(owner: string, action: Action) returns (error: Option<HostError>)
      requires Valid() && !closing
      modifies this`cleanups, this`tools, this`nextTool, this`services, this`providers, this`handlers, this`checks
      ensures Valid() && Made(old(State()), State(), error, owner, action, events, bound)
    {
      match action {
        case DoEffect(dispose) => error := Effect(owner, dispose);
        case DoTool(name) => error := RegisterTool(owner, name);
        case DoService(name, close) => error := RegisterService(owner, name, close);
        case DoProvider(name) => error := RegisterProvider(owner, name);
        case DoHandler(event, callback) => error := On(owner, event, callback);
        case DoCheck(name, callable) => error := RegisterCheck(owner, name, callable);
        case DoRaise => error := Some(ActivationRaised);
      }
    }

    /** The script, call by call. */
    method RunScript(owner: string, script: seq<Step>) returns (error: Option<HostError>)
      requires Valid() && !closing
      modifies this`cleanups, this`tools, this`nextTool, this`services, this`providers, this`handlers, this`checks
      ensures Valid() && (State(), error) == Ran(old(State()), owner, script, events, bound)
    {
      error := None;
      for i := 0 to |script|
        invariant error.None? && Valid() && (State(), error) == Ran(old(State()), owner, script[..i], events, bound)
      {
        RanNext(old(State()), owner, script, i, events, bound);
        error := Perform(owner, script[i].action);
        if error.Some? && !script[i].caught {
          RanStops(old(State()), owner, script, i + 1, events, bound);
          return;
        }
        error := None;
      }
      assert script[..|script|] == script;
    }

    /** One plugin's `activate`, from the loader's effect to the disposer it returns. */
    method Activate(spec: Specification) returns (error: Option<HostError>)
      requires Valid() && !closing
      modifies this`cleanups, this`tools, this`nextTool, this`services, this`providers, this`handlers, this`checks
      ensures Valid() && (State(), error) == Activated(old(State()), spec, events, bound)
    {
      if spec.inTree { Push(spec.id, 0, false); }
      error := RunScript(spec.id, spec.script);
      if error.Some? { return; }
      error := Conclude(spec);
    }

    method Conclude(spec: Specification) returns (error: Option<HostError>)
      requires Valid() && !closing
      modifies this`cleanups
      ensures Valid() && (State(), error) == Concluded(old(State()), spec)
    {
      match spec.returned {
        case None => error := None;
        case Some(Callable(effect, fails)) =>
          Push(spec.id, effect, fails);
          error := None;
        case Some(Uncallable) => error := Some(NotADisposer);
      }
    }

    /** What the loader itself puts on the stack. */
    method Push(owner: string, effect: nat, fails: bool)
      requires Valid() && !closing
      modifies this`cleanups
      ensures Valid() && State() == Registered(old(State()), Custom(owner, effect, fails))
    {
      PushTracks(Holds(), cleanups, Custom(owner, effect, fails));
      cleanups := cleanups + [Custom(owner, effect, fails)];
    }

    /** Describes every plugin before any plugin code runs. */
    method Describe(specs: seq<Specification>)
      returns (entries: map<string, Specification>, names: seq<string>, error: Option<HostError>)
      ensures error.None? <==> AllTrusted(specs) && DistinctIds(specs)
      ensures error.None? ==> names == Ids(specs) && Described(specs, entries)
    {
      entries, names := map[], [];
      var i := 0;
      while i < |specs|
        invariant i <= |specs| && names == Ids(specs[..i]) && AllTrusted(specs[..i]) && DistinctIds(specs[..i])
        invariant Described(specs[..i], entries)
      {
        if !specs[i].trusted { return entries, names, Some(Untrusted); }
        if specs[i].id in entries { return entries, names, Some(DuplicatePlugin); }
        DescribedOneMore(specs, entries, i);
        entries := entries[specs[i].id := specs[i]];
        names := names + [specs[i].id];
        i := i + 1;
      }
      assert specs[..i] == specs;
      error := None;
    }

    /** Activates the plugin at position `i`: its disposers go on top of those of the plugins before it. */
    method ActivateNext(spec: Specification, ghost order: seq<string>, ghost i: nat) returns (error: Option<HostError>)
      requires Valid() && !closing && Distinct(order) && i < |order| && order[i] == spec.id
      requires StackUpTo(order, cleanups, i) && loaded == order[..i]
      modifies this`cleanups, this`tools, this`nextTool, this`services, this`providers, this`handlers, this`checks
      modifies this`loaded
      ensures Valid() && StackUpTo(order, cleanups, i + 1) && (error.None? ==> loaded == order[..i + 1])
      ensures (State(), error) == Activated(old(State()), spec, events, bound)
    {
      NextOnTop(State(), spec, order, i, events, bound);
      assert order[..i + 1] == order[..i] + [order[i]];
      error := Activate(spec);
      if error.None? { loaded := loaded + [spec.id]; }
    }

    /** Activates the plugins in order until one fails; each success is recorded in `loaded`. */
    method ActivateAll(plugins: seq<Specification>, ghost order: seq<string>) returns (error: Option<HostError>)
      requires Valid() && !closing && cleanups == [] && loaded == [] && Distinct(order) && |plugins| == |order|
      requires forall i :: 0 <= i < |order| ==> plugins[i].id == order[i]
      modifies this`cleanups, this`tools, this`nextTool, this`services, this`providers, this`handlers, this`checks
      modifies this`loaded
      ensures Valid() && StackFollows(order, cleanups)
      ensures error.None? ==> loaded == order
      ensures (State(), error) == ActivatedAll(old(State()), plugins, events, bound)
    {
      ghost var start := State();
      error := None;
      for i := 0 to |plugins|
        invariant Valid() && loaded == order[..i] && StackUpTo(order, cleanups, i) && error.None?
        invariant (State(), error) == ActivatedUpTo(start, plugins, i, events, bound)
      {
        ActivatedNext(start, plugins, i, events, bound);
        error := ActivateNext(plugins[i], order, i);
        if error.Some? {
          ActivatedStops(start, plugins, i + 1, events, bound);
          return;
        }
      }
      assert order[..|order|] == order;
      AllActivated(start, plugins, events, bound);
    }

    /** `load`: all plugins in dependency order, or nothing at all.  It succeeds exactly when the plugins are loadable
        and each activation, made on what those before it left, does. */
    method Load(specs: seq<Specification>)
      returns (error: Option<HostError>, plugins: seq<Specification>, ghost pushed: seq<Disposer>)
      requires Valid() && !closing && Holds() == NOTHING_HELD && cleanups == [] && loaded == [] && disposed == []
      modifies this
      ensures Valid() && (Loadable(specs) ==> InLoadOrder(specs, plugins))
      ensures var outcome := ActivatedAll(old(State()), plugins, events, old(bound));
              (error.None? <==> Loadable(specs) && outcome.1.None?)
              && (error.None? ==> State() == outcome.0 && pushed == cleanups)
              && (error.Some? && Loadable(specs) ==> error == outcome.1 && pushed == outcome.0.stack)
      ensures error.None? ==> !closing && loaded == Ids(plugins) && disposed == []
      ensures error.Some? ==> closing && HoldsNothing(Holds()) && cleanups == [] && disposed == Reversed(pushed)
      ensures StackFollows(Ids(plugins), pushed) && (!Loadable(specs) ==> pushed == [])
      ensures NothingSwallowed(specs) ==>
                (error.None? <==>
                   Loadable(specs) && Compatible(CallsOf(specs), events, old(bound)) && ReturnsRight(specs))
                && (error.None? ==> HoldsCalls(Holds(), CallsOf(plugins)))
    {
      pushed := [];
      plugins, error := Arrange(specs);
      if error.None? {
        if NothingSwallowed(specs) { LoadGoes(State(), specs, plugins, events, bound); }
        error := ActivateAll(plugins, Ids(plugins));
        pushed := cleanups;
      }
      if error.Some? {
        var failures := Close();
      }
    }

    /** Describes the plugins and puts them into dependency order. */
    method Arrange(specs: seq<Specification>) returns (plugins: seq<Specification>, error: Option<HostError>)
      ensures error.None? <==> Loadable(specs)
      ensures error.None? ==> InLoadOrder(specs, plugins)
      ensures error.Some? ==> plugins == []
    {
      var entries, names;
      entries, names, error := Describe(specs);
      if error.Some? { return [], error; }
      var graph := map name | name in entries :: entries[name].needs;
      DescribedGraph(specs, entries);
      var order, cause := Order(graph, names);
      if cause.Some? { return [], Some(Dependency(cause.value)); }
      OrderedSpecs(specs, entries, order);
      plugins := InOrder(entries, order);
    }
  }

  /** The disposers from position `i` up have been run, last first. */
  ghost predicate DisposedFrom(before: seq<Disposer>, disposed: seq<Disposer>, ds: seq<Disposer>, i: nat)
    requires i <= |ds|
  {
    disposed == before + Reversed(ds)[..|ds| - i]
  }

  lemma DisposedOneMore(before: seq<Disposer>, disposed: seq<Disposer>, ds: seq<Disposer>, i: nat)
    requires i < |ds| && DisposedFrom(before, disposed, ds, i + 1)
    ensures DisposedFrom(before, disposed + [ds[i]], ds, i)
  {
    ReversedOne(ds, i);
  }

  // ---------------------------------------------------------------- describing the plugins

  predicate AllTrusted(specs: seq<Specification>) { forall i :: 0 <= i < |specs| ==> specs[i].trusted }

  function Ids(specs: seq<Specification>): seq<string> {
    seq(|specs|, i requires 0 <= i < |specs| => specs[i].id)
  }

  predicate DistinctIds(specs: seq<Specification>) {
    forall i, j :: 0 <= i < j < |specs| ==> specs[i].id != specs[j].id
  }

  predicate Described(specs: seq<Specification>, entries: map<string, Specification>) {
    (forall i :: 0 <= i < |specs| ==> specs[i].id in entries && entries[specs[i].id] == specs[i])
    && (forall name :: name in entries ==> name in Ids(specs) && entries[name].id == name)
  }

  /** What each described plugin requires; the last description of an id wins. */
  function GraphOf(specs: seq<Specification>): Graph {
    if specs == [] then map[] else GraphOf(specs[..|specs| - 1])[specs[|specs| - 1].id := specs[|specs| - 1].needs]
  }

  /** Every plugin is trusted, ids are unique, nothing required is missing and nothing requires itself. */
  ghost predicate Loadable(specs: seq<Specification>) {
    AllTrusted(specs) && DistinctIds(specs) && !HasCycle(GraphOf(specs)) && !HasMissing(GraphOf(specs))
  }

  /** The described plugins in the given order. */
  function InOrder(entries: map<string, Specification>, order: seq<string>): seq<Specification>
    requires forall name :: name in order ==> name in entries
  {
    seq(|order|, i requires 0 <= i < |order| => entries[order[i]])
  }

  /** The same plugins, each once and after those it requires. */
  ghost predicate InLoadOrder(specs: seq<Specification>, plugins: seq<Specification>) {
    Topological(GraphOf(specs), Ids(plugins)) && forall spec :: spec in plugins <==> spec in specs
  }

  lemma SameSpecs(specs: seq<Specification>, plugins: seq<Specification>)
    requires DistinctIds(specs) && DistinctIds(plugins) && forall spec :: spec in plugins <==> spec in specs
    ensures multiset(specs) == multiset(plugins)
  {
    OnceEach(specs);
    OnceEach(plugins);
  }

  lemma {:induction false} OnceEach(specs: seq<Specification>)
    requires DistinctIds(specs)
    ensures forall spec :: multiset(specs)[spec] == if spec in specs then 1 else 0
    decreases |specs|
  {
    if specs != [] {
      var n := |specs| - 1;
      OnceEach(specs[..n]);
      assert specs == specs[..n] + [specs[n]];
      assert specs[n] !in specs[..n];
    }
  }

  lemma LoadGoes(s: Session, specs: seq<Specification>, plugins: seq<Specification>, events: set<string>, bound: bool)
    requires s.held == NOTHING_HELD && NothingSwallowed(specs) && DistinctIds(specs) && InLoadOrder(specs, plugins)
    ensures var outcome := ActivatedAll(s, plugins, events, bound);
            (outcome.1.None? <==> Compatible(CallsOf(specs), events, bound) && ReturnsRight(specs))
            && (outcome.1.None? ==> HoldsCalls(outcome.0.held, CallsOf(plugins)))
  {
    forall i, j | 0 <= i < j < |plugins| ensures plugins[i].id != plugins[j].id {
      assert Ids(plugins)[i] != Ids(plugins)[j];
    }
    SameSpecs(specs, plugins);
    forall i | 0 <= i < |plugins| ensures NothingCaught(plugins[i].script) { assert plugins[i] in specs; }
    ActivationsGo(s, plugins, events, bound);
    SameCallsAnyOrder(specs, plugins);
    CompatibleAnyOrder(CallsOf(specs), CallsOf(plugins), events, bound);
  }

  lemma OrderedSpecs(specs: seq<Specification>, entries: map<string, Specification>, order: seq<string>)
    requires Described(specs, entries) && DistinctIds(specs)
    requires Topological(GraphOf(specs), order) && forall name :: name in order <==> name in entries
    ensures InLoadOrder(specs, InOrder(entries, order)) && Ids(InOrder(entries, order)) == order
  {
    var plugins := InOrder(entries, order);
    assert Ids(plugins) == order;
    forall spec | spec in specs ensures spec in plugins {
      var i :| 0 <= i < |specs| && specs[i] == spec;
      var k :| 0 <= k < |order| && order[k] == spec.id;
      assert plugins[k] == spec;
    }
    forall spec | spec in plugins ensures spec in specs {
      var k :| 0 <= k < |plugins| && plugins[k] == spec;
      assert order[k] in entries && order[k] in Ids(specs);
      var i :| 0 <= i < |specs| && Ids(specs)[i] == order[k];
    }
  }

  lemma DescribedOneMore(specs: seq<Specification>, entries: map<string, Specification>, i: nat)
    requires i < |specs| && Described(specs[..i], entries)
    ensures Ids(specs[..i + 1]) == Ids(specs[..i]) + [specs[i].id]
    ensures specs[i].id !in entries ==> Described(specs[..i + 1], entries[specs[i].id := specs[i]])
    ensures DistinctIds(specs[..i]) ==> (DistinctIds(specs[..i + 1]) <==> specs[i].id !in entries)
  {
    var (before, after) := (specs[..i], specs[..i + 1]);
    assert after == before + [specs[i]] && Ids(after)[i] == specs[i].id;
    if specs[i].id in entries {
      assert specs[i].id in Ids(before);
      var k :| 0 <= k < i && Ids(before)[k] == specs[i].id;
      assert after[k].id == after[i].id;
    } else {
      forall k | 0 <= k < i ensures specs[k].id in entries && entries[specs[k].id] == specs[k] {
        assert before[k] == specs[k];
      }
      assert Ids(after) == Ids(before) + [specs[i].id];
    }
  }

  lemma {:induction false} GraphOfIds(specs: seq<Specification>)
    requires DistinctIds(specs)
    ensures forall name :: name in GraphOf(specs) <==> name in Ids(specs)
    ensures forall i :: 0 <= i < |specs| ==>
              specs[i].id in GraphOf(specs) && GraphOf(specs)[specs[i].id] == specs[i].needs
  {
    if specs != [] {
      var n := |specs| - 1;
      var rest := specs[..n];
      GraphOfIds(rest);
      assert Ids(specs) == Ids(rest) + [specs[n].id];
      forall i | 0 <= i < n ensures specs[i].id in GraphOf(specs) && GraphOf(specs)[specs[i].id] == specs[i].needs {
        assert rest[i] == specs[i];
      }
    }
  }

  lemma DescribedGraph(specs: seq<Specification>, entries: map<string, Specification>)
    requires DistinctIds(specs) && Described(specs, entries)
    ensures (map name | name in entries :: entries[name].needs) == GraphOf(specs)
    ensures forall name :: name in Ids(specs) <==> name in entries
  {
    GraphOfIds(specs);
    forall name | name in Ids(specs) ensures name in entries && entries[name].needs == GraphOf(specs)[name] {
      var i :| 0 <= i < |specs| && Ids(specs)[i] == name;
    }
  }

  /** The stack follows the order, and only the first `i` plugins are on it. */
  ghost predicate StackUpTo(order: seq<string>, ds: seq<Disposer>, i: nat) {
    StackFollows(order, ds) && forall k :: 0 <= k < |ds| ==> ds[k].owner in order && Position(order, ds[k].owner) < i
  }

  lemma StackGrows(order: seq<string>, before: seq<Disposer>, after: seq<Disposer>, i: nat)
    requires i < |order| && Position(order, order[i]) == i && StackUpTo(order, before, i) && before <= after
    requires forall k :: |before| <= k < |after| ==> after[k].owner == order[i]
    ensures StackUpTo(order, after, i + 1)
  {
    forall k | 0 <= k < |after| ensures after[k].owner in order && Position(order, after[k].owner) < i + 1 {
      PlacedOnStack(order, before, after, i, k);
    }
    forall k, l | 0 <= k < l < |after|
      ensures after[k].owner in order && after[l].owner in order
              && Position(order, after[k].owner) <= Position(order, after[l].owner)
    {
      PlacedAfter(order, before, after, i, k, l);
    }
  }

  lemma PlacedAfter(order: seq<string>, before: seq<Disposer>, after: seq<Disposer>, i: nat, k: nat, l: nat)
    requires i < |order| && Position(order, order[i]) == i && StackUpTo(order, before, i) && before <= after
    requires k < l < |after| && forall m :: |before| <= m < |after| ==> after[m].owner == order[i]
    ensures after[k].owner in order && after[l].owner in order
            && Position(order, after[k].owner) <= Position(order, after[l].owner)
  {
    PlacedOnStack(order, before, after, i, k);
    PlacedOnStack(order, before, after, i, l);
    if l < |before| { assert after[k] == before[k] && after[l] == before[l]; }
  }

  lemma PlacedOnStack(order: seq<string>, before: seq<Disposer>, after: seq<Disposer>, i: nat, k: nat)
    requires i < |order| && Position(order, order[i]) == i && StackUpTo(order, before, i) && before <= after
    requires k < |after| && (k >= |before| ==> after[k].owner == order[i])
    ensures after[k].owner in order
    ensures if k < |before| then Position(order, after[k].owner) < i else Position(order, after[k].owner) == i
  {
    if k < |before| { assert after[k] == before[k]; }
  }

  /** An activation pushes on top of what the plugins before it pushed. */
  lemma NextOnTop(
    s: Session, spec: Specification, order: seq<string>, i: nat, events: set<string>, bound: bool)
    requires Distinct(order) && i < |order| && order[i] == spec.id && StackUpTo(order, s.stack, i)
    ensures StackUpTo(order, Activated(s, spec, events, bound).0.stack, i + 1)
  {
    var pushed := ActivationAddsWhatItPushes(s, spec, events, bound);
    PositionIsUnique(order, i);
    StackGrows(order, s.stack, s.stack + pushed, i);
  }
}
