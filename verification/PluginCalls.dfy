/** When the calls of several plugins go together: the condition on their scripts under which all of them succeed. */
module PluginCalls {
  import opened Options
  import opened PluginSession

  /** One call of a plugin. */
  datatype Call = Call(owner: string, action: Action)

  /** The call asks for something the host can do, whatever else is registered. */
  predicate Sound(c: Call, events: set<string>, bound: bool) {
    match c.action
    case DoEffect(dispose) => dispose.Callable?
    case DoService(_, close) => close.None? || close.value.Callable?
    case DoHandler(event, _) => event in events
    case DoCheck(_, callable) => callable && !bound
    case DoRaise => false
    case _ => true
  }

  /** Two calls ask for the same name in the same registry; completion checks are named by plugin and check. */
  predicate Clash(c: Call, d: Call) {
    match (c.action, d.action)
    case (DoTool(x), DoTool(y)) => x == y
    case (DoService(x, _), DoService(y, _)) => x == y
    case (DoProvider(x), DoProvider(y)) => x == y
    case (DoCheck(x, _), DoCheck(y, _)) => c.owner + "." + x == d.owner + "." + y
    case _ => false
  }

  predicate ClashFree(calls: seq<Call>) { forall j, k :: 0 <= j < k < |calls| ==> !Clash(calls[j], calls[k]) }

  predicate Compatible(calls: seq<Call>, events: set<string>, bound: bool) {
    (forall k :: 0 <= k < |calls| ==> Sound(calls[k], events, bound)) && ClashFree(calls)
  }

  function ScriptCalls(owner: string, script: seq<Step>): (calls: seq<Call>)
    ensures |calls| == |script|
  {
    seq(|script|, k requires 0 <= k < |script| => Call(owner, script[k].action))
  }

  /** The calls of several plugins, one plugin after another. */
  function CallsOf(plugins: seq<Specification>): seq<Call> {
    if plugins == [] then []
    else
      var last := plugins[|plugins| - 1];
      CallsOf(plugins[..|plugins| - 1]) + ScriptCalls(last.id, last.script)
  }

  predicate NothingSwallowed(plugins: seq<Specification>) {
    forall i :: 0 <= i < |plugins| ==> NothingCaught(plugins[i].script)
  }

  /** What each `activate` returns is nothing or a disposer. */
  ghost predicate ReturnsRight(plugins: seq<Specification>) {
    forall spec :: spec in plugins ==> spec.returned != Some(Uncallable)
  }

  // ---------------------------------------------------------------- what the calls so far have registered

  /** The session holds the names the calls registered, and no others. */
  ghost predicate HoldsNames(h: Held, calls: seq<Call>) {
    (forall name :: name in h.tools <==> exists k :: 0 <= k < |calls| && calls[k].action == DoTool(name))
    && (forall name :: name in h.services
                       <==> exists k :: 0 <= k < |calls| && calls[k].action.DoService? && calls[k].action.name == name)
    && (forall name :: name in h.providers <==> exists k :: 0 <= k < |calls| && calls[k].action == DoProvider(name))
    && (forall key :: key in h.checks
                      <==> exists k :: 0 <= k < |calls| && calls[k].action.DoCheck?
                                       && calls[k].owner + "." + calls[k].action.name == key)
  }

  /** The handlers the calls registered, in order. */
  function HandlersOf(calls: seq<Call>): seq<(string, nat)> {
    if calls == [] then []
    else
      var last := calls[|calls| - 1].action;
      HandlersOf(calls[..|calls| - 1]) + if last.DoHandler? then [(last.event, last.callback)] else []
  }

  ghost predicate HoldsCalls(h: Held, calls: seq<Call>) {
    HoldsNames(h, calls) && h.handlers == HandlersOf(calls)
  }

  lemma CompatibleOneMore(calls: seq<Call>, c: Call, events: set<string>, bound: bool)
    ensures Compatible(calls + [c], events, bound)
            <==> Compatible(calls, events, bound) && Sound(c, events, bound)
                 && forall k :: 0 <= k < |calls| ==> !Clash(calls[k], c)
  {
    var more := calls + [c];
    if Compatible(more, events, bound) {
      assert more[|calls|] == c;
      forall j, k | 0 <= j < k < |calls| ensures !Clash(calls[j], calls[k]) { assert !Clash(more[j], more[k]); }
      forall k | 0 <= k < |calls| ensures Sound(calls[k], events, bound) && !Clash(calls[k], c) {
        assert Sound(more[k], events, bound) && !Clash(more[k], more[|calls|]);
      }
    }
  }

  lemma {:induction false} LongerCompatible(calls: seq<Call>, more: seq<Call>, events: set<string>, bound: bool)
    requires Compatible(calls + more, events, bound)
    ensures Compatible(calls, events, bound)
  {
    forall k | 0 <= k < |calls| ensures Sound(calls[k], events, bound) { assert (calls + more)[k] == calls[k]; }
    forall j, k | 0 <= j < k < |calls| ensures !Clash(calls[j], calls[k]) {
      assert (calls + more)[j] == calls[j] && (calls + more)[k] == calls[k];
    }
  }

  /** In a session that holds exactly what compatible calls registered, a call succeeds exactly when it is compatible
      with them. */
  lemma CallSucceedsWhen(s: Session, calls: seq<Call>, c: Call, events: set<string>, bound: bool)
    requires HoldsNames(s.held, calls)
    ensures Objection(s, c.owner, c.action, events, bound).None?
            <==> Sound(c, events, bound) && forall k :: 0 <= k < |calls| ==> !Clash(calls[k], c)
  {
  }

  /** What an accepted call adds to what is held. */
  lemma PerformedHeld(s: Session, c: Call, events: set<string>, bound: bool)
    requires Objection(s, c.owner, c.action, events, bound).None?
    ensures Performed(s, c.owner, c.action, events, bound).held
            == match c.action
               case DoTool(name) => s.held.(tools := s.held.tools[name := s.nextTool])
               case DoService(name, _) => s.held.(services := s.held.services + {name})
               case DoProvider(name) => s.held.(providers := s.held.providers + {name})
               case DoHandler(event, callback) => s.held.(handlers := s.held.handlers + [(event, callback)])
               case DoCheck(name, _) => s.held.(checks := s.held.checks + {c.owner + "." + name})
               case _ => s.held
  {
    var asked := Asked(c.owner, c.action, s.nextTool);
    if |asked| <= 1 {
      RegisteredOne(s, asked);
    } else {
      RegisteredBoth(s, asked[..1], asked[1..]);
      RegisteredOne(s, asked[..1]);
      RegisteredOne(RegisteredAll(s, asked[..1]), asked[1..]);
      assert asked == asked[..1] + asked[1..];
    }
  }

  lemma FewTools(ds: seq<Disposer>)
    requires |ds| <= 2
    ensures ToolsIn(ds)
            == (if |ds| >= 1 && ds[0].RemoveTool? then 1 else 0) + if |ds| == 2 && ds[1].RemoveTool? then 1 else 0
  {
    if |ds| >= 1 { assert ds[..1] == [ds[0]] && ds[..1][..0] == []; }
    if |ds| == 1 { assert ds == ds[..1]; }
  }

  /** A single call, registry by registry: exactly when it raises, and what it registers. A name that is held raises and
      changes nothing. */
  lemma CallAnswers(before: Session, after: Session, error: Option<HostError>, owner: string, action: Action,
                    events: set<string>, bound: bool)
    requires Made(before, after, error, owner, action, events, bound)
    ensures after.nextTool == before.nextTool + if error.None? && action.DoTool? then 1 else 0
    ensures var below := before.stack;
            match action
            case DoEffect(dispose) =>
              (error.None? <==> dispose.Callable?) && after.held == before.held
              && after.stack == below + if error.None? then [Custom(owner, dispose.effect, dispose.fails)] else []
            case DoTool(name) =>
              var (tool, h) := (before.nextTool, before.held);
              (error.None? <==> name !in h.tools)
              && after.held == (if error.None? then h.(tools := h.tools[name := tool]) else h)
              && after.stack == below + if error.None? then [RemoveTool(owner, name, tool)] else []
            case DoService(name, close) =>
              var fresh_ := name !in before.held.services;
              (error.None? <==> fresh_ && close != Some(Uncallable))
              && after.held == before.held.(services := before.held.services + {name})
              && after.stack == below + (if fresh_ then [RemoveService(owner, name)] else [])
                          + if error.None? && close.Some?
                            then [Custom(owner, close.value.effect, close.value.fails)] else []
            case DoProvider(name) =>
              (error.None? <==> name !in before.held.providers)
              && after.held == before.held.(providers := before.held.providers + {name})
              && after.stack == below + if error.None? then [RemoveProvider(owner, name)] else []
            case DoHandler(event, callback) =>
              (error.None? <==> event in events)
              && after.held == (if error.None?
                                then before.held.(handlers := before.held.handlers + [(event, callback)])
                                else before.held)
              && after.stack == below + if error.None? then [RemoveHandler(owner, event, callback)] else []
            case DoCheck(name, callable) =>
              var key := owner + "." + name;
              (error.None? <==> !bound && callable && key !in before.held.checks)
              && after.held == (if error.None? then before.held.(checks := before.held.checks + {key})
                                else before.held)
              && after.stack == below + if error.None? then [RemoveCheck(owner, key)] else []
            case DoRaise => error.Some? && after == before
  {
    var granted := Granted(before, owner, action, events, bound);
    RegisteredMeaning(before, granted);
    FewTools(granted);
    if Objection(before, owner, action, events, bound).None? {
      PerformedHeld(before, Call(owner, action), events, bound);
    } else if NewService(before, action) {
      RegisteredOne(before, granted);
    }
  }

  lemma PerformedHoldsCalls(s: Session, calls: seq<Call>, c: Call, events: set<string>, bound: bool)
    requires HoldsCalls(s.held, calls) && Objection(s, c.owner, c.action, events, bound).None?
    ensures HoldsCalls(Performed(s, c.owner, c.action, events, bound).held, calls + [c])
  {
    var more := calls + [c];
    PerformedHeld(s, c, events, bound);
    assert more[|calls|] == c && more[..|calls|] == calls;
    assert forall k :: 0 <= k < |calls| ==> more[k] == calls[k];
    assert forall k :: 0 <= k < |more| ==> more[k] == if k < |calls| then calls[k] else c;
    HoldsOneMore(s.held, Performed(s, c.owner, c.action, events, bound).held, calls, c);
  }

  lemma HoldsOneMore(before: Held, after: Held, calls: seq<Call>, c: Call)
    requires HoldsNames(before, calls)
    requires after.tools.Keys == before.tools.Keys + if c.action.DoTool? then {c.action.name} else {}
    requires after.services == before.services + if c.action.DoService? then {c.action.name} else {}
    requires after.providers == before.providers + if c.action.DoProvider? then {c.action.name} else {}
    requires after.checks == before.checks + if c.action.DoCheck? then {c.owner + "." + c.action.name} else {}
    ensures HoldsNames(after, calls + [c])
  {
    var more := calls + [c];
    assert more[|calls|] == c && forall k :: 0 <= k < |calls| ==> more[k] == calls[k];
    forall name ensures name in after.tools <==> exists k :: 0 <= k < |more| && more[k].action == DoTool(name) {
      if name in before.tools {
        var k :| 0 <= k < |calls| && calls[k].action == DoTool(name);
        assert more[k].action == DoTool(name);
      }
    }
    forall name
      ensures name in after.services
              <==> exists k :: 0 <= k < |more| && more[k].action.DoService? && more[k].action.name == name
    {
      if name in before.services {
        var k :| 0 <= k < |calls| && calls[k].action.DoService? && calls[k].action.name == name;
        assert more[k] == calls[k];
      }
    }
    forall name ensures name in after.providers <==> exists k :: 0 <= k < |more| && more[k].action == DoProvider(name) {
      if name in before.providers {
        var k :| 0 <= k < |calls| && calls[k].action == DoProvider(name);
        assert more[k].action == DoProvider(name);
      }
    }
    forall key
      ensures key in after.checks
              <==> exists k :: 0 <= k < |more| && more[k].action.DoCheck?
                               && more[k].owner + "." + more[k].action.name == key
    {
      if key in before.checks {
        var k :| 0 <= k < |calls| && calls[k].action.DoCheck? && calls[k].owner + "." + calls[k].action.name == key;
        assert more[k] == calls[k];
      }
    }
  }

  // ---------------------------------------------------------------- scripts, plugins, loads

  /** After compatible calls the session holds exactly them, and nothing escaped; otherwise something did. */
  ghost predicate Went(outcome: (Session, Option<HostError>), calls: seq<Call>, events: set<string>, bound: bool) {
    (outcome.1.None? <==> Compatible(calls, events, bound)) && (outcome.1.None? ==> HoldsCalls(outcome.0.held, calls))
  }

  lemma WentOneMore(before: (Session, Option<HostError>), calls: seq<Call>, owner: string, step: Step,
                    events: set<string>, bound: bool)
    requires Went(before, calls, events, bound) && !step.caught
    ensures Went(RanOne(before, owner, step, events, bound), calls + [Call(owner, step.action)], events, bound)
  {
    var c := Call(owner, step.action);
    CompatibleOneMore(calls, c, events, bound);
    if before.1.None? {
      CallSucceedsWhen(before.0, calls, c, events, bound);
      if Objection(before.0, owner, step.action, events, bound).None? {
        PerformedHoldsCalls(before.0, calls, c, events, bound);
      }
    }
  }

  lemma {:induction false} ScriptGoes(s: Session, calls: seq<Call>, owner: string, script: seq<Step>,
                                      events: set<string>, bound: bool)
    requires HoldsCalls(s.held, calls) && Compatible(calls, events, bound) && NothingCaught(script)
    ensures Went(Ran(s, owner, script, events, bound), calls + ScriptCalls(owner, script), events, bound)
    decreases |script|
  {
    if script == [] {
      assert calls + ScriptCalls(owner, script) == calls;
    } else {
      var shorter, last := script[..|script| - 1], script[|script| - 1];
      ScriptGoes(s, calls, owner, shorter, events, bound);
      WentOneMore(Ran(s, owner, shorter, events, bound), calls + ScriptCalls(owner, shorter), owner, last, events,
                  bound);
      assert calls + ScriptCalls(owner, script)
          == calls + ScriptCalls(owner, shorter) + [Call(owner, last.action)];
    }
  }

  lemma ActivationGoes(s: Session, calls: seq<Call>, spec: Specification, events: set<string>, bound: bool)
    requires HoldsCalls(s.held, calls) && Compatible(calls, events, bound) && NothingCaught(spec.script)
    ensures var outcome := Activated(s, spec, events, bound);
            var more := calls + ScriptCalls(spec.id, spec.script);
            (outcome.1.None? <==> Compatible(more, events, bound) && spec.returned != Some(Uncallable))
            && (outcome.1.None? ==> HoldsCalls(outcome.0.held, more))
  {
    LoaderHoldsNothing(s, spec);
    ScriptGoes(Begun(s, spec), calls, spec.id, spec.script, events, bound);
    var ran := Ran(Begun(s, spec), spec.id, spec.script, events, bound);
    if ran.1.None? { LoaderHoldsNothing(ran.0, spec); }
  }

  /** What the loader itself pushes registers nothing. */
  lemma LoaderHoldsNothing(s: Session, spec: Specification)
    ensures Begun(s, spec).held == s.held && Concluded(s, spec).0.held == s.held
    ensures Concluded(s, spec).1.None? <==> spec.returned != Some(Uncallable)
  {
  }

  /** Activating plugins whose scripts catch nothing succeeds exactly when all their calls go together and each returns
      nothing or a disposer; the session then holds exactly what the calls registered. */
  lemma {:induction false} ActivationsGo(s: Session, plugins: seq<Specification>, events: set<string>, bound: bool)
    requires s.held == NOTHING_HELD && NothingSwallowed(plugins)
    ensures var outcome := ActivatedAll(s, plugins, events, bound);
            (outcome.1.None? <==> Compatible(CallsOf(plugins), events, bound) && ReturnsRight(plugins))
            && (outcome.1.None? ==> HoldsCalls(outcome.0.held, CallsOf(plugins)))
    decreases |plugins|
  {
    if plugins != [] {
      var shorter, last := plugins[..|plugins| - 1], plugins[|plugins| - 1];
      ActivationsGo(s, shorter, events, bound);
      var before := ActivatedAll(s, shorter, events, bound);
      if Compatible(CallsOf(plugins), events, bound) {
        LongerCompatible(CallsOf(shorter), ScriptCalls(last.id, last.script), events, bound);
      }
      assert ReturnsRight(plugins) <==> ReturnsRight(shorter) && last.returned != Some(Uncallable);
      if before.1.None? { ActivationGoes(before.0, CallsOf(shorter), last, events, bound); }
    }
  }

  // ---------------------------------------------------------------- the order does not matter

  /** As `ClashFree`, on the calls as a collection. */
  ghost predicate ClashFreeCollection(calls: multiset<Call>) {
    forall c, d :: c in calls && d in calls && Clash(c, d) ==> c == d && calls[c] == 1
  }

  lemma {:induction false} TwoPlaces(calls: seq<Call>, c: Call) returns (j: nat, k: nat)
    requires multiset(calls)[c] >= 2
    ensures j < k < |calls| && calls[j] == calls[k] == c
    decreases |calls|
  {
    var n := |calls| - 1;
    assert calls == calls[..n] + [calls[n]];
    if calls[n] == c {
      assert c in multiset(calls[..n]);
      j :| 0 <= j < n && calls[..n][j] == c;
      k := n;
    } else {
      j, k := TwoPlaces(calls[..n], c);
    }
  }

  lemma CountedTwice(calls: seq<Call>, j: nat, k: nat)
    requires j < k < |calls| && calls[j] == calls[k]
    ensures multiset(calls)[calls[k]] >= 2
  {
    assert calls == calls[..k] + [calls[k]] + calls[k + 1..];
    assert calls[..k][j] in multiset(calls[..k]);
  }

  lemma ClashFreeByCollection(calls: seq<Call>)
    ensures ClashFree(calls) <==> ClashFreeCollection(multiset(calls))
  {
    if ClashFree(calls) {
      forall c, d | c in multiset(calls) && d in multiset(calls) && Clash(c, d)
        ensures c == d && multiset(calls)[c] == 1
      {
        var j :| 0 <= j < |calls| && calls[j] == c;
        var k :| 0 <= k < |calls| && calls[k] == d;
        assert Clash(d, c);
        if multiset(calls)[c] >= 2 { var x, y := TwoPlaces(calls, c); }
      }
    } else {
      var j, k :| 0 <= j < k < |calls| && Clash(calls[j], calls[k]);
      assert calls[j] in multiset(calls) && calls[k] in multiset(calls);
      if calls[j] == calls[k] { CountedTwice(calls, j, k); }
    }
  }

  lemma CompatibleAnyOrder(calls: seq<Call>, others: seq<Call>, events: set<string>, bound: bool)
    requires multiset(calls) == multiset(others)
    ensures Compatible(calls, events, bound) <==> Compatible(others, events, bound)
  {
    ClashFreeByCollection(calls);
    ClashFreeByCollection(others);
    SoundAnyOrder(calls, others, events, bound);
    SoundAnyOrder(others, calls, events, bound);
  }

  lemma SoundAnyOrder(calls: seq<Call>, others: seq<Call>, events: set<string>, bound: bool)
    requires multiset(calls) == multiset(others)
    ensures (forall k :: 0 <= k < |calls| ==> Sound(calls[k], events, bound))
            ==> forall k :: 0 <= k < |others| ==> Sound(others[k], events, bound)
  {
    forall k | 0 <= k < |others| ensures others[k] in calls { assert others[k] in multiset(calls); }
  }

  lemma {:induction false} CallsOfBoth(first: seq<Specification>, second: seq<Specification>)
    ensures CallsOf(first + second) == CallsOf(first) + CallsOf(second)
    decreases |second|
  {
    if second == [] {
      assert first + second == first;
    } else {
      assert (first + second)[..|first + second| - 1] == first + second[..|second| - 1];
      CallsOfBoth(first, second[..|second| - 1]);
    }
  }

  lemma {:induction false} SameCallsAnyOrder(plugins: seq<Specification>, others: seq<Specification>)
    requires multiset(plugins) == multiset(others)
    ensures multiset(CallsOf(plugins)) == multiset(CallsOf(others))
    decreases |plugins|
  {
    if plugins == [] {
      assert |multiset(others)| == 0;
    } else {
      var n := |plugins| - 1;
      var left, right := WithoutOne(plugins, others);
      SameCallsAnyOrder(plugins[..n], left + right);
      assert plugins == plugins[..n] + [plugins[n]];
      CallsOfBoth(plugins[..n], [plugins[n]]);
      CallsAround(left, plugins[n], right);
    }
  }

  /** The last of the one list, taken out of the other. */
  lemma WithoutOne(plugins: seq<Specification>, others: seq<Specification>)
    returns (left: seq<Specification>, right: seq<Specification>)
    requires multiset(plugins) == multiset(others) && plugins != []
    ensures others == left + [plugins[|plugins| - 1]] + right
    ensures multiset(plugins[..|plugins| - 1]) == multiset(left + right)
  {
    var n := |plugins| - 1;
    assert plugins == plugins[..n] + [plugins[n]];
    assert plugins[n] in multiset(others);
    var k :| 0 <= k < |others| && others[k] == plugins[n];
    left, right := others[..k], others[k + 1..];
    assert others == left + [plugins[n]] + right;
    assert multiset(plugins[..n]) == multiset(plugins) - multiset{plugins[n]};
    assert multiset(others) == multiset(left) + multiset{plugins[n]} + multiset(right);
  }

  lemma CallsAround(left: seq<Specification>, middle: Specification, right: seq<Specification>)
    ensures multiset(CallsOf(left + [middle] + right))
            == multiset(CallsOf(left + right)) + multiset(CallsOf([middle]))
  {
    CallsOfBoth(left, right);
    CallsOfBoth(left, [middle]);
    CallsOfBoth(left + [middle], right);
    var (a, m, c) := (CallsOf(left), CallsOf([middle]), CallsOf(right));
    assert CallsOf(left + [middle] + right) == a + m + c && CallsOf(left + right) == a + c;
  }
}
