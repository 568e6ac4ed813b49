/**
The lockfile closure that decides which installed packages the bridge ships: a worklist over nearest-ancestor
`node_modules` resolution.
*/
module DependencyPaths {
  import opened Options
  import opened Maps

  const SEPARATOR := "/node_modules/"
  const ROOTS := ["node_modules/ajv", "node_modules/ajv-formats", "node_modules/@deepseek-ai/dsh-sandbox-windows-acl"]
  const REMOVED := ["/node-forge", "/@anthropic-ai/sandbox-runtime"]

  /** The names a lockfile entry depends on; `optionalPeers` are those its peer metadata marks optional. */
  datatype Package = Package(dependencies: set<string>, peers: set<string>, optional: set<string>,
                             optionalPeers: set<string>)

  /** The lockfile, and which of its entries are directories on disk. */
  datatype Lock = Lock(packages: map<string, Package>, installed: set<string>)

  datatype Failure = RemovedDependency | MissingEntry(path: string) | Unresolved(name: string)

  predicate IsRemoved(path: string) { exists i :: 0 <= i < |REMOVED| && EndsWith(path, REMOVED[i]) }

  // ---------------------------------------------------------------- nearest-ancestor resolution

  predicate SeparatorAt(path: string, k: nat) { k + 14 <= |path| && path[k..k + 14] == SEPARATOR }

  /** Where `rsplit` cuts: the last separator. */
  function LastSeparator(path: string): (k: Option<nat>)
    ensures k.Some? ==> SeparatorAt(path, k.value) && forall later :: k.value < later ==> !SeparatorAt(path, later)
    ensures k.None? ==> forall any :: !SeparatorAt(path, any)
  {
    LastSeparatorUpTo(path, |path|)
  }

  function LastSeparatorUpTo(path: string, bound: nat): (k: Option<nat>)
    ensures k.Some? ==> SeparatorAt(path, k.value) && forall later :: k.value < later <= bound
                                                         ==> !SeparatorAt(path, later)
    ensures k.None? ==> forall any: nat :: any <= bound ==> !SeparatorAt(path, any)
  {
    if SeparatorAt(path, bound) then Some(bound) else if bound == 0 then None else LastSeparatorUpTo(path, bound - 1)
  }

  /** The package itself, then each directory it is nested in, innermost first. */
  function Ancestors(path: string): (r: seq<string>)
    decreases |path|
  {
    match LastSeparator(path)
    case None => [path]
    case Some(k) => [path] + Ancestors(path[..k])
  }

  function Under(parent: string, name: string): (r: string)
    ensures |r| == |parent| + 14 + |name|
  {
    parent + SEPARATOR + name
  }

  function AtTop(name: string): (r: string)
    ensures |r| == 13 + |name|
  {
    "node_modules/" + name
  }

  function Nested(parents: seq<string>, name: string): (r: seq<string>)
    ensures |r| == |parents| && forall i :: 0 <= i < |r| ==> r[i] == Under(parents[i], name)
  {
    if parents == [] then [] else [Under(parents[0], name)] + Nested(parents[1..], name)
  }

  function CandidateList(path: string, name: string): seq<string> { Nested(Ancestors(path), name) + [AtTop(name)] }

  function FirstIn(candidates: seq<string>, packages: map<string, Package>): (r: Option<string>)
    ensures r.None? <==> forall c :: c in candidates ==> c !in packages
    ensures r.Some? ==> exists i :: 0 <= i < |candidates| && candidates[i] == r.value && r.value in packages
                                    && forall j :: 0 <= j < i ==> candidates[j] !in packages
  {
    if candidates == [] then None
    else if candidates[0] in packages then Some(candidates[0])
    else
      var rest := FirstIn(candidates[1..], packages);
      assert rest.Some? ==>
          var i :| 0 <= i < |candidates[1..]| && candidates[1..][i] == rest.value && rest.value in packages
                   && forall j :: 0 <= j < i ==> candidates[1..][j] !in packages;
          candidates[i + 1] == rest.value && forall j :: 0 <= j < i + 1 ==> candidates[j] !in packages;
      rest
  }

  function Resolve(lock: Lock, path: string, name: string): Option<string> {
    FirstIn(CandidateList(path, name), lock.packages)
  }

  /** A directory that `path` lies in: `path` itself or what stands before one of its separators. */
  predicate Encloses(path: string, parent: string) {
    parent == path || (|parent| <= |path| && parent == path[..|parent|] && SeparatorAt(path, |parent|))
  }

  /** Two separators share a slash: some directory is itself named `node_modules`. */
  ghost predicate Overlaps(path: string) {
    exists k: nat :: SeparatorAt(path, k) && SeparatorAt(path, k + 13)
  }

  lemma {:induction false} AncestorsEnclose(path: string)
    ensures forall i :: 0 <= i < |Ancestors(path)| ==> Encloses(path, Ancestors(path)[i])
    ensures forall i, j :: 0 <= i < j < |Ancestors(path)| ==> |Ancestors(path)[j]| < |Ancestors(path)[i]|
    decreases |path|
  {
    var cut := LastSeparator(path);
    if cut.Some? {
      var shorter := path[..cut.value];
      AncestorsEnclose(shorter);
      forall i | 0 <= i < |Ancestors(path)|
        ensures Encloses(path, Ancestors(path)[i]) && (i > 0 ==> |Ancestors(path)[i]| < |path|)
      {
        if i > 0 {
          var parent := Ancestors(shorter)[i - 1];
          assert Ancestors(path)[i] == parent;
          if parent != shorter { assert shorter[|parent|..|parent| + 14] == path[|parent|..|parent| + 14]; }
        }
      }
    }
  }

  /** Separators left of the last one survive the cut, unless they share its slash. */
  lemma CutKeepsSeparators(path: string, k: nat, cut: nat)
    requires SeparatorAt(path, cut) && k < cut && SeparatorAt(path, k)
    ensures SeparatorAt(path[..cut], k) <==> k + 13 != cut
    ensures k + 13 <= cut
  {
    if k + 13 < cut {
      assert path[..cut][k..k + 14] == path[k..k + 14];
    } else {
      var d := cut - k;
      assert path[k..k + 14][d] == path[cut..cut + 14][0] == '/';
      assert d == 13;
    }
  }

  lemma ShorterOverlaps(path: string, cut: nat)
    requires cut <= |path| && Overlaps(path[..cut])
    ensures Overlaps(path)
  {
    var k: nat :| SeparatorAt(path[..cut], k) && SeparatorAt(path[..cut], k + 13);
    assert path[..cut][k..k + 14] == path[k..k + 14] && path[..cut][k + 13..k + 27] == path[k + 13..k + 27];
    assert SeparatorAt(path, k) && SeparatorAt(path, k + 13);
  }

  lemma {:induction false} NothingSkipped(path: string)
    requires !Overlaps(path)
    ensures forall k: nat :: SeparatorAt(path, k) ==> path[..k] in Ancestors(path)
    decreases |path|
  {
    var cut := LastSeparator(path);
    forall k: nat | SeparatorAt(path, k) ensures path[..k] in Ancestors(path) {
      var shorter := path[..cut.value];
      assert Ancestors(path) == [path] + Ancestors(shorter);
      assert Ancestors(shorter)[0] == shorter;
      if k != cut.value {
        CutKeepsSeparators(path, k, cut.value);
        if Overlaps(shorter) { ShorterOverlaps(path, cut.value); }
        NothingSkipped(shorter);
        assert shorter[..k] == path[..k];
      }
    }
  }

  lemma {:induction false} OverlapSkips(path: string, k: nat)
    requires SeparatorAt(path, k) && SeparatorAt(path, k + 13)
    ensures path[..k] !in Ancestors(path) || path[..k + 13] !in Ancestors(path)
    decreases |path|
  {
    var cut := LastSeparator(path).value;
    var shorter := path[..cut];
    if cut == k + 13 {
      CutKeepsSeparators(path, k, cut);
      NotAnAncestor(path, k, cut);
    } else {
      CutKeepsSeparators(path, k + 13, cut);
      CutKeepsSeparators(path, k, cut);
      if k + 26 == cut {
        NotAnAncestor(path, k + 13, cut);
      } else {
        AncestorsEnclose(shorter);
        OverlapSkips(shorter, k);
        assert shorter[..k] == path[..k] && shorter[..k + 13] == path[..k + 13];
      }
    }
  }

  /** Where the last cut destroys a separator, the directory before it is not searched. */
  lemma NotAnAncestor(path: string, k: nat, cut: nat)
    requires LastSeparator(path) == Some(cut) && k < cut <= |path| && !SeparatorAt(path[..cut], k)
    ensures path[..k] !in Ancestors(path)
  {
    var shorter := path[..cut];
    AncestorsEnclose(shorter);
    forall i | 0 <= i < |Ancestors(path)| ensures Ancestors(path)[i] != path[..k] {
      if i > 0 { assert Encloses(shorter, Ancestors(shorter)[i - 1]); }
    }
  }

  /** Every enclosing directory is searched exactly when no directory on the way is itself named `node_modules`. */
  lemma EveryAncestorSearched(path: string)
    ensures (forall parent :: Encloses(path, parent) ==> parent in Ancestors(path)) <==> !Overlaps(path)
  {
    if Overlaps(path) {
      var k: nat :| SeparatorAt(path, k) && SeparatorAt(path, k + 13);
      OverlapSkips(path, k);
      assert Encloses(path, path[..k]) && Encloses(path, path[..k + 13]);
    } else {
      NothingSkipped(path);
      forall parent | Encloses(path, parent) ensures parent in Ancestors(path) {
        if parent == path { assert Ancestors(path)[0] == path; }
      }
    }
  }

  /** On the path a/node_modules/node_modules/b the enclosing directory a is not searched. */
  lemma SkippedAncestor()
    ensures var path := "a" + SEPARATOR + "node_modules/b"; Encloses(path, "a") && "a" !in Ancestors(path)
  {
    var path, tail := "a" + SEPARATOR + "node_modules/b", "node_modules/b";
    assert |SEPARATOR| == 14 && SEPARATOR[13] == '/' && |tail| == 14 && |path| == 29;
    assert path[1..15] == SEPARATOR && path[..1] == "a";
    forall k | 0 <= k < 14 ensures path[14..28][k] == SEPARATOR[k] {
      assert k > 0 ==> path[14..28][k] == tail[k - 1];
    }
    assert path[14..28] == SEPARATOR;
    OuterSkipped(path, 1);
  }

  /** Of two separators that share a slash, the last ones of the path, only the inner is cut at. */
  lemma OuterSkipped(path: string, k: nat)
    requires SeparatorAt(path, k) && SeparatorAt(path, k + 13) && |path| <= k + 28
    ensures path[..k] !in Ancestors(path)
  {
    var cut := LastSeparator(path).value;
    if cut != k + 13 { CutKeepsSeparators(path, k + 13, cut); }
    CutKeepsSeparators(path, k, cut);
    NotAnAncestor(path, k, cut);
  }

  /** Where a name may be found: below an enclosing directory, or at the top. */
  ghost predicate Candidate(path: string, name: string, c: string) {
    c == AtTop(name) || exists parent :: Encloses(path, parent) && c == Under(parent, name)
  }

  lemma CandidatesDescend(path: string, name: string)
    ensures var list := CandidateList(path, name); forall i, j :: 0 <= i < j < |list| ==> |list[j]| < |list[i]|
  {
    AncestorsEnclose(path);
  }

  /** Where a name is looked for: below a searched ancestor, or at the top. */
  ghost predicate Searched(path: string, name: string, c: string) {
    c == AtTop(name) || exists parent :: parent in Ancestors(path) && c == Under(parent, name)
  }

  lemma CandidatesSearched(path: string, name: string)
    ensures forall c :: c in CandidateList(path, name) <==> Searched(path, name, c)
  {
    var parents, list := Ancestors(path), CandidateList(path, name);
    forall c | Searched(path, name, c) ensures c in list {
      if c == AtTop(name) {
        assert list[|list| - 1] == c;
      } else {
        var parent :| parent in parents && c == Under(parent, name);
        var i :| 0 <= i < |parents| && parents[i] == parent;
        assert list[i] == c;
      }
    }
  }

  lemma CandidatesEnclose(path: string, name: string)
    ensures forall c :: c in CandidateList(path, name) ==> Candidate(path, name, c)
    ensures !Overlaps(path) ==> forall c :: Candidate(path, name, c) ==> c in CandidateList(path, name)
  {
    CandidatesSearched(path, name);
    forall c ensures Searched(path, name, c) ==> Candidate(path, name, c) { SearchedEncloses(path, name, c); }
    if !Overlaps(path) {
      forall c ensures Candidate(path, name, c) ==> Searched(path, name, c) { EnclosingSearched(path, name, c); }
    }
  }

  lemma SearchedEncloses(path: string, name: string, c: string)
    ensures Searched(path, name, c) ==> Candidate(path, name, c)
  {
    AncestorsEnclose(path);
  }

  lemma EnclosingSearched(path: string, name: string, c: string)
    requires !Overlaps(path)
    ensures Candidate(path, name, c) ==> Searched(path, name, c)
  {
    EveryAncestorSearched(path);
  }

  /** `c` is the longest of the places in the lockfile. */
  ghost predicate Nearest(lock: Lock, places: string -> bool, c: string) {
    places(c) && c in lock.packages
    && forall other :: places(other) && other in lock.packages && other != c ==> |other| < |c|
  }

  /** On every path, resolution finds the longest searched place in the lockfile: the nearest one. Where no two
      separators share a slash those places are all the enclosing directories and the top. */
  lemma ResolvesToNearest(lock: Lock, path: string, name: string, c: string)
    ensures Resolve(lock, path, name) == Some(c) <==> Nearest(lock, place => Searched(path, name, place), c)
    ensures !Overlaps(path)
            ==> (Resolve(lock, path, name) == Some(c) <==> Nearest(lock, place => Candidate(path, name, place), c))
  {
    CandidatesSearched(path, name);
    CandidatesEnclose(path, name);
    CandidatesDescend(path, name);
    var list := CandidateList(path, name);
    FoundIsNearest(lock, list, place => Searched(path, name, place), c);
    if !Overlaps(path) { FoundIsNearest(lock, list, place => Candidate(path, name, place), c); }
  }

  lemma FoundIsNearest(lock: Lock, list: seq<string>, places: string -> bool, c: string)
    requires forall i, j :: 0 <= i < j < |list| ==> |list[j]| < |list[i]|
    requires forall place :: places(place) <==> place in list
    ensures FirstIn(list, lock.packages) == Some(c) <==> Nearest(lock, places, c)
  {
    FirstIsLongest(list, lock.packages);
  }

  lemma FirstIsLongest(list: seq<string>, packages: map<string, Package>)
    requires forall i, j :: 0 <= i < j < |list| ==> |list[j]| < |list[i]|
    ensures var found := FirstIn(list, packages);
            found.Some? ==> found.value in list && found.value in packages
                            && forall other :: other in list && other in packages && other != found.value
                                  ==> |other| < |found.value|
  {
    var found := FirstIn(list, packages);
    if found.Some? {
      var i :| 0 <= i < |list| && list[i] == found.value && found.value in packages
               && forall j :: 0 <= j < i ==> list[j] !in packages;
      forall other | other in list && other in packages && other != found.value ensures |other| < |found.value| {
        var j :| 0 <= j < |list| && list[j] == other;
      }
    }
  }

  // ---------------------------------------------------------------- reachable entries

  function Names(p: Package): set<string> { p.dependencies + p.peers + p.optional }

  /** Resolving `name` from `path` may be skipped silently. */
  predicate MayBeAbsent(p: Package, name: string) { name in p.optional || name in p.optionalPeers }

  predicate Follows(lock: Lock, path: string, name: string, target: string) {
    path in lock.packages && name in Names(lock.packages[path]) && Resolve(lock, path, name) == Some(target)
    && (name in lock.packages[path].optional ==> target in lock.installed)
  }

  ghost predicate Edge(lock: Lock, path: string, target: string) { exists name :: Follows(lock, path, name, target) }

  predicate Breaks(lock: Lock, path: string, name: string) {
    path in lock.packages && name in Names(lock.packages[path]) && Resolve(lock, path, name).None?
    && !MayBeAbsent(lock.packages[path], name)
  }

  ghost predicate Walk(lock: Lock, walk: seq<string>) {
    |walk| > 0 && walk[0] in ROOTS && forall i :: 0 < i < |walk| ==> Edge(lock, walk[i - 1], walk[i])
  }

  ghost predicate WalkTo(lock: Lock, path: string, walk: seq<string>) { Walk(lock, walk) && walk[|walk| - 1] == path }

  ghost predicate Reachable(lock: Lock, path: string) { exists walk :: WalkTo(lock, path, walk) }

  ghost predicate Closed(lock: Lock, paths: set<string>) {
    (forall root :: root in ROOTS ==> root in paths)
    && forall path, target :: path in paths && Edge(lock, path, target) ==> target in paths
  }

  lemma StepReaches(lock: Lock, path: string, target: string)
    requires Reachable(lock, path) && Edge(lock, path, target)
    ensures Reachable(lock, target)
  {
    var walk :| WalkTo(lock, path, walk);
    assert WalkTo(lock, target, walk + [target]);
  }

  lemma RootReaches(lock: Lock, root: string)
    requires root in ROOTS
    ensures Reachable(lock, root)
  {
    assert WalkTo(lock, root, [root]);
  }

  lemma {:induction false} WalkStaysInside(lock: Lock, paths: set<string>, walk: seq<string>)
    requires Closed(lock, paths) && Walk(lock, walk)
    ensures walk[|walk| - 1] in paths
    decreases |walk|
  {
    if |walk| > 1 {
      var shorter := walk[..|walk| - 1];
      WalkStaysInside(lock, paths, shorter);
      assert Edge(lock, shorter[|shorter| - 1], walk[|walk| - 1]);
    }
  }

  /** The reachable entries are the least closed set. */
  lemma ReachableIsLeast(lock: Lock, paths: set<string>)
    requires Closed(lock, paths)
    ensures forall path :: Reachable(lock, path) ==> path in paths
  {
    forall path | Reachable(lock, path) ensures path in paths {
      var walk :| WalkTo(lock, path, walk);
      WalkStaysInside(lock, paths, walk);
    }
  }

  // ---------------------------------------------------------------- the worklist

  /** The candidate list, cut by cut. */
  method Candidates(path: string, name: string) returns (candidates: seq<string>)
    ensures candidates == CandidateList(path, name)
  {
    var parent := path;
    candidates := [Under(parent, name)];
    AncestorsStart(parent, name);
    while LastSeparator(parent).Some?
      invariant candidates + Nested(Ancestors(parent)[1..], name) == Nested(Ancestors(path), name)
      decreases |parent|
    {
      OneAncestorUp(parent, name);
      parent := parent[..LastSeparator(parent).value];
      candidates := candidates + [Under(parent, name)];
    }
    LastAncestor(parent, name);
    candidates := candidates + [AtTop(name)];
  }

  lemma AncestorsStart(path: string, name: string)
    ensures [Under(path, name)] + Nested(Ancestors(path)[1..], name) == Nested(Ancestors(path), name)
  {
  }

  lemma OneAncestorUp(path: string, name: string)
    requires LastSeparator(path).Some?
    ensures var parent := path[..LastSeparator(path).value];
            Nested(Ancestors(path)[1..], name) == [Under(parent, name)] + Nested(Ancestors(parent)[1..], name)
  {
    var parent := path[..LastSeparator(path).value];
    assert Ancestors(path)[1..] == Ancestors(parent);
    AncestorsStart(parent, name);
  }

  lemma LastAncestor(path: string, name: string)
    requires LastSeparator(path).None?
    ensures Nested(Ancestors(path)[1..], name) == []
  {
  }

  /** The entries one package adds to the worklist. */
  ghost predicate Targets(lock: Lock, path: string, names: set<string>, targets: seq<string>) {
    forall target :: target in targets <==> exists name :: name in names && Follows(lock, path, name, target)
  }

  method Dependencies(lock: Lock, path: string) returns (targets: seq<string>, failure: Option<Failure>)
    requires path in lock.packages
    ensures failure.None? ==> (forall target :: target in targets <==> Edge(lock, path, target))
                              && forall name :: !Breaks(lock, path, name)
    ensures failure.Some? ==> failure.value.Unresolved? && Breaks(lock, path, failure.value.name)
  {
    var package := lock.packages[path];
    var left := Names(package);
    ghost var done: set<string> := {};
    targets := [];
    while left != {}
      invariant done + left == Names(package)
      invariant forall name :: name in done ==> !Breaks(lock, path, name)
      invariant Targets(lock, path, done, targets)
      decreases left
    {
      var name :| name in left;
      left := left - {name};
      var candidates := Candidates(path, name);
      var candidate := FirstIn(candidates, lock.packages);
      assert candidate == Resolve(lock, path, name);
      if candidate.None? {
        if !MayBeAbsent(package, name) { return [], Some(Unresolved(name)); }
        assert forall target :: !Follows(lock, path, name, target);
      } else if name in package.optional && candidate.value !in lock.installed {
        assert forall target :: !Follows(lock, path, name, target);
      } else {
        assert forall target :: Follows(lock, path, name, target) <==> target == candidate.value;
        targets := targets + [candidate.value];
      }
      done := done + {name};
    }
    assert done == Names(package);
    return targets, None;
  }

  /** What a run without failure promises. */
  ghost predicate Complete(lock: Lock) {
    (forall path :: path in lock.packages ==> !IsRemoved(path))
    && (forall root :: root in ROOTS ==> root in lock.packages)
    && forall path, name :: Reachable(lock, path) ==> !Breaks(lock, path, name)
  }

  ghost predicate Explains(lock: Lock, failure: Failure) {
    match failure
    case RemovedDependency => exists path :: path in lock.packages && IsRemoved(path)
    case MissingEntry(path) => path in ROOTS && path !in lock.packages
    case Unresolved(name) => exists path :: Reachable(lock, path) && Breaks(lock, path, name)
  }

  /** Everything already expanded is reachable and intact, and its targets are seen or waiting. */
  ghost predicate Progress(lock: Lock, seen: set<string>, pending: seq<string>) {
    (forall path :: path in seen || path in pending
        ==> Reachable(lock, path) && (path in ROOTS || path in lock.packages))
    && (forall root :: root in ROOTS ==> root in seen || root in pending)
    && (forall path :: path in seen ==> path in lock.packages)
    && (forall path, name :: path in seen ==> !Breaks(lock, path, name))
    && forall path, target :: path in seen && Edge(lock, path, target) ==> target in seen || target in pending
  }

  lemma Popped(lock: Lock, seen: set<string>, waiting: seq<string>, path: string)
    requires Progress(lock, seen, waiting + [path]) && path in seen
    ensures Progress(lock, seen, waiting)
  {
    assert forall any :: any in waiting ==> any in waiting + [path];
  }

  lemma Expanded(lock: Lock, seen: set<string>, waiting: seq<string>, path: string, targets: seq<string>)
    requires Progress(lock, seen, waiting + [path]) && path in lock.packages
    requires forall target :: target in targets <==> Edge(lock, path, target)
    requires forall name :: !Breaks(lock, path, name)
    ensures Progress(lock, seen + {path}, waiting + targets)
  {
    assert forall any :: any in waiting + [path] <==> any == path || any in waiting;
    forall target | target in targets ensures Reachable(lock, target) && target in lock.packages {
      StepReaches(lock, path, target);
      var name :| Follows(lock, path, name, target);
    }
  }

  lemma Done(lock: Lock, seen: set<string>)
    requires Progress(lock, seen, [])
    requires forall path :: path in lock.packages ==> !IsRemoved(path)
    ensures Complete(lock) && Closed(lock, seen) && forall path :: path in seen <==> Reachable(lock, path)
  {
    ReachableIsLeast(lock, seen);
  }

  lemma LeastClosed(lock: Lock, seen: set<string>)
    requires forall path :: path in seen ==> Reachable(lock, path)
    ensures forall closed :: Closed(lock, closed) ==> seen <= closed
  {
    forall closed | Closed(lock, closed) ensures seen <= closed { ReachableIsLeast(lock, closed); }
  }

  /** `dependency_paths`: succeeds exactly on a complete lockfile, with exactly the reachable entries. */
  method Closure(lock: Lock) returns (seen: set<string>, failure: Option<Failure>)
    ensures failure.None? <==> Complete(lock)
    ensures failure.None? ==> (forall path :: path in seen <==> Reachable(lock, path)) && Closed(lock, seen)
    ensures failure.None? ==> forall closed :: Closed(lock, closed) ==> seen <= closed
    ensures failure.Some? ==> Explains(lock, failure.value)
  {
    if exists path :: path in lock.packages && IsRemoved(path) { return {}, Some(RemovedDependency); }
    var pending := ROOTS;
    seen := {};
    forall root | root in ROOTS ensures Reachable(lock, root) { RootReaches(lock, root); }
    while pending != []
      invariant Progress(lock, seen, pending)
      decreases lock.packages.Keys - seen, |pending|
    {
      var path := pending[|pending| - 1];
      ghost var waiting := pending[..|pending| - 1];
      assert pending == waiting + [path];
      if path in seen {
        Popped(lock, seen, waiting, path);
        pending := pending[..|pending| - 1];
      } else {
        if path !in lock.packages {
          assert Explains(lock, MissingEntry(path));
          return {}, Some(MissingEntry(path));
        }
        var targets;
        targets, failure := Dependencies(lock, path);
        if failure.Some? {
          assert Explains(lock, failure.value);
          return;
        }
        Expanded(lock, seen, waiting, path, targets);
        seen := seen + {path};
        pending := pending[..|pending| - 1] + targets;
      }
    }
    Done(lock, seen);
    LeastClosed(lock, seen);
    return seen, None;
  }

  /** Of a complete lockfile everything a shipped package needs is shipped: what it depends on, and peers that are not
      marked optional, in any case; optional names and optional peers where they are found, the former if installed. */
  lemma RequiredIsShipped(lock: Lock, path: string, name: string)
    requires Complete(lock) && Reachable(lock, path) && path in lock.packages
    ensures var (package, found) := (lock.packages[path], Resolve(lock, path, name));
            (name in package.dependencies + package.peers && name !in package.optional && name !in package.optionalPeers
             ==> found.Some? && Reachable(lock, found.value))
            && (name in package.dependencies + package.peers && name !in package.optional && found.Some?
                ==> Reachable(lock, found.value))
            && (name in package.optional && found.Some? && found.value in lock.installed
                ==> Reachable(lock, found.value))
  {
    var found := Resolve(lock, path, name);
    assert !Breaks(lock, path, name);
    if found.Some? && Follows(lock, path, name, found.value) { StepReaches(lock, path, found.value); }
  }

  /** And nothing else is shipped: beside the roots, only what some shipped package names and resolves to. */
  lemma ShippedIsRequired(lock: Lock, target: string)
    requires Reachable(lock, target)
    ensures target in {"node_modules/ajv", "node_modules/ajv-formats",
                       "node_modules/@deepseek-ai/dsh-sandbox-windows-acl"}
            || exists path, name ::
                 Reachable(lock, path) && path in lock.packages && Resolve(lock, path, name) == Some(target)
                 && name in lock.packages[path].dependencies + lock.packages[path].peers + lock.packages[path].optional
                 && (name in lock.packages[path].optional ==> target in lock.installed)
  {
    var walk :| WalkTo(lock, target, walk);
    if |walk| > 1 {
      var shorter := walk[..|walk| - 1];
      assert WalkTo(lock, shorter[|shorter| - 1], shorter);
      assert Edge(lock, shorter[|shorter| - 1], target);
      var name :| Follows(lock, shorter[|shorter| - 1], name, target);
    }
  }

  /** A lockfile is complete exactly when it names neither removed package, has the three roots, and every name a
      shipped package needs resolves: only optional ones and optional peers may be absent. */
  lemma CompleteExactlyWhen(lock: Lock)
    ensures Complete(lock)
            <==> (forall path, stem :: path in lock.packages ==>
                    path != stem + "/node-forge" && path != stem + "/@anthropic-ai/sandbox-runtime")
                 && "node_modules/ajv" in lock.packages && "node_modules/ajv-formats" in lock.packages
                 && "node_modules/@deepseek-ai/dsh-sandbox-windows-acl" in lock.packages
                 && forall path, name ::
                      Reachable(lock, path) && path in lock.packages
                      && name in lock.packages[path].dependencies + lock.packages[path].peers
                      && name !in lock.packages[path].optional && name !in lock.packages[path].optionalPeers
                      ==> Resolve(lock, path, name).Some?
  {
    assert ROOTS[0] == "node_modules/ajv" && ROOTS[1] == "node_modules/ajv-formats";
    assert ROOTS[2] == "node_modules/@deepseek-ai/dsh-sandbox-windows-acl";
    forall path ensures IsRemoved(path) <==> exists stem :: path == stem + "/node-forge"
                                                            || path == stem + "/@anthropic-ai/sandbox-runtime" {
      RemovedExactlyWhen(path);
    }
    if Complete(lock) {
      forall path, name | Reachable(lock, path) && path in lock.packages
                          && name in lock.packages[path].dependencies + lock.packages[path].peers
                          && name !in lock.packages[path].optional && name !in lock.packages[path].optionalPeers
        ensures Resolve(lock, path, name).Some?
      {
        assert !Breaks(lock, path, name);
      }
    }
  }

  lemma RemovedExactlyWhen(path: string)
    ensures IsRemoved(path)
            <==> exists stem :: path == stem + "/node-forge" || path == stem + "/@anthropic-ai/sandbox-runtime"
  {
    assert REMOVED[0] == "/node-forge" && REMOVED[1] == "/@anthropic-ai/sandbox-runtime";
    forall i | 0 <= i < |REMOVED| && EndsWith(path, REMOVED[i])
      ensures path == path[..|path| - |REMOVED[i]|] + REMOVED[i]
    {
    }
  }
}
