/**
A candidate solution as the difference of two workspace snapshots, and its replay on a fresh baseline.
*/
module Candidate {
  import opened Options
  import opened Maps

  datatype File = File(content: Bytes, executable: bool)

  datatype Limits = Limits(entries: nat, bytes: nat)

  /** A captured workspace: files by path, and the directories. */
  datatype Snapshot = Snapshot(files: map<string, File>, directories: set<string>, limits: Limits)

  /** A text field that should be base64. */
  datatype Text = Base64(raw: Bytes) | Malformed(length: nat)

  datatype Record = Record(content: Text, executable: bool)

  /** A workspace as transferred. */
  datatype Tree = Tree(files: map<string, Record>, directories: set<string>)

  datatype Change = Change(beforeHash: Option<nat>, afterHash: Option<nat>, content: Option<Text>, executable: bool)

  datatype Artifact = Artifact(
    baseCommit: string, scope: string, files: map<string, Change>, added: set<string>, removed: set<string>,
    invalid: set<string>)

  datatype Failure =
    | WrongBaseline
    | OldHashDiffers(name: string)
    | NothingToDelete(name: string)
    | Undecodable
    | NewHashDiffers(name: string)

  datatype Outcome = Replayed(tree: Tree) | Refused(failure: Failure)

  /** The path rules, the portable case folding and the content hash. */
  datatype Rules = Rules(valid: string -> bool, fold: string -> string, hash: Bytes -> nat)

  // ---------------------------------------------------------------- the transferred tree

  function EncodedFile(f: File): Record { Record(Base64(f.content), f.executable) }

  function EncodedFiles(files: map<string, File>): (r: map<string, Record>)
    ensures forall name :: Lookup(r, name) == RecordOf(Lookup(files, name))
  {
    map name | name in files :: EncodedFile(files[name])
  }

  function RecordOf(f: Option<File>): Option<Record> { if f.Some? then Some(EncodedFile(f.value)) else None }

  function Encode(s: Snapshot): Tree { Tree(EncodedFiles(s.files), s.directories) }

  function EncodedLength(t: Text): nat {
    match t case Base64(raw) => 4 * ((|raw| + 2) / 3) case Malformed(length) => length
  }

  function Size(t: Text): nat { match t case Base64(raw) => |raw| case Malformed(_) => 0 }

  ghost function TotalBytes(files: map<string, Record>): nat {
    if files == map[] then 0 else var name :| name in files; Size(files[name].content) + TotalBytes(files - {name})
  }

  lemma {:induction false} TotalPicks(files: map<string, Record>, name: string)
    requires name in files
    ensures TotalBytes(files) == Size(files[name].content) + TotalBytes(files - {name})
    decreases |files|
  {
    var first :| first in files && TotalBytes(files) == Size(files[first].content) + TotalBytes(files - {first});
    if first != name {
      TotalPicks(files - {first}, name);
      assert files - {first} - {name} == files - {name} - {first};
      TotalPicks(files - {name}, first);
    }
  }

  predicate NameOk(tree: Tree, rules: Rules, name: string) {
    rules.valid(name) && forall k :: 0 <= k < |name| && name[k] == '/' ==> name[..k] in tree.directories
  }

  /** No two entries, files or directories, share a folded name. */
  predicate NamesDistinct(tree: Tree, fold: string -> string) {
    (forall a, b :: a in tree.directories && b in tree.directories && a != b ==> fold(a) != fold(b))
    && (forall a, b :: a in tree.files && b in tree.files && a != b ==> fold(a) != fold(b))
    && forall a, b :: a in tree.directories && b in tree.files ==> fold(a) != fold(b)
  }

  ghost predicate Decodable(tree: Tree, limits: Limits, rules: Rules) {
    |tree.files| + |tree.directories| <= limits.entries
    && NamesDistinct(tree, rules.fold)
    && (forall name :: name in tree.directories || name in tree.files ==> NameOk(tree, rules, name))
    && (forall name :: name in tree.files ==> tree.files[name].content.Base64?)
    && TotalBytes(tree.files) <= limits.bytes
  }

  ghost predicate FoldsDistinct(list: seq<string>, fold: string -> string) {
    forall i, j :: 0 <= i < j < |list| ==> fold(list[i]) != fold(list[j])
  }

  /** The list names a tree's directories, then its files. */
  ghost predicate Lists(tree: Tree, directories: seq<string>, files: seq<string>) {
    (forall name :: name in directories <==> name in tree.directories)
      && (forall name :: name in files <==> name in tree.files)
    && (forall i, j :: 0 <= i < j < |directories| ==> directories[i] != directories[j])
    && forall i, j :: 0 <= i < j < |files| ==> files[i] != files[j]
  }

  lemma DistinctPair(list: seq<string>, fold: string -> string, a: string, b: string)
    requires FoldsDistinct(list, fold) && a in list && b in list && a != b
    ensures fold(a) != fold(b)
  {
    var i :| 0 <= i < |list| && list[i] == a;
    var j :| 0 <= j < |list| && list[j] == b;
  }

  lemma ListedFoldsDistinct(tree: Tree, directories: seq<string>, files: seq<string>, fold: string -> string)
    requires Lists(tree, directories, files) && FoldsDistinct(directories + files, fold)
    ensures NamesDistinct(tree, fold)
  {
    var list := directories + files;
    forall a, b | a in list && b in list && a != b ensures fold(a) != fold(b) { DistinctPair(list, fold, a, b); }
    forall a, b | a in directories && b in files ensures fold(a) != fold(b) {
      var i :| 0 <= i < |directories| && directories[i] == a;
      var j :| 0 <= j < |files| && files[j] == b;
      assert list[i] == a && list[|directories| + j] == b;
    }
  }

  lemma NamesDistinctListed(tree: Tree, directories: seq<string>, files: seq<string>, fold: string -> string)
    requires Lists(tree, directories, files) && NamesDistinct(tree, fold)
    ensures FoldsDistinct(directories + files, fold)
  {
    var list, d := directories + files, |directories|;
    forall i, j | 0 <= i < j < |list| ensures fold(list[i]) != fold(list[j]) {
      if j < d {
        assert directories[i] in tree.directories && directories[j] in tree.directories;
      } else if i < d {
        assert directories[i] in tree.directories && files[j - d] in tree.files;
      } else {
        assert files[i - d] in tree.files && files[j - d] in tree.files && files[i - d] != files[j - d];
      }
    }
  }

  /** The first pass over the names: valid, and no two with one folding. */
  method CheckNames(list: seq<string>, rules: Rules) returns (ok: bool)
    ensures ok <==> (forall name :: name in list ==> rules.valid(name)) && FoldsDistinct(list, rules.fold)
  {
    var names: set<string> := {};
    for i := 0 to |list|
      invariant forall name :: name in list[..i] ==> rules.valid(name)
      invariant FoldsDistinct(list[..i], rules.fold)
      invariant forall folded :: folded in names <==> exists j :: 0 <= j < i && rules.fold(list[j]) == folded
    {
      if !rules.valid(list[i]) || rules.fold(list[i]) in names {
        return false;
      }
      names := names + {rules.fold(list[i])};
      assert list[..i + 1] == list[..i] + [list[i]];
    }
    assert list[..|list|] == list;
    return true;
  }

  /** The third pass: every file decodes and the bytes stay within the quota. */
  method DecodeFiles(files: map<string, Record>, limit: nat) returns (decoded: Option<map<string, File>>)
    ensures decoded.Some?
            <==> (forall name :: name in files ==> files[name].content.Base64?) && TotalBytes(files) <= limit
    ensures decoded.Some? ==> decoded.value.Keys == files.Keys
                              && forall name :: name in files ==> EncodedFile(decoded.value[name]) == files[name]
  {
    var left, total, done := files, 0, map[];
    while left != map[]
      invariant forall name :: name in left ==> name in files && left[name] == files[name]
      invariant forall name :: name in files ==> name in left || (files[name].content.Base64? && name in done)
      invariant forall name :: name in done ==> name in files && EncodedFile(done[name]) == files[name]
      invariant 0 <= total <= limit && total + TotalBytes(left) == TotalBytes(files)
      decreases |left|
    {
      var name :| name in left;
      var record := left[name];
      TotalPicks(left, name);
      assert record == files[name];
      assert record.content.Base64? && |record.content.raw| <= limit
             ==> EncodedLength(record.content) <= 4 * ((limit + 2) / 3);
      if EncodedLength(record.content) > 4 * ((limit + 2) / 3) || record.content.Malformed? {
        return None;
      }
      total := total + |record.content.raw|;
      if total > limit { return None; }
      done := done[name := File(record.content.raw, record.executable)];
      left := left - {name};
    }
    return Some(done);
  }

  /** `decode_tree`. */
  method DecodeTree(tree: Tree, limits: Limits, rules: Rules) returns (decoded: Option<map<string, File>>)
    ensures decoded.Some? <==> Decodable(tree, limits, rules)
    ensures decoded.Some? ==> decoded.value.Keys == tree.files.Keys
                              && forall name :: name in tree.files ==>
                                   EncodedFile(decoded.value[name]) == tree.files[name]
  {
    if |tree.files| + |tree.directories| > limits.entries { return None; }
    var directories := Listing(tree.directories);
    var files := Listing(tree.files.Keys);
    var list := directories + files;
    if FoldsDistinct(list, rules.fold) { ListedFoldsDistinct(tree, directories, files, rules.fold); }
    if NamesDistinct(tree, rules.fold) { NamesDistinctListed(tree, directories, files, rules.fold); }
    var ok := CheckNames(list, rules);
    if !ok { return None; }
    ok := CheckParents(list, tree, rules);
    if !ok { return None; }
    decoded := DecodeFiles(tree.files, limits.bytes);
  }

  /** The second pass: every directory on the way to a name is listed. */
  method CheckParents(list: seq<string>, tree: Tree, rules: Rules) returns (ok: bool)
    requires forall name :: name in list ==> rules.valid(name)
    ensures ok <==> forall name :: name in list ==> NameOk(tree, rules, name)
  {
    for i := 0 to |list|
      invariant forall j :: 0 <= j < i ==> NameOk(tree, rules, list[j])
    {
      if exists k :: 0 <= k < |list[i]| && list[i][k] == '/' && list[i][..k] !in tree.directories {
        assert !NameOk(tree, rules, list[i]);
        return false;
      }
    }
    return true;
  }

  // ---------------------------------------------------------------- the difference

  predicate Allowed(scope: string, name: string) {
    name == scope || (|scope| < |name| && name[..|scope|] == scope && name[|scope|] == '/')
  }

  /** A name is in scope exactly when it is the scope itself or lies below it. */
  lemma AllowedExactlyWhen(scope: string, name: string)
    ensures Allowed(scope, name) <==> name == scope || exists rest :: name == scope + "/" + rest
  {
    if Allowed(scope, name) && name != scope { assert name == scope + "/" + name[|scope| + 1..]; }
  }

  function HashOf(f: Option<File>, hash: Bytes -> nat): Option<nat> { if f.Some? then Some(hash(f.value.content))
                                                                     else None }

  predicate Changed(before: Snapshot, after: Snapshot,
                    name: string) { Lookup(before.files, name) != Lookup(after.files, name) }

  function ChangedFiles(before: Snapshot, after: Snapshot): (r: set<string>)
    ensures forall name :: name in r <==> Changed(before, after, name)
  {
    set name | name in before.files.Keys + after.files.Keys && Changed(before, after, name)
  }

  function AllowedOnly(names: set<string>, scope: string): set<string> { set name | name in names
      && Allowed(scope, name) }

  function OutOfScope(before: Snapshot, after: Snapshot, scope: string): set<string> {
    set name | name in ChangedFiles(before, after) + (before.directories - after.directories)
      + (after.directories - before.directories)
               && !Allowed(scope, name)
  }

  function ChangeOf(was: Option<File>, now: Option<File>, hash: Bytes -> nat): Change {
    Change(HashOf(was, hash), HashOf(now, hash), if now.Some? then Some(Base64(now.value.content)) else None,
           now.Some? && now.value.executable)
  }

  function DeltaAt(before: Snapshot, after: Snapshot, scope: string, hash: Bytes -> nat, name: string): Option<Change> {
    if Changed(before, after, name) && Allowed(scope, name)
    then Some(ChangeOf(Lookup(before.files, name), Lookup(after.files, name), hash)) else None
  }

  function DeltaFiles(before: Snapshot, after: Snapshot, scope: string, hash: Bytes -> nat): (r: map<string, Change>)
    ensures forall name :: Lookup(r, name) == DeltaAt(before, after, scope, hash, name)
  {
    Collect(ChangedFiles(before, after), name => DeltaAt(before, after, scope, hash, name))
  }

  function Delta(before: Snapshot, after: Snapshot, baseCommit: string, scope: string, hash: Bytes -> nat): Artifact {
    Artifact(baseCommit, scope, DeltaFiles(before, after, scope, hash),
             AllowedOnly(after.directories - before.directories, scope),
             AllowedOnly(before.directories - after.directories, scope),
             OutOfScope(before, after, scope))
  }

  /** `candidate_delta`. */
  method CandidateDelta(before: Snapshot, after: Snapshot, baseCommit: string, scope: string, hash: Bytes -> nat)
    returns (artifact: Artifact)
    ensures artifact == Delta(before, after, baseCommit, scope, hash)
  {
    var changed := Listing(ChangedFiles(before, after));
    var files := map[];
    for i := 0 to |changed|
      invariant forall name :: Lookup(files, name) == if name in changed[..i]
                then DeltaAt(before, after, scope, hash, name) else None
    {
      var name := changed[i];
      assert Changed(before, after, name);
      if Allowed(scope, name) {
        files := files[name := ChangeOf(Lookup(before.files, name), Lookup(after.files, name), hash)];
      }
      assert changed[..i + 1] == changed[..i] + [name];
    }
    assert changed[..|changed|] == changed;
    SameMap(files, DeltaFiles(before, after, scope, hash));
    artifact := Artifact(baseCommit, scope, files, AllowedOnly(after.directories - before.directories, scope),
                         AllowedOnly(before.directories - after.directories, scope), OutOfScope(before, after, scope));
  }

  // ---------------------------------------------------------------- the replay

  /** One file of the artifact fits the baseline. */
  predicate Fits(baseline: Snapshot, change: Change, name: string, hash: Bytes -> nat) {
    HashOf(Lookup(baseline.files, name), hash) == change.beforeHash && (change.content.None? ==> name in baseline.files)
  }

  ghost predicate AllFit(baseline: Snapshot, artifact: Artifact, hash: Bytes -> nat) {
    forall name :: name in artifact.files ==> Fits(baseline, artifact.files[name], name, hash)
  }

  /** One entry after the edit: what the change says, else the baseline's. */
  function PatchedAt(was: Option<File>, change: Option<Change>): Option<Record> {
    if change.None? then RecordOf(was)
    else if change.value.content.None? then None
    else Some(Record(change.value.content.value, change.value.executable))
  }

  /** The baseline with every change of the artifact written over it. */
  function PatchedFiles(baseline: Snapshot, artifact: Artifact): (r: map<string, Record>)
    ensures forall name :: Lookup(r, name) == PatchedAt(Lookup(baseline.files, name), Lookup(artifact.files, name))
  {
    Collect(baseline.files.Keys + artifact.files.Keys,
            name => PatchedAt(Lookup(baseline.files, name), Lookup(artifact.files, name)))
  }

  function Patched(baseline: Snapshot, artifact: Artifact): Tree {
    Tree(PatchedFiles(baseline, artifact), (baseline.directories + artifact.added) - artifact.removed)
  }

  /** The replaced content has the announced hash. */
  predicate Announced(change: Change, hash: Bytes -> nat) {
    match change.content
    case None => change.afterHash == None
    case Some(Base64(raw)) => change.afterHash == Some(hash(raw))
    case Some(Malformed(_)) => false
  }

  ghost predicate AllAnnounced(artifact: Artifact, hash: Bytes -> nat) {
    forall name :: name in artifact.files ==> Announced(artifact.files[name], hash)
  }

  ghost predicate Accepted(baseline: Snapshot, artifact: Artifact, baseCommit: string, rules: Rules) {
    artifact.baseCommit == baseCommit && artifact.invalid == {} && AllFit(baseline, artifact, rules.hash)
    && Decodable(Patched(baseline, artifact), baseline.limits, rules) && AllAnnounced(artifact, rules.hash)
  }

  /** The edits of the names in `done` are made. */
  ghost predicate PatchedUpTo(files: map<string, Record>, baseline: Snapshot, artifact: Artifact, done: seq<string>) {
    forall name :: Lookup(files, name) == PatchedAt(Lookup(baseline.files, name), if name in done
                                                    then Lookup(artifact.files, name) else None)
  }

  lemma OneMorePatched(files: map<string, Record>, later: map<string, Record>, baseline: Snapshot, artifact: Artifact,
                       done: seq<string>, name: string)
    requires PatchedUpTo(files, baseline, artifact, done)
    requires Lookup(later, name) == PatchedAt(Lookup(baseline.files, name), Lookup(artifact.files, name))
    requires forall other :: other != name ==> Lookup(later, other) == Lookup(files, other)
    ensures PatchedUpTo(later, baseline, artifact, done + [name])
  {
  }

  /** One edit. */
  method ApplyFile(files: map<string, Record>, baseline: Snapshot, name: string, change: Change, hash: Bytes -> nat)
    returns (later: map<string, Record>, failure: Option<Failure>)
    requires Lookup(files, name) == RecordOf(Lookup(baseline.files, name))
    ensures failure.None? <==> Fits(baseline, change, name, hash)
    ensures failure.Some? ==> failure == Some(OldHashDiffers(name)) || failure == Some(NothingToDelete(name))
    ensures failure.None? ==> Lookup(later, name) == PatchedAt(Lookup(baseline.files, name), Some(change))
                              && forall other :: other != name ==> Lookup(later, other) == Lookup(files, other)
  {
    if HashOf(Lookup(baseline.files, name), hash) != change.beforeHash { return files, Some(OldHashDiffers(name)); }
    if change.content.Some? { return files[name := Record(change.content.value, change.executable)], None; }
    if name !in files { return files, Some(NothingToDelete(name)); }
    return files - {name}, None;
  }

  /** The edit loop: deletes and overwrites entries of the encoded baseline in place. */
  method ApplyFiles(baseline: Snapshot, artifact: Artifact, hash: Bytes -> nat)
    returns (files: map<string, Record>, failure: Option<Failure>)
    ensures failure.None? <==> AllFit(baseline, artifact, hash)
    ensures failure.None? ==> files == PatchedFiles(baseline, artifact)
    ensures failure.Some? ==> (failure.value.OldHashDiffers? || failure.value.NothingToDelete?)
                              && failure.value.name in artifact.files
                              && !Fits(baseline, artifact.files[failure.value.name], failure.value.name, hash)
  {
    var names := Listing(artifact.files.Keys);
    files := EncodedFiles(baseline.files);
    for i := 0 to |names|
      invariant forall j :: 0 <= j < i ==> Fits(baseline, artifact.files[names[j]], names[j], hash)
      invariant PatchedUpTo(files, baseline, artifact, names[..i])
    {
      assert names[i] !in names[..i] && Lookup(files, names[i]) == RecordOf(Lookup(baseline.files, names[i]));
      var later;
      later, failure := ApplyFile(files, baseline, names[i], artifact.files[names[i]], hash);
      if failure.Some? { return; }
      OneMorePatched(files, later, baseline, artifact, names[..i], names[i]);
      assert names[..i + 1] == names[..i] + [names[i]];
      files := later;
    }
    assert names[..|names|] == names;
    SameMap(files, PatchedFiles(baseline, artifact));
    return files, None;
  }

  /** The hash check on the decoded result. */
  method CheckHashes(artifact: Artifact, files: map<string, Record>, decoded: map<string, File>, hash: Bytes -> nat)
    returns (failure: Option<Failure>)
    requires decoded.Keys == files.Keys && forall name :: name in files ==> EncodedFile(decoded[name]) == files[name]
    requires forall name :: name in artifact.files
                ==> Lookup(files, name) == PatchedAt(None, Lookup(artifact.files, name))
    ensures failure.None? <==> AllAnnounced(artifact, hash)
    ensures failure.Some? ==> failure.value.NewHashDiffers? && failure.value.name in artifact.files
                              && !Announced(artifact.files[failure.value.name], hash)
  {
    var names := Listing(artifact.files.Keys);
    for i := 0 to |names|
      invariant forall j :: 0 <= j < i ==> Announced(artifact.files[names[j]], hash)
    {
      assert Lookup(files, names[i]) == RecordOf(Lookup(decoded, names[i]));
      if HashOf(Lookup(decoded, names[i]), hash) != artifact.files[names[i]].afterHash {
        return Some(NewHashDiffers(names[i]));
      }
    }
    return None;
  }

  /** `reconstruct_candidate`. */
  method Reconstruct(baseline: Snapshot, artifact: Artifact, baseCommit: string, rules: Rules)
    returns (outcome: Outcome)
    ensures outcome.Replayed? <==> Accepted(baseline, artifact, baseCommit, rules)
    ensures outcome.Replayed? ==> outcome.tree == Patched(baseline, artifact)
  {
    if artifact.baseCommit != baseCommit || artifact.invalid != {} { return Refused(WrongBaseline); }
    var files, failure := ApplyFiles(baseline, artifact, rules.hash);
    if failure.Some? { return Refused(failure.value); }
    var tree := Tree(files, (baseline.directories + artifact.added) - artifact.removed);
    var decoded := DecodeTree(tree, baseline.limits, rules);
    if decoded.None? { return Refused(Undecodable); }
    failure := CheckHashes(artifact, files, decoded.value, rules.hash);
    if failure.Some? { return Refused(failure.value); }
    return Replayed(tree);
  }

  // ---------------------------------------------------------------- what a replay means

  ghost predicate Injective(hash: Bytes -> nat) { forall a, b :: hash(a) == hash(b) ==> a == b }

  function ContentOf(f: Option<File>): Option<Bytes> { if f.Some? then Some(f.value.content) else None }

  predicate AgreesAt(baseline: Snapshot, before: Snapshot, name: string) {
    ContentOf(Lookup(baseline.files, name)) == ContentOf(Lookup(before.files, name))
  }

  /** On every file the change touches, the baseline holds what the change started from; its executable bit is free. */
  ghost predicate AgreesOnTouched(baseline: Snapshot, before: Snapshot, after: Snapshot) {
    forall name :: Changed(before, after, name) ==> AgreesAt(baseline, before, name)
  }

  /** The three-way result: the after side on every changed file and directory, the baseline elsewhere. */
  function MergedAt(baseline: Snapshot, before: Snapshot, after: Snapshot, name: string): Option<File> {
    if Changed(before, after, name) then Lookup(after.files, name) else Lookup(baseline.files, name)
  }

  function MergedFiles(baseline: Snapshot, before: Snapshot, after: Snapshot): (r: map<string, File>)
    ensures forall name :: Lookup(r, name) == MergedAt(baseline, before, after, name)
  {
    Collect(baseline.files.Keys + after.files.Keys, name => MergedAt(baseline, before, after, name))
  }

  function Merged(baseline: Snapshot, before: Snapshot, after: Snapshot): Snapshot {
    Snapshot(MergedFiles(baseline, before, after),
             baseline.directories + (after.directories - before.directories) - (before.directories - after.directories),
             baseline.limits)
  }

  lemma DeltaFits(baseline: Snapshot, before: Snapshot, after: Snapshot, artifact: Artifact, hash: Bytes -> nat)
    requires Injective(hash) && OutOfScope(before, after, artifact.scope) == {}
    requires artifact.files == DeltaFiles(before, after, artifact.scope, hash)
    ensures AllFit(baseline, artifact, hash) <==> AgreesOnTouched(baseline, before, after)
    ensures AllAnnounced(artifact, hash)
  {
    forall name
      ensures Lookup(artifact.files, name) == DeltaAt(before, after, artifact.scope, hash, name)
      ensures name in artifact.files <==> Changed(before, after, name)
      ensures name in artifact.files
              ==> (Fits(baseline, artifact.files[name], name, hash) <==> AgreesAt(baseline, before, name))
                  && Announced(artifact.files[name], hash)
    {
      assert name !in OutOfScope(before, after, artifact.scope);
    }
  }

  lemma DeltaPatches(baseline: Snapshot, before: Snapshot, after: Snapshot, artifact: Artifact, hash: Bytes -> nat)
    requires OutOfScope(before, after, artifact.scope) == {}
    requires artifact.files == DeltaFiles(before, after, artifact.scope, hash)
    ensures PatchedFiles(baseline, artifact) == Encode(Merged(baseline, before, after)).files
  {
    var merged := MergedFiles(baseline, before, after);
    var encoded := EncodedFiles(merged);
    forall name ensures Lookup(PatchedFiles(baseline, artifact), name) == Lookup(encoded, name) {
      assert name !in OutOfScope(before, after, artifact.scope);
      assert Lookup(artifact.files, name) == DeltaAt(before, after, artifact.scope, hash, name);
      assert Lookup(merged, name) == MergedAt(baseline, before, after, name);
      PatchedIsMerged(baseline, before, after, artifact.scope, hash, name);
    }
    SameMap(PatchedFiles(baseline, artifact), encoded);
  }

  lemma PatchedIsMerged(baseline: Snapshot, before: Snapshot, after: Snapshot, scope: string, hash: Bytes -> nat,
                        name: string)
    requires Changed(before, after, name) ==> Allowed(scope, name)
    ensures PatchedAt(Lookup(baseline.files, name), DeltaAt(before, after, scope, hash, name))
            == RecordOf(MergedAt(baseline, before, after, name))
  {
  }

  lemma AllInScope(before: Snapshot, after: Snapshot, scope: string)
    requires OutOfScope(before, after, scope) == {}
    ensures AllowedOnly(after.directories - before.directories, scope) == after.directories - before.directories
    ensures AllowedOnly(before.directories - after.directories, scope) == before.directories - after.directories
  {
    forall name | name in (before.directories - after.directories)
           + (after.directories - before.directories) ensures Allowed(scope, name) {
      assert name !in OutOfScope(before, after, scope);
    }
  }

  /** On any baseline: accepted exactly when the contents agree on every touched file, and the result is the three-way
      merge. */
  lemma ReplayMerges(baseline: Snapshot, before: Snapshot, after: Snapshot, baseCommit: string, scope: string,
                     rules: Rules)
    requires Injective(rules.hash)
    ensures Accepted(baseline, Delta(before, after, baseCommit, scope, rules.hash), baseCommit, rules)
            <==> OutOfScope(before, after, scope) == {} && AgreesOnTouched(baseline, before, after)
                 && Decodable(Encode(Merged(baseline, before, after)), baseline.limits, rules)
    ensures OutOfScope(before, after, scope) == {}
            ==> Patched(baseline, Delta(before, after, baseCommit, scope, rules.hash))
                == Encode(Merged(baseline, before, after))
  {
    var artifact := Delta(before, after, baseCommit, scope, rules.hash);
    if OutOfScope(before, after, scope) == {} {
      DeltaFits(baseline, before, after, artifact, rules.hash);
      DeltaPatches(baseline, before, after, artifact, rules.hash);
      AllInScope(before, after, scope);
    }
  }

  /** Merging into the snapshot the change started from gives the after side. */
  lemma MergeIntoBefore(before: Snapshot, after: Snapshot)
    ensures Encode(Merged(before, before, after)) == Encode(after)
  {
    var merged := Merged(before, before, after);
    forall name ensures Lookup(merged.files, name) == Lookup(after.files, name) {
      assert Lookup(merged.files, name) == MergedAt(before, before, after, name);
    }
    SameMap(merged.files, after.files);
    assert merged.directories == after.directories;
  }

  /** Replaying on the snapshot the candidate started from undoes the difference exactly. */
  lemma ReplayUndoesDelta(before: Snapshot, after: Snapshot, baseCommit: string, scope: string, rules: Rules)
    requires Injective(rules.hash) && OutOfScope(before, after, scope) == {}
    ensures Accepted(before, Delta(before, after, baseCommit, scope, rules.hash), baseCommit, rules)
            <==> Decodable(Encode(after), before.limits, rules)
    ensures Patched(before, Delta(before, after, baseCommit, scope, rules.hash)) == Encode(after)
  {
    ReplayMerges(before, before, after, baseCommit, scope, rules);
    MergeIntoBefore(before, after);
  }

  /** A candidate is refused on its own result as soon as it changed one file's content. */
  lemma ReplayedOnce(before: Snapshot, after: Snapshot, baseCommit: string, scope: string, rules: Rules, name: string)
    requires Injective(rules.hash) && !AgreesAt(after, before, name)
    ensures !Accepted(after, Delta(before, after, baseCommit, scope, rules.hash), baseCommit, rules)
  {
    ReplayMerges(after, before, after, baseCommit, scope, rules);
    assert Changed(before, after, name);
  }

  /** An accepted artifact was made for this commit and leaves nothing out of scope; each of its files replaces the
      content it was made from by the content it announces, and the result is a tree within the limits whose names are
      valid, portable and complete with their directories. */
  lemma AcceptedMeans(baseline: Snapshot, artifact: Artifact, baseCommit: string, rules: Rules)
    requires Accepted(baseline, artifact, baseCommit, rules)
    ensures artifact.baseCommit == baseCommit && artifact.invalid == {}
    ensures var tree := Patched(baseline, artifact);
            (forall name :: name in artifact.files ==>
               artifact.files[name].beforeHash
               == (if name in baseline.files then Some(rules.hash(baseline.files[name].content)) else None)
               && artifact.files[name].afterHash
                  == (if name in tree.files && tree.files[name].content.Base64?
                      then Some(rules.hash(tree.files[name].content.raw)) else None)
               && (name !in tree.files ==> name in baseline.files))
            && |tree.files| + |tree.directories| <= baseline.limits.entries
            && TotalBytes(tree.files) <= baseline.limits.bytes
            && (forall name :: name in tree.files.Keys + tree.directories ==>
                  rules.valid(name)
                  && forall k :: 0 <= k < |name| && name[k] == '/' ==> name[..k] in tree.directories)
            && (forall a, b ::
                  (a in tree.files.Keys + tree.directories && b in tree.files.Keys + tree.directories
                   && rules.fold(a) == rules.fold(b))
                  ==> a == b)
            && forall name :: name in tree.files ==> tree.files[name].content.Base64?
  {
    var tree := Patched(baseline, artifact);
    forall name | name in artifact.files
      ensures artifact.files[name].beforeHash
              == (if name in baseline.files then Some(rules.hash(baseline.files[name].content)) else None)
      ensures artifact.files[name].afterHash
              == (if name in tree.files && tree.files[name].content.Base64?
                  then Some(rules.hash(tree.files[name].content.raw)) else None)
      ensures name !in tree.files ==> name in baseline.files
    {
      assert Fits(baseline, artifact.files[name], name, rules.hash) && Announced(artifact.files[name], rules.hash);
      assert Lookup(tree.files, name) == PatchedAt(Lookup(baseline.files, name), Lookup(artifact.files, name));
    }
    forall a, b | a in tree.files.Keys + tree.directories && b in tree.files.Keys + tree.directories
                  && rules.fold(a) == rules.fold(b)
      ensures a == b
    {
      assert NamesDistinct(tree, rules.fold);
    }
  }
}
