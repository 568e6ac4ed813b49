/**
Bundle interchange: a writer of manifest-indexed archives and the strict reader that stages them.
*/
module Bundle {
  import opened Options
  import opened Maps
  import ZipIndex

  const MAX_TOTAL := 1073741824
  const MAX_FILE := 104857600
  const MAX_FILES := 20000
  const MAX_RATIO := 100
  const MAX_MANIFEST := 16777216
  const REGULAR_FILE := 0x8000
  const MANIFEST := "manifest.json"
  const CHECKSUMS := "checksums.sha256"
  const MAGICS: seq<Bytes> := [[0x50, 0x4B, 3, 4], [0x50, 0x4B, 5, 6], [0x1F, 0x8B],
                               [0x37, 0x7A, 0xBC, 0xAF, 0x27, 0x1C],
                               [0x52, 0x61, 0x72, 0x21], [0x42, 0x5A, 0x68], [0xFD, 0x37, 0x7A, 0x58, 0x5A]]
  const USTAR: Bytes := [0x75, 0x73, 0x74, 0x61, 0x72]

  datatype Content = Content(path: string, size: nat, digest: string, media: string, redacted: bool)

  /** What the writer records besides the contents. */
  datatype Origin = Origin(bundleId: string, source: string, created: string, tasks: set<string>)

  datatype Manifest = Manifest(origin: Origin, contents: seq<Content>, total: nat)

  datatype Method = Stored | Deflated | OtherMethod

  /** An archive member as its index describes it; `data` is what decompressing it yields, if it can be read at all. */
  datatype Entry = Entry(
    name: string, size: nat, compressed: nat, kind: nat, extra: nat, encrypted: bool, packing: Method, readable: bool,
    data: Bytes)

  datatype Archive = Archive(bytes: Bytes, entries: seq<Entry>)

  /**
  The path rules, case folding, text encoding, content hash, manifest serialization and schema, and the layout of the
  archive before and in its directory.
  */
  datatype Rules = Rules(
    safe: string -> bool, fold: string -> string, utf8: string -> Bytes, hash: Bytes -> string,
    encode: Manifest -> Bytes, decode: Bytes -> Option<Manifest>, valid: Manifest -> bool,
    locals: seq<Entry> -> Bytes, header: Entry -> ZipIndex.Entry)

  predicate IndexName(name: string) { name == MANIFEST || name == CHECKSUMS }

  function SizeSum(contents: seq<Content>): nat {
    if contents == [] then 0 else SizeSum(contents[..|contents| - 1]) + contents[|contents| - 1].size
  }

  function ChecksumLines(contents: seq<Content>): string {
    if contents == [] then ""
    else ChecksumLines(contents[..|contents| - 1])
         + (contents[|contents| - 1].digest + "  " + contents[|contents| - 1].path + "\n")
  }

  ghost predicate PathsDistinct(contents: seq<Content>, fold: string -> string) {
    forall i, j :: 0 <= i < j < |contents| ==> fold(contents[i].path) != fold(contents[j].path)
  }

  // ---------------------------------------------------------------- the writer

  function ContentOf(name: string, raw: Bytes, rules: Rules): Content {
    Content(name, |raw|, rules.hash(raw),
            if EndsWith(name, ".json") || EndsWith(name, ".jsonl") then "application/json"
               else "application/octet-stream",
            "artifacts/" <= name || name == "events.jsonl")
  }

  /** The files in the order they are written. */
  ghost predicate Enumerates(names: seq<string>, files: map<string, Bytes>) {
    |names| == |files| && (forall i :: 0 <= i < |names| ==> names[i] in files)
    && (forall i, j :: 0 <= i < j < |names| ==> names[i] != names[j]) && forall name :: name in files ==> name in names
  }

  function ContentsOf(names: seq<string>, files: map<string, Bytes>, rules: Rules): (r: seq<Content>)
    requires forall i :: 0 <= i < |names| ==> names[i] in files
    ensures |r| == |names| && forall i :: 0 <= i < |r| ==> r[i] == ContentOf(names[i], files[names[i]], rules)
  {
    seq(|names|, i requires 0 <= i < |names| &&
      (forall k :: 0 <= k < |names|
          ==> names[k] in files) => ContentOf(names[i], files[names[i]], rules))
  }

  function ManifestOf(names: seq<string>, files: map<string, Bytes>, origin: Origin, rules: Rules): Manifest
    requires forall i :: 0 <= i < |names| ==> names[i] in files
  {
    Manifest(origin, ContentsOf(names, files, rules), SizeSum(ContentsOf(names, files, rules)))
  }

  function StoredEntry(name: string, raw: Bytes): Entry { Entry(name, |raw|, |raw|, 0, 0, false, Stored, true, raw) }

  function FileEntries(names: seq<string>, files: map<string, Bytes>): (r: seq<Entry>)
    requires forall i :: 0 <= i < |names| ==> names[i] in files
    ensures |r| == |names| && forall i :: 0 <= i < |r| ==> r[i] == StoredEntry(names[i], files[names[i]])
  {
    seq(|names|, i requires 0 <= i < |names| && (forall k :: 0 <= k < |names|
                                                    ==> names[k] in files) => StoredEntry(names[i], files[names[i]]))
  }

  function WrittenEntries(names: seq<string>, files: map<string, Bytes>, manifest: Manifest,
                          rules: Rules): (r: seq<Entry>)
    requires forall i :: 0 <= i < |names| ==> names[i] in files
    ensures |r| == |names| + 2 && r[0] == StoredEntry(MANIFEST, rules.encode(manifest))
    ensures r[1] == StoredEntry(CHECKSUMS, rules.utf8(ChecksumLines(manifest.contents)))
    ensures forall i :: 0 <= i < |names| ==> r[i + 2] == StoredEntry(names[i], files[names[i]])
  {
    [StoredEntry(MANIFEST, rules.encode(manifest)),
     StoredEntry(CHECKSUMS, rules.utf8(ChecksumLines(manifest.contents)))]
    + FileEntries(names, files)
  }

  function Headers(entries: seq<Entry>, header: Entry -> ZipIndex.Entry): (r: seq<ZipIndex.Entry>)
    ensures |r| == |entries|
  {
    seq(|entries|, i requires 0 <= i < |entries| => header(entries[i]))
  }

  function Packed(entries: seq<Entry>, rules: Rules): Archive {
    Archive(ZipIndex.WriteIndex(rules.locals(entries), Headers(entries, rules.header)), entries)
  }

  predicate NameWritable(name: string, files: map<string, Bytes>, rules: Rules) {
    rules.safe(name) && !IndexName(name) && name in files && |files[name]| <= MAX_FILE
  }

  ghost predicate NamesWritable(names: seq<string>, files: map<string, Bytes>, rules: Rules) {
    (forall i :: 0 <= i < |names| ==> NameWritable(names[i], files, rules))
    && forall i, j :: 0 <= i < j < |names| ==> rules.fold(names[i]) != rules.fold(names[j])
  }

  predicate ManifestWritable(manifest: Manifest, rules: Rules) {
    rules.valid(manifest) && |rules.encode(manifest)| <= MAX_MANIFEST
    && manifest.total + |rules.encode(manifest)| + |rules.utf8(ChecksumLines(manifest.contents))| <= MAX_TOTAL
  }

  ghost predicate Writable(names: seq<string>, files: map<string, Bytes>, origin: Origin, rules: Rules)
    requires forall i :: 0 <= i < |names| ==> names[i] in files
  {
    0 < |names| && |names| + 2 <= MAX_FILES && NamesWritable(names, files, rules)
    && ManifestWritable(ManifestOf(names, files, origin, rules), rules)
  }

  /** The first `i` names are checked, their foldings taken, and their contents collected. */
  ghost predicate CollectedSoFar(names: seq<string>, files: map<string, Bytes>, rules: Rules, i: nat,
                                 folded: set<string>, contents: seq<Content>)
    requires i <= |names|
  {
    NamesWritable(names[..i], files, rules)
    && (forall key :: key in folded <==> exists j :: 0 <= j < i && rules.fold(names[j]) == key)
    && |contents| == i && forall j :: 0 <= j < i
                             ==> names[j] in files && contents[j] == ContentOf(names[j], files[names[j]], rules)
  }

  lemma CollectedOneMore(names: seq<string>, files: map<string, Bytes>, rules: Rules, i: nat, folded: set<string>,
                         contents: seq<Content>)
    requires i < |names| && CollectedSoFar(names, files, rules, i, folded, contents)
    requires NameWritable(names[i], files, rules) && rules.fold(names[i]) !in folded
    ensures CollectedSoFar(names, files, rules, i + 1, folded + {rules.fold(names[i])},
                           contents + [ContentOf(names[i], files[names[i]], rules)])
  {
    NamesOneMore(names, files, rules, i, folded);
    var (more, all) := (folded + {rules.fold(names[i])}, contents + [ContentOf(names[i], files[names[i]], rules)]);
    forall key ensures key in more <==> exists j :: 0 <= j < i + 1 && rules.fold(names[j]) == key {
      if key in folded {
        var j :| 0 <= j < i && rules.fold(names[j]) == key;
      }
    }
    forall j | 0 <= j < i + 1 ensures names[j] in files && all[j] == ContentOf(names[j], files[names[j]], rules) {}
  }

  lemma NamesOneMore(names: seq<string>, files: map<string, Bytes>, rules: Rules, i: nat, folded: set<string>)
    requires i < |names| && NamesWritable(names[..i], files, rules) && NameWritable(names[i], files, rules)
    requires rules.fold(names[i]) !in folded && forall j :: 0 <= j < i ==> rules.fold(names[j]) in folded
    ensures NamesWritable(names[..i + 1], files, rules)
  {
    assert names[..i + 1] == names[..i] + [names[i]];
    assert forall j :: 0 <= j < i ==> rules.fold(names[..i][j]) in folded;
  }

  lemma NotWritableFrom(names: seq<string>, files: map<string, Bytes>, rules: Rules, i: nat, folded: set<string>,
                        contents: seq<Content>)
    requires i < |names| && CollectedSoFar(names, files, rules, i, folded, contents)
    requires !NameWritable(names[i], files, rules) || rules.fold(names[i]) in folded
    ensures !NamesWritable(names, files, rules)
  {
  }

  lemma CollectedAll(names: seq<string>, files: map<string, Bytes>, rules: Rules, folded: set<string>,
                     contents: seq<Content>)
    requires forall i :: 0 <= i < |names| ==> names[i] in files
    requires CollectedSoFar(names, files, rules, |names|, folded, contents)
    ensures NamesWritable(names, files, rules) && contents == ContentsOf(names, files, rules)
  {
    assert names[..|names|] == names;
  }

  /** The writer's first loop: checks each name and collects the manifest's contents. */
  method CollectContents(names: seq<string>, files: map<string, Bytes>, rules: Rules)
    returns (contents: Option<seq<Content>>, total: nat)
    requires forall i :: 0 <= i < |names| ==> names[i] in files
    ensures contents.Some? <==> NamesWritable(names, files, rules)
    ensures contents.Some? ==> contents.value == ContentsOf(names, files, rules) && total == SizeSum(contents.value)
  {
    var folded: set<string> := {};
    var collected := [];
    total := 0;
    for i := 0 to |names|
      invariant CollectedSoFar(names, files, rules, i, folded, collected) && total == SizeSum(collected)
    {
      var name := names[i];
      if !rules.safe(name) || rules.fold(name) in folded || name == MANIFEST || name == CHECKSUMS
         || |files[name]| > MAX_FILE {
        NotWritableFrom(names, files, rules, i, folded, collected);
        return None, 0;
      }
      CollectedOneMore(names, files, rules, i, folded, collected);
      folded := folded + {rules.fold(name)};
      total := total + |files[name]|;
      ghost var before := collected;
      collected := collected + [ContentOf(name, files[name], rules)];
      assert collected[..i] == before;
    }
    CollectedAll(names, files, rules, folded, collected);
    return Some(collected), total;
  }

  /** The writer's second loop. */
  method AppendFiles(first: seq<Entry>, names: seq<string>, files: map<string, Bytes>) returns (entries: seq<Entry>)
    requires forall i :: 0 <= i < |names| ==> names[i] in files
    ensures entries == first + FileEntries(names, files)
  {
    entries := first;
    for i := 0 to |names|
      invariant entries == first + FileEntries(names, files)[..i]
    {
      entries := entries + [StoredEntry(names[i], files[names[i]])];
    }
  }

  /** `write_bundle`: files in the order given. */
  method WriteBundle(names: seq<string>, files: map<string, Bytes>, origin: Origin, rules: Rules)
    returns (r: Option<Archive>)
    requires Enumerates(names, files)
    ensures r.Some? <==> Writable(names, files, origin, rules)
    ensures r.Some? ==> r.value == Packed(WrittenEntries(names, files, ManifestOf(names, files, origin, rules), rules),
                                          rules)
  {
    if |files| == 0 || |files| + 2 > MAX_FILES { return None; }
    var contents, total := CollectContents(names, files, rules);
    if contents.None? { return None; }
    var manifest := Manifest(origin, contents.value, total);
    if !rules.valid(manifest) { return None; }
    var raw, checksums := rules.encode(manifest), rules.utf8(ChecksumLines(contents.value));
    if |raw| > MAX_MANIFEST || total + |raw| + |checksums| > MAX_TOTAL { return None; }
    var entries := [StoredEntry(MANIFEST, raw), StoredEntry(CHECKSUMS, checksums)];
    entries := AppendFiles(entries, names, files);
    return Some(Packed(entries, rules));
  }

  // ---------------------------------------------------------------- what the reader accepts

  predicate EntryFine(e: Entry, rules: Rules) {
    rules.safe(e.name) && (e.name == "" || e.name[|e.name| - 1] != '/') && (e.kind == 0 || e.kind == REGULAR_FILE)
      && e.extra == 0
    && !e.encrypted && e.packing != OtherMethod && e.size <= MAX_FILE
       && e.size <= MAX_RATIO * (if e.compressed < 1 then 1 else e.compressed)
  }

  function EntrySizes(entries: seq<Entry>): nat {
    if entries == [] then 0 else EntrySizes(entries[..|entries| - 1]) + entries[|entries| - 1].size
  }

  /** The entry whose folded name is `key`. */
  function Find(entries: seq<Entry>, key: string, fold: string -> string): (r: Option<Entry>)
    ensures r.Some? ==> r.value in entries && fold(r.value.name) == key
    ensures r.None? ==> forall i :: 0 <= i < |entries| ==> fold(entries[i].name) != key
  {
    if entries == [] then None
    else if fold(entries[|entries| - 1].name) == key then Some(entries[|entries| - 1])
    else Find(entries[..|entries| - 1], key, fold)
  }

  ghost predicate EntriesFine(entries: seq<Entry>, rules: Rules) {
    (forall i :: 0 <= i < |entries| ==> EntryFine(entries[i], rules))
    && forall i, j :: 0 <= i < j < |entries| ==> rules.fold(entries[i].name) != rules.fold(entries[j].name)
  }

  ghost predicate ContentsFine(contents: seq<Content>, rules: Rules) {
    (forall i :: 0 <= i < |contents| ==> rules.safe(contents[i].path) && !IndexName(contents[i].path))
      && PathsDistinct(contents, rules.fold)
  }

  predicate Folded(contents: seq<Content>, key: string, fold: string -> string) {
    exists i :: 0 <= i < |contents| && fold(contents[i].path) == key
  }

  /** The index and the manifest name the same files. */
  ghost predicate SameNames(entries: seq<Entry>, contents: seq<Content>, fold: string -> string) {
    forall key :: Find(entries, key, fold).Some? <==> IndexName(key) || Folded(contents, key, fold)
  }

  function Head(data: Bytes): Bytes { if |data| > 512 then data[..512] else data }

  predicate Nested(head: Bytes) {
    (exists i :: 0 <= i < |MAGICS| && MAGICS[i] <= head) || (|head| >= 262 && head[257..262] == USTAR)
  }

  /** The entry delivers exactly what the manifest says of it. */
  predicate Delivers(e: Entry, item: Content, rules: Rules) {
    e.name == item.path && e.size == item.size && e.readable && |e.data| == item.size
      && rules.hash(e.data) == item.digest
    && !Nested(Head(e.data))
  }

  predicate ItemDelivered(entries: seq<Entry>, item: Content, rules: Rules) {
    var found := Find(entries, rules.fold(item.path), rules.fold);
    found.Some? && Delivers(found.value, item, rules)
  }

  predicate Below(parent: string, name: string) { |parent| < |name| && name[|parent|] == '/'
                                                 && parent == name[..|parent|] }

  /** No path is also a directory on the way to another. */
  ghost predicate NoPathIsDirectory(contents: seq<Content>) {
    forall i, j :: 0 <= i < |contents| && 0 <= j < |contents| ==> !Below(contents[i].path, contents[j].path)
  }

  ghost predicate ManifestHolds(entries: seq<Entry>, manifest: Manifest, checksums: Entry, rules: Rules) {
    rules.valid(manifest) && ContentsFine(manifest.contents, rules) && SameNames(entries, manifest.contents, rules.fold)
    && manifest.total == SizeSum(manifest.contents)
    && checksums.readable && checksums.data == rules.utf8(ChecksumLines(manifest.contents))
    && (forall i :: 0 <= i < |manifest.contents| ==> ItemDelivered(entries, manifest.contents[i], rules))
    && NoPathIsDirectory(manifest.contents)
  }

  function ReadManifest(entries: seq<Entry>, rules: Rules): Option<Manifest> {
    var index := Find(entries, MANIFEST, rules.fold);
    if index.None? || index.value.size > MAX_MANIFEST
       || !index.value.readable then None else rules.decode(index.value.data)
  }

  /** The checks made on the index alone. */
  ghost predicate IndexFine(archive: Archive, rules: Rules) {
    |archive.bytes| <= MAX_TOTAL && ZipIndex.Acceptable(archive.bytes) && 0 < |archive.entries| <= MAX_FILES
    && EntriesFine(archive.entries, rules) && EntrySizes(archive.entries) <= MAX_TOTAL
  }

  ghost predicate Accepted(archive: Archive, rules: Rules) {
    IndexFine(archive, rules) && Find(archive.entries, CHECKSUMS, rules.fold).Some?
      && ReadManifest(archive.entries, rules).Some?
    && ManifestHolds(archive.entries, ReadManifest(archive.entries, rules).value,
                     Find(archive.entries, CHECKSUMS, rules.fold).value, rules)
  }

  // ---------------------------------------------------------------- the staging directory

  datatype StagingArea = StagingArea(files: map<string, Bytes>, directories: set<string>)

  /** `destination.parent.mkdir(parents=True, exist_ok=True)` and `destination.open('xb')`. */
  method Create(disk: StagingArea, path: string, data: Bytes) returns (r: Option<StagingArea>)
    ensures r.Some? <==> path !in disk.files && path !in disk.directories && forall p :: p in disk.files
                                                                                ==> !Below(p, path)
    ensures r.Some? ==> r.value.files == disk.files[path := data]
                        && forall p :: p in r.value.directories <==> p in disk.directories || Below(p, path)
  {
    var directories := disk.directories;
    for k := 0 to |path|
      invariant forall p :: p in directories <==> p in disk.directories || (Below(p, path) && |p| < k)
      invariant forall p :: p in disk.files && |p| < k ==> !Below(p, path)
    {
      if path[k] == '/' {
        if path[..k] in disk.files { return None; }
        assert forall p :: Below(p, path) && |p| == k ==> p == path[..k];
        directories := directories + {path[..k]};
      }
    }
    if path in disk.files || path in disk.directories { return None; }
    return Some(StagingArea(disk.files[path := data], directories));
  }

  /** Reading one member piece by piece while counting and hashing it. */
  method CopyMember(e: Entry, item: Content, rules: Rules) returns (data: Option<Bytes>)
    requires e.name == item.path && e.size == item.size
    ensures data.Some? <==> Delivers(e, item, rules)
    ensures data.Some? ==> data.value == e.data
  {
    if !e.readable { return None; }
    var output, head: Bytes := [], [];
    while |output| < |e.data|
      invariant output <= e.data && head == Head(output)
      invariant |output| <= item.size
      invariant output == [] || |output| >= 512 || |output| == |e.data|
      decreases |e.data| - |output|
    {
      var piece := if |e.data| - |output| > 1048576 then 1048576 else |e.data| - |output|;
      var chunk := e.data[|output|..|output| + piece];
      if head == [] { head := Head(chunk); }
      if |output| + |chunk| > item.size { return None; }
      assert |output| >= 512 ==> Head(output + chunk) == Head(output);
      assert output == [] ==> output + chunk == chunk;
      output := output + chunk;
    }
    assert output == e.data;
    if Nested(head) { return None; }
    if |output| != item.size || rules.hash(output) != item.digest { return None; }
    return Some(output);
  }

  lemma EndsExactlyWhen(name: string, suffix: string)
    ensures EndsWith(name, suffix) <==> exists stem :: name == stem + suffix
  {
    if EndsWith(name, suffix) { assert name == name[..|name| - |suffix|] + suffix; }
  }

  lemma StartsExactlyWhen(name: string, prefix: string)
    ensures prefix <= name <==> exists rest :: name == prefix + rest
  {
    if prefix <= name { assert name == prefix + name[|prefix|..]; }
  }

  /** What the manifest says of a file: its size and hash, the kind its name ends in, and whether it was redacted. */
  lemma DescribesFile(name: string, raw: Bytes, rules: Rules)
    ensures var item := ContentOf(name, raw, rules);
            item.path == name && item.size == |raw| && item.digest == rules.hash(raw)
            && (item.media == "application/json" || item.media == "application/octet-stream")
            && (item.media == "application/json"
                <==> (exists stem :: name == stem + ".json") || exists stem :: name == stem + ".jsonl")
            && (item.redacted <==> name == "events.jsonl" || exists rest :: name == "artifacts/" + rest)
  {
    EndsExactlyWhen(name, ".json");
    EndsExactlyWhen(name, ".jsonl");
    StartsExactlyWhen(name, "artifacts/");
    assert "application/json" != "application/octet-stream" by { assert |"application/json"| == 16; }
  }

  function ChecksumLine(item: Content): string { item.digest + "  " + item.path + "\n" }

  /** The checksum index has one line for each file, in the manifest's order: its hash, two spaces and its path. */
  lemma {:induction false} OneLineEach(first: seq<Content>, item: Content, rest: seq<Content>)
    ensures ChecksumLines(first + [item] + rest) == ChecksumLines(first) + ChecksumLine(item) + ChecksumLines(rest)
    decreases |rest|
  {
    var all := first + [item] + rest;
    if rest == [] {
      assert all[..|all| - 1] == first;
    } else {
      var shorter, last := rest[..|rest| - 1], rest[|rest| - 1];
      assert all[..|all| - 1] == first + [item] + shorter;
      OneLineEach(first, item, shorter);
      Joined(ChecksumLines(first) + ChecksumLine(item), ChecksumLines(shorter), ChecksumLine(last));
    }
  }

  lemma Joined(a: string, b: string, c: string)
    ensures a + b + c == a + (b + c)
  {
  }
}
