/**
The strict reader: every check before and while an archive is staged.
*/
module BundleStaging {
  import opened Options
  import opened Maps
  import opened Bundle
  import ZipIndex

  // ---------------------------------------------------------------- the index of the archive

  lemma FindOne(entries: seq<Entry>, e: Entry, key: string, fold: string -> string)
    ensures Find(entries + [e], key, fold) == if fold(e.name) == key then Some(e) else Find(entries, key, fold)
  {
    assert (entries + [e])[..|entries|] == entries;
  }

  lemma FineOne(entries: seq<Entry>, e: Entry, rules: Rules)
    requires EntriesFine(entries, rules)
    ensures EntriesFine(entries + [e], rules)
            <==> EntryFine(e, rules) && Find(entries, rules.fold(e.name), rules.fold).None?
    ensures EntrySizes(entries + [e]) == EntrySizes(entries) + e.size
  {
    var longer := entries + [e];
    assert longer[..|entries|] == entries && longer[|entries|] == e;
    var found := Find(entries, rules.fold(e.name), rules.fold);
    if found.Some? {
      var i :| 0 <= i < |entries| && entries[i] == found.value;
      assert rules.fold(longer[i].name) == rules.fold(longer[|entries|].name);
    }
  }

  lemma FinePrefix(entries: seq<Entry>, i: nat, rules: Rules)
    requires i <= |entries|
    ensures EntriesFine(entries, rules) ==> EntriesFine(entries[..i], rules)
  {
  }

  ghost predicate Indexes(names: map<string, Entry>, entries: seq<Entry>, fold: string -> string) {
    forall key :: Lookup(names, key) == Find(entries, key, fold)
  }

  /** The loop over the index entries. */
  method CheckEntries(entries: seq<Entry>, rules: Rules) returns (names: Option<map<string, Entry>>)
    ensures names.Some? <==> EntriesFine(entries, rules) && EntrySizes(entries) <= MAX_TOTAL
    ensures names.Some? ==> Indexes(names.value, entries, rules.fold)
  {
    var found: map<string, Entry> := map[];
    var total := 0;
    for i := 0 to |entries|
      invariant EntriesFine(entries[..i], rules) && total == EntrySizes(entries[..i])
                && Indexes(found, entries[..i], rules.fold)
    {
      var item := entries[i];
      assert entries[..i + 1] == entries[..i] + [item];
      FineOne(entries[..i], item, rules);
      if !EntryFine(item, rules) || rules.fold(item.name) in found {
        assert Lookup(found, rules.fold(item.name)) == Find(entries[..i], rules.fold(item.name), rules.fold);
        FinePrefix(entries, i + 1, rules);
        return None;
      }
      ghost var before := found;
      total := total + item.size;
      found := found[rules.fold(item.name) := item];
      IndexesOne(before, entries[..i], item, rules.fold);
    }
    assert entries[..|entries|] == entries;
    return if total > MAX_TOTAL then None else Some(found);
  }

  lemma IndexesOne(names: map<string, Entry>, entries: seq<Entry>, e: Entry, fold: string -> string)
    requires Indexes(names, entries, fold)
    ensures Indexes(names[fold(e.name) := e], entries + [e], fold)
  {
    forall key ensures Lookup(names[fold(e.name) := e], key) == Find(entries + [e], key, fold) {
      FindOne(entries, e, key, fold);
    }
  }

  // ---------------------------------------------------------------- the manifest's contents

  /** The loop over the manifest's contents: the folded paths, all new. */
  method CheckContents(contents: seq<Content>, rules: Rules) returns (indexed: Option<set<string>>)
    ensures indexed.Some? <==> ContentsFine(contents, rules)
    ensures indexed.Some? ==> forall key :: key in indexed.value <==> Folded(contents, key, rules.fold)
  {
    var found: set<string> := {};
    for i := 0 to |contents|
      invariant forall j :: 0 <= j < i ==> rules.safe(contents[j].path) && !IndexName(contents[j].path)
      invariant forall j, k :: 0 <= j < k < i ==> rules.fold(contents[j].path) != rules.fold(contents[k].path)
      invariant forall key :: key in found <==> exists j :: 0 <= j < i && rules.fold(contents[j].path) == key
    {
      var path := contents[i].path;
      if !rules.safe(path) || rules.fold(path) in found || path == MANIFEST || path == CHECKSUMS { return None; }
      found := found + {rules.fold(path)};
    }
    return Some(found);
  }

  lemma NamesAgree(names: map<string, Entry>, indexed: set<string>, entries: seq<Entry>, contents: seq<Content>,
                   fold: string -> string)
    requires Indexes(names, entries, fold)
    requires forall key :: key in indexed <==> Folded(contents, key, fold)
    ensures names.Keys == indexed + {MANIFEST, CHECKSUMS} <==> SameNames(entries, contents, fold)
  {
    forall key
      ensures key in names <==> Find(entries, key, fold).Some?
      ensures key in indexed + {MANIFEST, CHECKSUMS} <==> IndexName(key) || Folded(contents, key, fold)
    {
      assert Lookup(names, key) == Find(entries, key, fold);
    }
    if SameNames(entries, contents, fold) {
      forall key ensures key in names.Keys <==> key in indexed + {MANIFEST, CHECKSUMS} {}
    }
    if names.Keys == indexed + {MANIFEST, CHECKSUMS} {
      forall key ensures Find(entries, key, fold).Some? <==> IndexName(key) || Folded(contents, key, fold) {
        assert key in names <==> key in indexed + {MANIFEST, CHECKSUMS};
      }
    }
  }

  // ---------------------------------------------------------------- staging

  /** Exactly the manifest's paths, each with the bytes of its entry. */
  ghost predicate Holds(files: map<string, Bytes>, entries: seq<Entry>, contents: seq<Content>,
                        fold: string -> string) {
    (forall p :: p in files <==> exists i :: 0 <= i < |contents| && contents[i].path == p)
    && forall i :: 0 <= i < |contents| ==>
         contents[i].path in files && Find(entries, fold(contents[i].path), fold).Some?
         && files[contents[i].path] == Find(entries, fold(contents[i].path), fold).value.data
  }

  ghost predicate HoldsDirectories(directories: set<string>, contents: seq<Content>) {
    forall p :: p in directories <==> exists i :: 0 <= i < |contents| && Below(p, contents[i].path)
  }

  ghost predicate StagedSoFar(disk: StagingArea, entries: seq<Entry>, contents: seq<Content>, rules: Rules) {
    Holds(disk.files, entries, contents, rules.fold) && HoldsDirectories(disk.directories, contents)
      && NoPathIsDirectory(contents)
    && forall i :: 0 <= i < |contents| ==> ItemDelivered(entries, contents[i], rules)
  }

  predicate Free(disk: StagingArea, path: string) {
    path !in disk.files && path !in disk.directories && forall p :: p in disk.files ==> !Below(p, path)
  }

  lemma HoldsOneMore(files: map<string, Bytes>, entries: seq<Entry>, contents: seq<Content>, item: Content,
                     fold: string -> string)
    requires Holds(files, entries, contents, fold) && item.path !in files && Find(entries, fold(item.path), fold).Some?
    ensures Holds(files[item.path := Find(entries, fold(item.path), fold).value.data], entries, contents + [item], fold)
  {
    var longer, later := contents + [item], files[item.path := Find(entries, fold(item.path), fold).value.data];
    assert longer[|contents|] == item && forall i :: 0 <= i < |contents| ==> longer[i] == contents[i];
    forall p ensures p in later <==> exists i :: 0 <= i < |longer| && longer[i].path == p {
      if p in files {
        var i :| 0 <= i < |contents| && contents[i].path == p;
        assert longer[i].path == p;
      }
    }
  }

  lemma DirectoriesOneMore(directories: set<string>, later: set<string>, contents: seq<Content>, item: Content)
    requires HoldsDirectories(directories, contents)
    requires forall p :: p in later <==> p in directories || Below(p, item.path)
    ensures HoldsDirectories(later, contents + [item])
  {
    var longer := contents + [item];
    assert longer[|contents|] == item && forall i :: 0 <= i < |contents| ==> longer[i] == contents[i];
    forall p | p in directories ensures exists i :: 0 <= i < |longer| && Below(p, longer[i].path) {
      var i :| 0 <= i < |contents| && Below(p, contents[i].path);
      assert Below(p, longer[i].path);
    }
  }

  lemma ConflictFreeOneMore(disk: StagingArea, entries: seq<Entry>, contents: seq<Content>, item: Content, rules: Rules)
    requires StagedSoFar(disk, entries, contents, rules) && Free(disk, item.path)
    ensures NoPathIsDirectory(contents + [item])
  {
    var longer := contents + [item];
    assert longer[|contents|] == item && forall i :: 0 <= i < |contents| ==> longer[i] == contents[i];
    forall i | 0 <= i < |contents| ensures !Below(contents[i].path, item.path) && !Below(item.path, contents[i].path) {
      assert contents[i].path in disk.files;
    }
  }

  lemma CreateStages(disk: StagingArea, later: StagingArea, entries: seq<Entry>, contents: seq<Content>, item: Content,
                     rules: Rules)
    requires StagedSoFar(disk, entries, contents, rules) && ItemDelivered(entries, item, rules) && Free(disk, item.path)
    requires later.files == disk.files[item.path := Find(entries, rules.fold(item.path), rules.fold).value.data]
    requires forall p :: p in later.directories <==> p in disk.directories || Below(p, item.path)
    ensures StagedSoFar(later, entries, contents + [item], rules)
  {
    HoldsOneMore(disk.files, entries, contents, item, rules.fold);
    DirectoriesOneMore(disk.directories, later.directories, contents, item);
    ConflictFreeOneMore(disk, entries, contents, item, rules);
  }

  lemma NotStagedTwice(disk: StagingArea, entries: seq<Entry>, contents: seq<Content>, i: nat, rules: Rules)
    requires i < |contents| && PathsDistinct(contents, rules.fold) && StagedSoFar(disk, entries, contents[..i], rules)
    ensures contents[i].path !in disk.files
  {
    forall j | 0 <= j < i ensures contents[..i][j].path != contents[i].path {
      assert rules.fold(contents[j].path) != rules.fold(contents[i].path);
    }
  }

  lemma NotFreeMeansConflict(disk: StagingArea, entries: seq<Entry>, contents: seq<Content>, i: nat, rules: Rules)
    requires i < |contents| && PathsDistinct(contents, rules.fold)
    requires StagedSoFar(disk, entries, contents[..i], rules) && !Free(disk, contents[i].path)
    ensures !NoPathIsDirectory(contents)
  {
    var path := contents[i].path;
    NotStagedTwice(disk, entries, contents, i, rules);
    if path in disk.directories {
      var j :| 0 <= j < i && Below(path, contents[..i][j].path);
      assert Below(contents[i].path, contents[j].path);
    } else {
      var p :| p in disk.files && Below(p, path);
      var j :| 0 <= j < i && contents[..i][j].path == p;
      assert Below(contents[j].path, contents[i].path);
    }
  }

  lemma ItemIndexed(names: map<string, Entry>, entries: seq<Entry>, contents: seq<Content>, i: nat,
                    fold: string -> string)
    requires i < |contents| && Indexes(names, entries, fold) && SameNames(entries, contents, fold)
    ensures fold(contents[i].path) in names
  {
    var key := fold(contents[i].path);
    assert Folded(contents, key, fold);
    assert Lookup(names, key) == Find(entries, key, fold);
  }

  /** One round of the staging loop. */
  method StageNext(disk: StagingArea, names: map<string, Entry>, ghost entries: seq<Entry>, contents: seq<Content>,
                   i: nat, rules: Rules)
    returns (written: Option<StagingArea>)
    requires Indexes(names, entries, rules.fold) && SameNames(entries, contents, rules.fold)
             && PathsDistinct(contents, rules.fold)
    requires i < |contents| && StagedSoFar(disk, entries, contents[..i], rules)
    ensures written.Some? ==> StagedSoFar(written.value, entries, contents[..i + 1], rules)
    ensures written.None? ==> !ItemDelivered(entries, contents[i], rules) || !NoPathIsDirectory(contents)
  {
    assert contents[..i + 1] == contents[..i] + [contents[i]];
    ItemIndexed(names, entries, contents, i, rules.fold);
    written := StageOne(disk, names, entries, contents[i], rules);
    if written.None? {
      if ItemDelivered(entries, contents[i], rules) { NotFreeMeansConflict(disk, entries, contents, i, rules); }
    } else {
      CreateStages(disk, written.value, entries, contents[..i], contents[i], rules);
    }
  }

  /** The staging loop. */
  method StageFiles(names: map<string, Entry>, entries: seq<Entry>, contents: seq<Content>, rules: Rules)
    returns (files: Option<map<string, Bytes>>)
    requires Indexes(names, entries, rules.fold) && SameNames(entries, contents, rules.fold)
             && PathsDistinct(contents, rules.fold)
    ensures files.Some?
            <==> (forall i :: 0 <= i < |contents| ==> ItemDelivered(entries, contents[i], rules))
                 && NoPathIsDirectory(contents)
    ensures files.Some? ==> Holds(files.value, entries, contents, rules.fold)
  {
    var disk := StagingArea(map[], {});
    for i := 0 to |contents|
      invariant StagedSoFar(disk, entries, contents[..i], rules)
    {
      var written := StageNext(disk, names, entries, contents, i, rules);
      if written.None? { return None; }
      disk := written.value;
    }
    assert contents[..|contents|] == contents;
    return Some(disk.files);
  }

  method StageOne(disk: StagingArea, names: map<string, Entry>, ghost entries: seq<Entry>, item: Content, rules: Rules)
    returns (r: Option<StagingArea>)
    requires Indexes(names, entries, rules.fold) && rules.fold(item.path) in names
    ensures r.Some? <==> ItemDelivered(entries, item, rules) && Free(disk, item.path)
    ensures r.Some? ==> r.value.files == disk.files[item.path := Find(entries, rules.fold(item.path),
                                                                      rules.fold).value.data]
                        && forall p :: p in r.value.directories <==> p in disk.directories || Below(p, item.path)
  {
    var info := names[rules.fold(item.path)];
    assert Lookup(names, rules.fold(item.path)) == Find(entries, rules.fold(item.path), rules.fold);
    if info.name != item.path || info.size != item.size { return None; }
    var data := CopyMember(info, item, rules);
    if data.None? { return None; }
    r := Create(disk, item.path, data.value);
  }

  datatype Staged = Staged(files: map<string, Bytes>, manifest: Manifest)

  /** Everything before the manifest is read. */
  method CheckIndex(archive: Archive, rules: Rules) returns (names: Option<map<string, Entry>>)
    ensures names.Some? <==> IndexFine(archive, rules)
    ensures names.Some? ==> Indexes(names.value, archive.entries, rules.fold)
  {
    if |archive.bytes| > MAX_TOTAL { return None; }
    var index := ZipIndex.ScanZipIndex(archive.bytes);
    if index.Some? || |archive.entries| > MAX_FILES || archive.entries == [] { return None; }
    names := CheckEntries(archive.entries, rules);
  }

  method LoadManifest(names: map<string, Entry>, ghost entries: seq<Entry>, rules: Rules)
    returns (manifest: Option<Manifest>)
    requires Indexes(names, entries, rules.fold)
    ensures manifest == ReadManifest(entries, rules)
  {
    assert Lookup(names, MANIFEST) == Find(entries, MANIFEST, rules.fold);
    if MANIFEST !in names || names[MANIFEST].size > MAX_MANIFEST || !names[MANIFEST].readable { return None; }
    return rules.decode(names[MANIFEST].data);
  }

  /** `staged_bundle`. */
  method Stage(archive: Archive, rules: Rules) returns (r: Option<Staged>)
    ensures r.Some? <==> Accepted(archive, rules)
    ensures r.Some? ==> ReadManifest(archive.entries, rules) == Some(r.value.manifest)
                        && Holds(r.value.files, archive.entries, r.value.manifest.contents, rules.fold)
  {
    var names := CheckIndex(archive, rules);
    if names.None? { return None; }
    assert Lookup(names.value, CHECKSUMS) == Find(archive.entries, CHECKSUMS, rules.fold);
    if CHECKSUMS !in names.value { return None; }
    var manifest := LoadManifest(names.value, archive.entries, rules);
    if manifest.None? { return None; }
    var files := StageManifest(names.value, archive.entries, manifest.value, rules);
    return if files.None? then None else Some(Staged(files.value, manifest.value));
  }

  method StageManifest(names: map<string, Entry>, entries: seq<Entry>, manifest: Manifest, rules: Rules)
    returns (files: Option<map<string, Bytes>>)
    requires Indexes(names, entries, rules.fold) && CHECKSUMS in names
             && Find(entries, CHECKSUMS, rules.fold) == Some(names[CHECKSUMS])
    ensures files.Some? <==> ManifestHolds(entries, manifest, names[CHECKSUMS], rules)
    ensures files.Some? ==> Holds(files.value, entries, manifest.contents, rules.fold)
  {
    if !rules.valid(manifest) { return None; }
    var indexed := CheckContents(manifest.contents, rules);
    if indexed.None? { return None; }
    NamesAgree(names, indexed.value, entries, manifest.contents, rules.fold);
    if names.Keys != indexed.value + {MANIFEST, CHECKSUMS}
       || manifest.total != SizeSum(manifest.contents) { return None; }
    if !names[CHECKSUMS].readable
       || names[CHECKSUMS].data != rules.utf8(ChecksumLines(manifest.contents)) { return None; }
    files := StageFiles(names, entries, manifest.contents, rules);
  }

  /** An accepted archive yields exactly its manifest's paths, sizes and hashes, and every member but the two indexes
      is staged. */
  lemma AcceptedYieldsManifest(archive: Archive, rules: Rules, files: map<string, Bytes>)
    requires Accepted(archive, rules)
    requires Holds(files, archive.entries, ReadManifest(archive.entries, rules).value.contents, rules.fold)
    ensures var contents := ReadManifest(archive.entries, rules).value.contents;
            (forall i :: 0 <= i < |contents|
                         ==> contents[i].path in files && |files[contents[i].path]| == contents[i].size
                             && rules.hash(files[contents[i].path]) == contents[i].digest
                                && !Nested(Head(files[contents[i].path])))
            && (forall p :: p in files ==> exists i :: 0 <= i < |contents| && contents[i].path == p)
            && (forall e :: e in archive.entries
                            ==> IndexName(rules.fold(e.name)) || (e.name in files && files[e.name] == e.data))
  {
    var entries, contents := archive.entries, ReadManifest(archive.entries, rules).value.contents;
    forall i | 0 <= i < |contents|
      ensures contents[i].path in files && |files[contents[i].path]| == contents[i].size
              && rules.hash(files[contents[i].path]) == contents[i].digest && !Nested(Head(files[contents[i].path]))
    {
      assert ItemDelivered(entries, contents[i], rules);
    }
    forall e | e in entries && !IndexName(rules.fold(e.name)) ensures e.name in files && files[e.name] == e.data {
      EntryStaged(archive, rules, files, e);
    }
  }

  lemma EntryStaged(archive: Archive, rules: Rules, files: map<string, Bytes>, e: Entry)
    requires Accepted(archive, rules) && e in archive.entries && !IndexName(rules.fold(e.name))
    requires Holds(files, archive.entries, ReadManifest(archive.entries, rules).value.contents, rules.fold)
    ensures e.name in files && files[e.name] == e.data
  {
    var contents := ReadManifest(archive.entries, rules).value.contents;
    FindsItself(archive.entries, e, rules);
    var i :| 0 <= i < |contents| && rules.fold(contents[i].path) == rules.fold(e.name);
    assert ItemDelivered(archive.entries, contents[i], rules);
  }

  lemma FindsItself(entries: seq<Entry>, e: Entry, rules: Rules)
    requires EntriesFine(entries, rules) && e in entries
    ensures Find(entries, rules.fold(e.name), rules.fold) == Some(e)
  {
    var found := Find(entries, rules.fold(e.name), rules.fold);
    SameFoldSameEntry(entries, e, found.value, rules);
  }

  lemma SameFoldSameEntry(entries: seq<Entry>, a: Entry, b: Entry, rules: Rules)
    requires EntriesFine(entries, rules) && a in entries && b in entries
    ensures rules.fold(a.name) == rules.fold(b.name) ==> a == b
  {
    var i :| 0 <= i < |entries| && entries[i] == a;
    var j :| 0 <= j < |entries| && entries[j] == b;
    assert i < j ==> rules.fold(entries[i].name) != rules.fold(entries[j].name);
    assert j < i ==> rules.fold(entries[j].name) != rules.fold(entries[i].name);
  }

  /** Every member of an accepted archive is a plain file within the limits, no two with one folding, and the indexes
      say what is there: the checksum lines and the total are those of the manifest's contents. */
  lemma AcceptedIsPlain(archive: Archive, rules: Rules)
    requires Accepted(archive, rules)
    ensures 1 <= |archive.entries| <= 20000
    ensures |archive.bytes| <= 1073741824 && EntrySizes(archive.entries) <= 1073741824
    ensures forall e :: e in archive.entries ==>
              rules.safe(e.name) && (e.name != "" ==> e.name[|e.name| - 1] != '/') && e.kind in {0, 0x8000}
              && e.extra == 0 && !e.encrypted && (e.packing == Stored || e.packing == Deflated) && e.size <= 104857600
              && (e.compressed >= 1 ==> e.size <= 100 * e.compressed) && (e.compressed == 0 ==> e.size <= 100)
    ensures forall a, b :: a in archive.entries && b in archive.entries && rules.fold(a.name) == rules.fold(b.name)
                           ==> a == b
    ensures var manifest := ReadManifest(archive.entries, rules).value;
            var checksums := Find(archive.entries, "checksums.sha256", rules.fold);
            var index := Find(archive.entries, "manifest.json", rules.fold);
            rules.valid(manifest) && manifest.total == SizeSum(manifest.contents)
            && index.Some? && index.value.readable && index.value.size <= 16777216
            && rules.decode(index.value.data) == Some(manifest)
            && checksums.Some? && checksums.value.data == rules.utf8(ChecksumLines(manifest.contents))
            && forall item :: item in manifest.contents ==>
                 rules.safe(item.path) && item.path != "manifest.json" && item.path != "checksums.sha256"
  {
    forall a, b | a in archive.entries && b in archive.entries && rules.fold(a.name) == rules.fold(b.name)
      ensures a == b
    {
      SameFoldSameEntry(archive.entries, a, b, rules);
    }
  }

  /** No file of an accepted archive starts like an archive of its own. */
  lemma AcceptedHoldsNoArchive(archive: Archive, rules: Rules, files: map<string, Bytes>, path: string)
    requires Accepted(archive, rules) && path in files
    requires Holds(files, archive.entries, ReadManifest(archive.entries, rules).value.contents, rules.fold)
    ensures var raw := files[path];
            !([0x50, 0x4B, 3, 4] <= raw) && !([0x50, 0x4B, 5, 6] <= raw) && !([0x1F, 0x8B] <= raw)
            && !([0x37, 0x7A, 0xBC, 0xAF, 0x27, 0x1C] <= raw) && !([0x52, 0x61, 0x72, 0x21] <= raw)
            && !([0x42, 0x5A, 0x68] <= raw) && !([0xFD, 0x37, 0x7A, 0x58, 0x5A] <= raw)
            && (|raw| >= 262 ==> raw[257..262] != [0x75, 0x73, 0x74, 0x61, 0x72])
  {
    AcceptedYieldsManifest(archive, rules, files);
    NotNestedMeans(files[path]);
  }

  lemma NotNestedMeans(raw: Bytes)
    requires !Nested(Head(raw))
    ensures !([0x50, 0x4B, 3, 4] <= raw) && !([0x50, 0x4B, 5, 6] <= raw) && !([0x1F, 0x8B] <= raw)
            && !([0x37, 0x7A, 0xBC, 0xAF, 0x27, 0x1C] <= raw) && !([0x52, 0x61, 0x72, 0x21] <= raw)
            && !([0x42, 0x5A, 0x68] <= raw) && !([0xFD, 0x37, 0x7A, 0x58, 0x5A] <= raw)
    ensures |raw| >= 262 ==> raw[257..262] != [0x75, 0x73, 0x74, 0x61, 0x72]
  {
    forall i | 0 <= i < |MAGICS| ensures !(MAGICS[i] <= raw) { HeadStartsAlike(raw, MAGICS[i]); }
    assert MAGICS[0] == [0x50, 0x4B, 3, 4] && MAGICS[1] == [0x50, 0x4B, 5, 6] && MAGICS[2] == [0x1F, 0x8B];
    assert MAGICS[3] == [0x37, 0x7A, 0xBC, 0xAF, 0x27, 0x1C] && MAGICS[4] == [0x52, 0x61, 0x72, 0x21];
    assert MAGICS[5] == [0x42, 0x5A, 0x68] && MAGICS[6] == [0xFD, 0x37, 0x7A, 0x58, 0x5A];
    if |raw| >= 262 { assert Head(raw)[257..262] == raw[257..262]; }
  }

  lemma HeadStartsAlike(raw: Bytes, magic: Bytes)
    requires |magic| <= 512
    ensures magic <= raw ==> magic <= Head(raw)
  {
  }
}
