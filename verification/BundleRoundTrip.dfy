/**
Staging a written bundle gives back the original files, and exactly when.
*/
module BundleRoundTrip {
  import opened Options
  import opened Maps
  import opened Bundle
  import opened BundleStaging
  import ZipIndex

  /** What the surrounding libraries promise. */
  ghost predicate Coherent(rules: Rules) {
    (forall m: Manifest :: rules.valid(m) && |rules.encode(m)| <= MAX_MANIFEST
        ==> rules.decode(rules.encode(m)) == Some(m))
    && rules.fold(MANIFEST) == MANIFEST && rules.fold(CHECKSUMS) == CHECKSUMS && rules.safe(MANIFEST)
       && rules.safe(CHECKSUMS)
    && forall name :: rules.safe(name) ==> name != "" && name[|name| - 1] != '/'
  }

  ghost predicate NoIndexFold(names: seq<string>, fold: string -> string) {
    forall i :: 0 <= i < |names| ==> !IndexName(fold(names[i]))
  }

  ghost predicate NoNameIsDirectory(names: seq<string>) {
    forall i, j :: 0 <= i < |names| && 0 <= j < |names| ==> !Below(names[i], names[j])
  }

  ghost predicate NoNestedArchive(names: seq<string>, files: map<string, Bytes>) {
    forall i :: 0 <= i < |names| ==> names[i] in files && !Nested(Head(files[names[i]]))
  }

  /** What a caller can check of the files and the finished archive. */
  ghost predicate Restorable(names: seq<string>, files: map<string, Bytes>, checksums: Bytes, bytes: Bytes,
                             rules: Rules) {
    NoIndexFold(names, rules.fold) && NoNameIsDirectory(names) && NoNestedArchive(names, files)
    && |checksums| <= MAX_FILE && |bytes| <= MAX_TOTAL && ZipIndex.Acceptable(bytes)
  }

  /** A written bundle's members, before packing: the two indexes, then the files. */
  ghost predicate Laid(entries: seq<Entry>, names: seq<string>, files: map<string, Bytes>, index: Bytes,
                       checksums: Bytes) {
    |entries| == |names| + 2 && entries[0] == StoredEntry(MANIFEST, index)
      && entries[1] == StoredEntry(CHECKSUMS, checksums)
    && (forall i :: 0 <= i < |names| ==> names[i] in files && entries[i + 2] == StoredEntry(names[i], files[names[i]]))
  }

  ghost predicate Lists(contents: seq<Content>, names: seq<string>, files: map<string, Bytes>, rules: Rules) {
    |contents| == |names|
    && forall i :: 0 <= i < |names| ==> names[i] in files && contents[i] == ContentOf(names[i], files[names[i]], rules)
  }

  lemma {:induction false} FileSizes(names: seq<string>, files: map<string, Bytes>, rules: Rules)
    requires forall i :: 0 <= i < |names| ==> names[i] in files
    ensures EntrySizes(FileEntries(names, files)) == SizeSum(ContentsOf(names, files, rules))
    decreases |names|
  {
    if names != [] {
      var shorter := names[..|names| - 1];
      FileSizes(shorter, files, rules);
      ListsWithoutLast(names, files, rules);
    }
  }

  lemma ListsWithoutLast(names: seq<string>, files: map<string, Bytes>, rules: Rules)
    requires names != [] && forall i :: 0 <= i < |names| ==> names[i] in files
    ensures FileEntries(names, files)[..|names| - 1] == FileEntries(names[..|names| - 1], files)
    ensures ContentsOf(names, files, rules)[..|names| - 1] == ContentsOf(names[..|names| - 1], files, rules)
  {
  }

  lemma {:induction false} SizesBoth(first: seq<Entry>, second: seq<Entry>)
    ensures EntrySizes(first + second) == EntrySizes(first) + EntrySizes(second)
    decreases |second|
  {
    if second == [] {
      assert first + second == first;
    } else {
      assert (first + second)[..|first + second| - 1] == first + second[..|second| - 1];
      SizesBoth(first, second[..|second| - 1]);
    }
  }

  lemma PairSizes(first: Entry, second: Entry)
    ensures EntrySizes([first, second]) == first.size + second.size
  {
    assert [first, second][..1] == [first] && [first][..0] == [];
    assert EntrySizes([first]) == first.size;
  }

  lemma WrittenSizes(names: seq<string>, files: map<string, Bytes>, manifest: Manifest, rules: Rules)
    requires (forall i :: 0 <= i < |names| ==> names[i] in files)
             && manifest.contents == ContentsOf(names, files, rules)
    ensures EntrySizes(WrittenEntries(names, files, manifest, rules))
            == |rules.encode(manifest)| + |rules.utf8(ChecksumLines(manifest.contents))| + SizeSum(manifest.contents)
  {
    var index := StoredEntry(MANIFEST, rules.encode(manifest));
    var checksums := StoredEntry(CHECKSUMS, rules.utf8(ChecksumLines(manifest.contents)));
    PairSizes(index, checksums);
    FileSizes(names, files, rules);
    SizesBoth([index, checksums], FileEntries(names, files));
  }

  lemma StoredFine(name: string, raw: Bytes, rules: Rules)
    requires Coherent(rules) && rules.safe(name)
    ensures EntryFine(StoredEntry(name, raw), rules) <==> |raw| <= MAX_FILE
  {
  }

  lemma LaidEachFine(entries: seq<Entry>, names: seq<string>, files: map<string, Bytes>, index: Bytes, checksums: Bytes,
                     rules: Rules)
    requires Laid(entries, names, files, index, checksums) && Coherent(rules) && |index| <= MAX_FILE
    requires forall i :: 0 <= i < |names| ==> NameWritable(names[i], files, rules)
    ensures (forall i :: 0 <= i < |entries| ==> EntryFine(entries[i], rules)) <==> |checksums| <= MAX_FILE
  {
    StoredFine(MANIFEST, index, rules);
    StoredFine(CHECKSUMS, checksums, rules);
    forall i | 2 <= i < |entries| ensures EntryFine(entries[i], rules) {
      assert NameWritable(names[i - 2], files, rules);
      assert entries[i - 2 + 2] == StoredEntry(names[i - 2], files[names[i - 2]]);
      StoredFine(names[i - 2], files[names[i - 2]], rules);
    }
  }

  /** The folded names of the members. */
  ghost predicate FoldsLaid(folds: seq<string>, names: seq<string>, fold: string -> string) {
    |folds| == |names| + 2 && folds[0] == MANIFEST && folds[1] == CHECKSUMS
    && forall i :: 0 <= i < |names| ==> folds[i + 2] == fold(names[i])
  }

  ghost predicate Distinct(folds: seq<string>) { forall i, j :: 0 <= i < j < |folds| ==> folds[i] != folds[j] }

  lemma IndexNamesDiffer()
    ensures MANIFEST != CHECKSUMS
  {
    assert MANIFEST[0] != CHECKSUMS[0];
  }

  /** The index is unambiguous exactly when no file name folds to an index name. */
  lemma FoldsDistinctWhen(folds: seq<string>, names: seq<string>, fold: string -> string)
    requires FoldsLaid(folds, names, fold)
    requires forall i, j :: 0 <= i < j < |names| ==> fold(names[i]) != fold(names[j])
    ensures Distinct(folds) <==> NoIndexFold(names, fold)
  {
    IndexNamesDiffer();
    if Distinct(folds) {
      forall i | 0 <= i < |names| ensures !IndexName(fold(names[i])) {
        assert folds[0] != folds[i + 2] && folds[1] != folds[i + 2];
      }
    }
    if NoIndexFold(names, fold) {
      forall i, j | 0 <= i < j < |folds| ensures folds[i] != folds[j] {
        if j >= 2 {
          assert folds[j] == fold(names[j - 2]);
          assert i >= 2 ==> folds[i] == fold(names[i - 2]);
          assert !IndexName(fold(names[j - 2]));
        }
      }
    }
  }

  lemma LaidFine(entries: seq<Entry>, names: seq<string>, files: map<string, Bytes>, index: Bytes, checksums: Bytes,
                 rules: Rules)
    requires Laid(entries, names, files, index, checksums) && Coherent(rules) && |index| <= MAX_FILE
             && NamesWritable(names, files, rules)
    ensures EntriesFine(entries, rules) <==> NoIndexFold(names, rules.fold) && |checksums| <= MAX_FILE
  {
    LaidEachFine(entries, names, files, index, checksums, rules);
    var folds := seq(|entries|, i requires 0 <= i < |entries| => rules.fold(entries[i].name));
    FoldsDistinctWhen(folds, names, rules.fold);
    if Distinct(folds) {
      forall i, j | 0 <= i < j < |entries| ensures rules.fold(entries[i].name) != rules.fold(entries[j].name) {
        assert folds[i] != folds[j];
      }
    }
    if forall i, j :: 0 <= i < j < |entries| ==> rules.fold(entries[i].name) != rules.fold(entries[j].name) {
      forall i, j | 0 <= i < j < |folds| ensures folds[i] != folds[j] {
        assert folds[i] == rules.fold(entries[i].name) && folds[j] == rules.fold(entries[j].name);
      }
    }
  }

  lemma LaidFound(entries: seq<Entry>, names: seq<string>, files: map<string, Bytes>, index: Bytes, checksums: Bytes,
                  rules: Rules)
    requires Laid(entries, names, files, index, checksums) && Coherent(rules) && EntriesFine(entries, rules)
    ensures Find(entries, MANIFEST, rules.fold) == Some(StoredEntry(MANIFEST, index))
    ensures Find(entries, CHECKSUMS, rules.fold) == Some(StoredEntry(CHECKSUMS, checksums))
    ensures forall i :: 0 <= i < |names| ==>
              names[i] in files
              && Find(entries, rules.fold(names[i]), rules.fold) == Some(StoredEntry(names[i], files[names[i]]))
  {
    FindsItself(entries, entries[0], rules);
    FindsItself(entries, entries[1], rules);
    forall i | 0 <= i < |names|
      ensures names[i] in files
      ensures Find(entries, rules.fold(names[i]), rules.fold) == Some(StoredEntry(names[i], files[names[i]]))
    {
      assert entries[i + 2] in entries;
      FindsItself(entries, entries[i + 2], rules);
    }
  }

  lemma LaidKey(entries: seq<Entry>, names: seq<string>, files: map<string, Bytes>, index: Bytes, checksums: Bytes,
                rules: Rules, key: string)
    requires Laid(entries, names, files, index, checksums) && Coherent(rules) && Find(entries, key, rules.fold).Some?
    ensures IndexName(key) || exists i :: 0 <= i < |names| && rules.fold(names[i]) == key
  {
    var found := Find(entries, key, rules.fold).value;
    var i :| 0 <= i < |entries| && entries[i] == found;
    if i >= 2 {
      assert entries[i - 2 + 2] == StoredEntry(names[i - 2], files[names[i - 2]]);
      assert rules.fold(names[i - 2]) == key;
    }
  }

  lemma LaidSameNames(
    entries: seq<Entry>, names: seq<string>, files: map<string, Bytes>, index: Bytes, checksums: Bytes,
    contents: seq<Content>, rules: Rules)
    requires Laid(entries, names, files, index, checksums) && Lists(contents, names, files, rules) && Coherent(rules)
    requires EntriesFine(entries, rules)
    ensures SameNames(entries, contents, rules.fold)
  {
    LaidFound(entries, names, files, index, checksums, rules);
    ListedFolds(names, files, contents, rules);
    forall key ensures Find(entries, key, rules.fold).Some? <==> IndexName(key) || Folded(contents, key, rules.fold) {
      if Find(entries, key, rules.fold).Some? { LaidKey(entries, names, files, index, checksums, rules, key); }
    }
  }

  lemma ListedFolds(names: seq<string>, files: map<string, Bytes>, contents: seq<Content>, rules: Rules)
    requires Lists(contents, names, files, rules)
    ensures forall key :: Folded(contents, key, rules.fold)
               <==> exists i :: 0 <= i < |names| && rules.fold(names[i]) == key
  {
    assert forall i :: 0 <= i < |names| ==> contents[i].path == names[i];
    forall key ensures Folded(contents, key, rules.fold)
           <==> exists i :: 0 <= i < |names| && rules.fold(names[i]) == key {
      if exists i :: 0 <= i < |names| && rules.fold(names[i]) == key {
        var i :| 0 <= i < |names| && rules.fold(names[i]) == key;
        assert rules.fold(contents[i].path) == key;
      }
    }
  }

  lemma ListedFine(names: seq<string>, files: map<string, Bytes>, contents: seq<Content>, rules: Rules)
    requires Lists(contents, names, files, rules) && NamesWritable(names, files, rules)
    ensures ContentsFine(contents, rules)
  {
    forall i | 0 <= i < |contents| ensures rules.safe(contents[i].path) && !IndexName(contents[i].path) {
      assert NameWritable(names[i], files, rules);
    }
  }

  lemma ListedConflictFree(names: seq<string>, files: map<string, Bytes>, contents: seq<Content>, rules: Rules)
    requires Lists(contents, names, files, rules)
    ensures NoPathIsDirectory(contents) <==> NoNameIsDirectory(names)
  {
    forall i, j | 0 <= i < |names| && 0 <= j < |names| ensures Below(contents[i].path, contents[j].path)
           <==> Below(names[i], names[j]) {
    }
    if NoPathIsDirectory(contents) {
      forall i, j | 0 <= i < |names| && 0 <= j < |names| ensures !Below(names[i], names[j]) {
        assert !Below(contents[i].path, contents[j].path);
      }
    }
  }

  lemma StoredDelivers(name: string, raw: Bytes, rules: Rules)
    ensures Delivers(StoredEntry(name, raw), ContentOf(name, raw, rules), rules) <==> !Nested(Head(raw))
  {
  }

  lemma ListedDelivers(
    entries: seq<Entry>, names: seq<string>, files: map<string, Bytes>, index: Bytes, checksums: Bytes,
    contents: seq<Content>, rules: Rules)
    requires Laid(entries, names, files, index, checksums) && Lists(contents, names, files, rules) && Coherent(rules)
    requires EntriesFine(entries, rules)
    ensures (forall i :: 0 <= i < |contents| ==> ItemDelivered(entries, contents[i], rules))
            <==> NoNestedArchive(names, files)
  {
    LaidFound(entries, names, files, index, checksums, rules);
    forall i | 0 <= i < |names|
      ensures names[i] in files && (ItemDelivered(entries, contents[i], rules) <==> !Nested(Head(files[names[i]])))
    {
      StoredDelivers(names[i], files[names[i]], rules);
    }
  }

  /** All that is known of a bundle after writing it. */
  ghost predicate Written(entries: seq<Entry>, names: seq<string>, files: map<string, Bytes>, manifest: Manifest,
                          rules: Rules) {
    Laid(entries, names, files, rules.encode(manifest), rules.utf8(ChecksumLines(manifest.contents)))
    && Lists(manifest.contents, names, files, rules) && NamesWritable(names, files, rules)
       && 0 < |names| <= MAX_FILES - 2
    && manifest.total == SizeSum(manifest.contents) && ManifestWritable(manifest, rules)
       && EntrySizes(entries) <= MAX_TOTAL
  }

  lemma WrittenManifestHolds(entries: seq<Entry>, names: seq<string>, files: map<string, Bytes>, manifest: Manifest,
                             rules: Rules)
    requires Written(entries, names, files, manifest, rules) && Coherent(rules) && EntriesFine(entries, rules)
    ensures ReadManifest(entries, rules) == Some(manifest) && Find(entries, CHECKSUMS, rules.fold) == Some(entries[1])
    ensures ManifestHolds(entries, manifest, entries[1], rules)
            <==> NoNestedArchive(names, files) && NoNameIsDirectory(names)
  {
    var index, checksums := rules.encode(manifest), rules.utf8(ChecksumLines(manifest.contents));
    LaidFound(entries, names, files, index, checksums, rules);
    LaidSameNames(entries, names, files, index, checksums, manifest.contents, rules);
    ListedFine(names, files, manifest.contents, rules);
    ListedConflictFree(names, files, manifest.contents, rules);
    ListedDelivers(entries, names, files, index, checksums, manifest.contents, rules);
  }

  lemma WrittenIndexFine(archive: Archive, names: seq<string>, files: map<string, Bytes>, manifest: Manifest,
                         rules: Rules)
    requires Written(archive.entries, names, files, manifest, rules) && Coherent(rules)
    ensures IndexFine(archive, rules)
            <==> NoIndexFold(names, rules.fold) && |rules.utf8(ChecksumLines(manifest.contents))| <= MAX_FILE
                 && |archive.bytes| <= MAX_TOTAL && ZipIndex.Acceptable(archive.bytes)
  {
    LaidFine(archive.entries, names, files, rules.encode(manifest), rules.utf8(ChecksumLines(manifest.contents)),
             rules);
  }

  lemma WrittenAccepted(archive: Archive, names: seq<string>, files: map<string, Bytes>, manifest: Manifest,
                        rules: Rules)
    requires Written(archive.entries, names, files, manifest, rules) && Coherent(rules)
    ensures Accepted(archive, rules) <==> Restorable(names, files, rules.utf8(ChecksumLines(manifest.contents)),
                                                     archive.bytes, rules)
    ensures Accepted(archive, rules) ==> ReadManifest(archive.entries, rules) == Some(manifest)
  {
    WrittenIndexFine(archive, names, files, manifest, rules);
    if IndexFine(archive, rules) { WrittenManifestHolds(archive.entries, names, files, manifest, rules); }
  }

  /** What is staged from the manifest of a written bundle is the original file map. */
  lemma WrittenHolds(
    staged: map<string, Bytes>, entries: seq<Entry>, names: seq<string>, files: map<string, Bytes>, index: Bytes,
    checksums: Bytes,
    contents: seq<Content>, rules: Rules)
    requires Enumerates(names, files) && Laid(entries, names, files, index, checksums)
             && Lists(contents, names, files, rules)
    requires Coherent(rules) && EntriesFine(entries, rules) && Holds(staged, entries, contents, rules.fold)
    ensures staged == files
  {
    LaidFound(entries, names, files, index, checksums, rules);
    HeldByName(staged, entries, names, files, contents, rules);
    SameByName(staged, names, files);
  }

  lemma HeldByName(
    staged: map<string, Bytes>, entries: seq<Entry>, names: seq<string>, files: map<string, Bytes>,
    contents: seq<Content>, rules: Rules)
    requires Lists(contents, names, files, rules) && Holds(staged, entries, contents, rules.fold)
    requires forall i :: 0 <= i < |names| ==>
               names[i] in files
               && Find(entries, rules.fold(names[i]), rules.fold) == Some(StoredEntry(names[i], files[names[i]]))
    ensures forall i :: 0 <= i < |names| ==> names[i] in staged && staged[names[i]] == files[names[i]]
    ensures forall p :: p in staged ==> p in names
  {
    assert forall i :: 0 <= i < |names| ==> contents[i].path == names[i] && names[i] in files;
    forall p | p in staged ensures p in names {
      var i :| 0 <= i < |contents| && contents[i].path == p;
      assert names[i] == p;
    }
  }

  lemma SameByName(staged: map<string, Bytes>, names: seq<string>, files: map<string, Bytes>)
    requires Enumerates(names, files) && forall p :: p in staged ==> p in names
    requires forall i :: 0 <= i < |names| ==> names[i] in staged && staged[names[i]] == files[names[i]]
    ensures staged == files
  {
    assert forall name :: name in names ==> name in staged && name in files && staged[name] == files[name];
  }

  /** The round trip: a written bundle is accepted exactly when it is restorable, and then gives back the original
      files and manifest. */
  lemma StagingUndoesWriting(
    names: seq<string>, files: map<string, Bytes>, origin: Origin, archive: Archive, rules: Rules,
    staged: map<string, Bytes>)
    requires Coherent(rules) && Enumerates(names, files) && Writable(names, files, origin, rules)
    requires archive == Packed(WrittenEntries(names, files, ManifestOf(names, files, origin, rules), rules), rules)
    ensures var manifest := ManifestOf(names, files, origin, rules);
            (Accepted(archive, rules) <==> Restorable(names, files, rules.utf8(ChecksumLines(manifest.contents)),
                                                      archive.bytes, rules))
            && (Accepted(archive, rules)
                ==> ReadManifest(archive.entries, rules) == Some(manifest)
                    && (Holds(staged, archive.entries, manifest.contents, rules.fold) ==> staged == files))
  {
    var manifest := ManifestOf(names, files, origin, rules);
    WrittenSizes(names, files, manifest, rules);
    WrittenAccepted(archive, names, files, manifest, rules);
    if Accepted(archive, rules) && Holds(staged, archive.entries, manifest.contents, rules.fold) {
      WrittenHolds(staged, archive.entries, names, files, rules.encode(manifest),
                   rules.utf8(ChecksumLines(manifest.contents)),
                   manifest.contents, rules);
    }
  }

  /** The index limit in terms of the layout: the directory is small enough and its end record does not repeat the
      signature. */
  lemma IndexAccepted(entries: seq<Entry>, rules: Rules)
    requires 1 <= |entries| <= MAX_FILES && forall i :: 0 <= i < |entries|
                                               ==> ZipIndex.EntryOk(rules.header(entries[i]))
    requires |Packed(entries, rules).bytes| <= MAX_TOTAL
    ensures var (locals, headers) := (rules.locals(entries), Headers(entries, rules.header));
            ZipIndex.Acceptable(Packed(entries, rules).bytes)
            <==> |ZipIndex.Directory(headers)| <= ZipIndex.MAX_DIRECTORY
                 && !ZipIndex.SignatureRecurs(ZipIndex.EndRecord(|entries|, |ZipIndex.Directory(headers)|, |locals|))
  {
    ZipIndex.WrittenIndexAccepted(rules.locals(entries), Headers(entries, rules.header));
  }

  /** Writing and staging in one go. */
  method WriteThenStage(names: seq<string>, files: map<string, Bytes>, origin: Origin, rules: Rules)
    returns (staged: Option<Staged>)
    requires Coherent(rules) && Enumerates(names, files) && Writable(names, files, origin, rules)
    ensures var manifest := ManifestOf(names, files, origin, rules);
            var archive := Packed(WrittenEntries(names, files, manifest, rules), rules);
            staged == if Restorable(names, files, rules.utf8(ChecksumLines(manifest.contents)), archive.bytes, rules)
                      then Some(Staged(files, manifest)) else None
  {
    var archive := WriteBundle(names, files, origin, rules);
    staged := Stage(archive.value, rules);
    StagingUndoesWriting(names, files, origin, archive.value, rules, if staged.Some? then staged.value.files
                         else files);
  }
}
