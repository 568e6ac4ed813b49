/**
The scanner that bounds a ZIP central directory before it is parsed (APPNOTE.TXT sections 4.3.12 and 4.3.16), and the
writer it must accept.
*/
module ZipIndex {
  import opened Options
  import opened Maps

  const MAX_FILES := 20000
  const MAX_DIRECTORY := 33554432
  const TAIL := 65557
  const END_SIGNATURE: Bytes := [0x50, 0x4B, 0x05, 0x06]
  const RECORD_SIGNATURE: Bytes := [0x50, 0x4B, 0x01, 0x02]

  datatype IndexError =
    IndexMissing | SplitOrOversized | Inconsistent | InvalidRecord | InvalidEntry | BeyondBoundary | CountDiffers

  // ---------------------------------------------------------------- little-endian numbers

  function Number(raw: Bytes): nat {
    if raw == [] then 0 else raw[0] + 256 * Number(raw[1..])
  }

  function LittleEndian(n: nat, width: nat): (raw: Bytes)
    ensures |raw| == width
  {
    if width == 0 then [] else [n % 256] + LittleEndian(n / 256, width - 1)
  }

  function Power256(width: nat): nat { if width == 0 then 1 else 256 * Power256(width - 1) }

  lemma {:induction false} NumberRoundTrip(n: nat, width: nat)
    requires n < Power256(width)
    ensures Number(LittleEndian(n, width)) == n
  {
    if width > 0 {
      NumberRoundTrip(n / 256, width - 1);
      assert LittleEndian(n, width)[1..] == LittleEndian(n / 256, width - 1);
    }
  }

  // ---------------------------------------------------------------- what an acceptable index is

  predicate SignatureAt(bytes: Bytes, pos: nat) { pos + 4 <= |bytes| && bytes[pos..pos + 4] == END_SIGNATURE }

  function Field(bytes: Bytes, pos: nat, from: nat, to: nat): nat
    requires from <= to && pos + to <= |bytes|
  {
    Number(bytes[pos + from..pos + to])
  }

  /** A central directory record without extra field, on the first disk. */
  predicate RecordAt(bytes: Bytes, pos: nat) {
    pos + 46 <= |bytes| && bytes[pos..pos + 4] == RECORD_SIGNATURE
    && 1 <= Field(bytes, pos, 28, 30) <= 16384 && Field(bytes, pos, 30, 32) == 0 && Field(bytes, pos, 34, 36) == 0
  }

  function RecordSize(bytes: Bytes, pos: nat): nat
    requires RecordAt(bytes, pos)
  {
    46 + Field(bytes, pos, 28, 30) + Field(bytes, pos, 32, 34)
  }

  /** Exactly `n` records cover the bytes from `pos` to `end`, with no gap and no overlap. */
  predicate Tiles(bytes: Bytes, pos: nat, end: nat, n: nat)
    decreases n
  {
    if n == 0 then pos == end
    else
      RecordAt(bytes, pos) && pos + RecordSize(bytes, pos) <= end
      && Tiles(bytes, pos + RecordSize(bytes, pos), end, n - 1)
  }

  /** The end record stands at `at` and describes a single-disk directory that stops right before it. */
  predicate EndRecordOk(bytes: Bytes, at: nat) {
    at + 22 <= |bytes|
    && Field(bytes, at, 4, 6) == 0 && Field(bytes, at, 6, 8) == 0
    && Field(bytes, at, 8, 10) == Field(bytes, at, 10, 12) && 1 <= Field(bytes, at, 10, 12) <= MAX_FILES
    && Field(bytes, at, 12, 16) <= MAX_DIRECTORY && Field(bytes, at, 16, 20) + Field(bytes, at, 12, 16) == at
    && at + 22 + Field(bytes, at, 20, 22) == |bytes|
  }

  /** `at` is the last end-record signature within the scanned tail. */
  ghost predicate LastSignature(bytes: Bytes, at: nat) {
    SignatureAt(bytes, at) && at + TAIL >= |bytes| && forall later :: at < later ==> !SignatureAt(bytes, later)
  }

  ghost predicate Acceptable(bytes: Bytes) {
    exists at :: LastSignature(bytes, at) && EndRecordOk(bytes, at)
                 && Tiles(bytes, Field(bytes, at, 16, 20), at, Field(bytes, at, 10, 12))
  }

  // ---------------------------------------------------------------- the scanner

  /** bytes.rfind over the tail. */
  method FindLast(bytes: Bytes, start: nat) returns (at: Option<nat>)
    requires start <= |bytes|
    ensures at.Some? ==> start <= at.value && SignatureAt(bytes, at.value) && forall later :: at.value < later
                                                                                 ==> !SignatureAt(bytes, later)
    ensures at.None? ==> forall pos :: start <= pos ==> !SignatureAt(bytes, pos)
  {
    var i := |bytes|;
    while i > start
      invariant start <= i <= |bytes| && forall pos :: i <= pos ==> !SignatureAt(bytes, pos)
    {
      i := i - 1;
      if i + 4 <= |bytes| && bytes[i..i + 4] == END_SIGNATURE { return Some(i); }
    }
    return None;
  }

  /** `scan_zip_index`. */
  method ScanZipIndex(bytes: Bytes) returns (error: Option<IndexError>)
    ensures error.None? <==> Acceptable(bytes)
  {
    var found := FindLast(bytes, if |bytes| > TAIL then |bytes| - TAIL else 0);
    if found.None? {
      assert forall at :: LastSignature(bytes, at) ==> SignatureAt(bytes, at);
      return Some(IndexMissing);
    }
    var at := found.value;
    forall other | LastSignature(bytes, other) ensures other == at {
      assert SignatureAt(bytes, other) && SignatureAt(bytes, at);
    }
    assert LastSignature(bytes, at);
    if at + 22 > |bytes| { return Some(IndexMissing); }
    var count, size, offset := Field(bytes, at, 10, 12), Field(bytes, at, 12, 16), Field(bytes, at, 16, 20);
    if Field(bytes, at, 4, 6) != 0 || Field(bytes, at, 6, 8) != 0 || Field(bytes, at, 8, 10) != count
       || !(1 <= count <= MAX_FILES) {
      return Some(SplitOrOversized);
    }
    if size > MAX_DIRECTORY || offset + size != at || at + 22 + Field(bytes, at, 20, 22) != |bytes| {
      return Some(Inconsistent);
    }
    error := ScanRecords(bytes, offset, size, count);
  }

  /** One header: its size when it is an acceptable record. */
  method ReadRecord(bytes: Bytes, pos: nat) returns (size: nat, error: Option<IndexError>)
    ensures error.None? <==> RecordAt(bytes, pos)
    ensures error.None? ==> size == RecordSize(bytes, pos)
  {
    if pos + 46 > |bytes| || bytes[pos..pos + 4] != RECORD_SIGNATURE { return 0, Some(InvalidRecord); }
    var name, extra, comment := Field(bytes, pos, 28, 30), Field(bytes, pos, 30, 32), Field(bytes, pos, 32, 34);
    if !(1 <= name <= 16384) || extra != 0 || Field(bytes, pos, 34, 36) != 0 { return 0, Some(InvalidEntry); }
    return 46 + name + extra + comment, None;
  }

  /** After `scanned` records the rest of the count must tile what is left. */
  predicate Remaining(bytes: Bytes, pos: nat, end: nat, count: nat, scanned: nat) {
    scanned <= count && Tiles(bytes, pos, end, count - scanned)
  }

  lemma RecordConsumed(bytes: Bytes, pos: nat, end: nat, count: nat, scanned: nat)
    requires pos < end
    ensures Remaining(bytes, pos, end, count, scanned)
            <==> RecordAt(bytes, pos) && pos + RecordSize(bytes, pos) <= end
                 && Remaining(bytes, pos + RecordSize(bytes, pos), end, count, scanned + 1)
  {
  }

  /** The record loop: it ends because every record consumes bytes, and accepts exactly a tiling. */
  method ScanRecords(bytes: Bytes, offset: nat, size: nat, count: nat) returns (error: Option<IndexError>)
    requires offset + size <= |bytes| && count <= MAX_FILES
    ensures error.None? <==> Tiles(bytes, offset, offset + size, count)
  {
    var scanned, consumed := 0, 0;
    while consumed < size
      invariant consumed <= size && scanned <= MAX_FILES
      invariant Tiles(bytes, offset, offset + size, count)
                <==> Remaining(bytes, offset + consumed, offset + size, count, scanned)
      decreases size - consumed
    {
      RecordConsumed(bytes, offset + consumed, offset + size, count, scanned);
      var record;
      record, error := ReadRecord(bytes, offset + consumed);
      if error.Some? { return; }
      scanned := scanned + 1;
      if scanned > MAX_FILES { return Some(InvalidEntry); }
      consumed := consumed + record;
      if consumed > size { return Some(BeyondBoundary); }
    }
    if scanned != count { return Some(CountDiffers); }
    return None;
  }

  // ---------------------------------------------------------------- the writer's side

  /** A record's variable parts; `version` is bytes 4..28 and `attributes` bytes 36..46 of its header. */
  datatype Entry = Entry(version: Bytes, name: Bytes, comment: Bytes, attributes: Bytes)

  predicate EntryOk(e: Entry) {
    |e.version| == 24 && |e.attributes| == 10 && 1 <= |e.name| <= 16384 && |e.comment| < 65536
  }

  function Header(e: Entry): Bytes {
    RECORD_SIGNATURE + e.version + LittleEndian(|e.name|, 2) + [0, 0] + LittleEndian(|e.comment|, 2) + [0, 0]
      + e.attributes
  }

  function EntryBytes(e: Entry): Bytes { Header(e) + e.name + e.comment }

  function Directory(entries: seq<Entry>): Bytes {
    if entries == [] then [] else EntryBytes(entries[0]) + Directory(entries[1..])
  }

  function EndRecord(count: nat, size: nat, offset: nat): Bytes {
    END_SIGNATURE + [0, 0, 0, 0] + LittleEndian(count, 2) + LittleEndian(count, 2) + LittleEndian(size, 4)
    + LittleEndian(offset, 4) + [0, 0]
  }

  /** File data, then the directory, then the end record without a comment. */
  function WriteIndex(data: Bytes, entries: seq<Entry>): Bytes {
    data + Directory(entries) + EndRecord(|entries|, |Directory(entries)|, |data|)
  }

  lemma Inside(before: Bytes, middle: Bytes, after: Bytes, from: nat, to: nat)
    requires from <= to <= |middle|
    ensures (before + middle + after)[|before| + from..|before| + to] == middle[from..to]
  {
  }

  lemma Widths()
    ensures Power256(2) == 65536 && Power256(4) == 4294967296
  {
    assert Power256(1) == 256 && Power256(2) == 65536 && Power256(3) == 16777216;
  }

  lemma HeaderFields(e: Entry)
    requires EntryOk(e)
    ensures var h := Header(e);
            |h| == 46 && h[0..4] == RECORD_SIGNATURE && Number(h[28..30]) == |e.name| && Number(h[30..32]) == 0
            && Number(h[32..34]) == |e.comment| && Number(h[34..36]) == 0
  {
    var h := Header(e);
    Widths();
    NumberRoundTrip(|e.name|, 2);
    NumberRoundTrip(|e.comment|, 2);
    assert h[28..30] == LittleEndian(|e.name|, 2) && h[32..34] == LittleEndian(|e.comment|, 2);
    assert h[30..32] == [0, 0] && h[34..36] == [0, 0];
    assert Number([0, 0]) == 0 by { assert [0, 0][1..] == [0]; assert Number([0]) == 0; }
  }

  lemma EntryScans(before: Bytes, e: Entry, after: Bytes)
    requires EntryOk(e)
    ensures var bytes := before + EntryBytes(e) + after;
            RecordAt(bytes, |before|) && RecordSize(bytes, |before|) == |EntryBytes(e)|
  {
    var bytes := before + EntryBytes(e) + after;
    HeaderFields(e);
    var h := Header(e);
    forall from, to | 0 <= from <= to <= 46 ensures bytes[|before| + from..|before| + to] == h[from..to] {
      Inside(before, EntryBytes(e), after, from, to);
      assert EntryBytes(e)[from..to] == h[from..to];
    }
    assert bytes[|before| + 0..|before| + 4] == h[0..4];
  }

  lemma {:induction false} DirectoryTiles(bytes: Bytes, before: Bytes, entries: seq<Entry>, after: Bytes)
    requires forall e :: e in entries ==> EntryOk(e)
    requires bytes == before + Directory(entries) + after
    ensures Tiles(bytes, |before|, |before| + |Directory(entries)|, |entries|)
    decreases |entries|
  {
    if entries != [] {
      var first, rest := EntryBytes(entries[0]), Directory(entries[1..]);
      Regrouped(before, first, rest, after);
      DirectoryTiles(bytes, before + first, entries[1..], after);
      EntryThenTiles(bytes, before, entries[0], rest, after, |entries| - 1);
    }
  }

  lemma EntryThenTiles(bytes: Bytes, before: Bytes, e: Entry, rest: Bytes, after: Bytes, n: nat)
    requires EntryOk(e) && bytes == before + EntryBytes(e) + (rest + after)
    requires Tiles(bytes, |before + EntryBytes(e)|, |before + EntryBytes(e)| + |rest|, n)
    ensures Tiles(bytes, |before|, |before| + |EntryBytes(e)| + |rest|, n + 1)
  {
    EntryScans(before, e, rest + after);
    FirstThenRest(bytes, |before|, |before| + |EntryBytes(e)| + |rest|, n + 1);
  }

  lemma Regrouped(before: Bytes, first: Bytes, rest: Bytes, after: Bytes)
    ensures before + (first + rest) + after == before + first + (rest + after) == (before + first) + rest + after
  {
  }

  lemma FirstThenRest(bytes: Bytes, pos: nat, end: nat, n: nat)
    requires n > 0 && RecordAt(bytes, pos) && pos + RecordSize(bytes, pos) <= end
    requires Tiles(bytes, pos + RecordSize(bytes, pos), end, n - 1)
    ensures Tiles(bytes, pos, end, n)
  {
  }

  lemma Middle(before: Bytes, middle: Bytes, after: Bytes)
    ensures (before + middle + after)[|before|..|before| + |middle|] == middle
  {
  }

  lemma ZerosAreZero(raw: Bytes)
    requires raw == [0, 0]
    ensures Number(raw) == 0
  {
    assert raw[1..] == [0];
    assert Number([0]) == 0 by { assert [0][1..] == []; }
  }

  lemma EndRecordCounts(count: nat, size: nat, offset: nat)
    ensures var r := EndRecord(count, size, offset);
            |r| == 22 && r[0..4] == END_SIGNATURE && r[4..6] == [0, 0] && r[6..8] == [0, 0] && r[20..22] == [0, 0]
            && r[8..10] == LittleEndian(count, 2) && r[10..12] == LittleEndian(count, 2)
  {
    var r, start, c := EndRecord(count, size, offset), END_SIGNATURE + [0, 0, 0, 0], LittleEndian(count, 2);
    var rest := LittleEndian(size, 4) + LittleEndian(offset, 4) + [0, 0];
    assert r == start + c + (c + rest) && r == (start + c) + c + rest;
    Middle(start, c, c + rest);
    Middle(start + c, c, rest);
    assert r[..8] == start && r[4..6] == start[4..6] && r[6..8] == start[6..8];
  }

  lemma EndRecordPlace(count: nat, size: nat, offset: nat)
    ensures var r := EndRecord(count, size, offset);
            r[12..16] == LittleEndian(size, 4) && r[16..20] == LittleEndian(offset, 4)
  {
    var start := END_SIGNATURE + [0, 0, 0, 0] + LittleEndian(count, 2) + LittleEndian(count, 2);
    var r := EndRecord(count, size, offset);
    assert r == start + LittleEndian(size, 4) + (LittleEndian(offset, 4) + [0, 0]);
    assert r == (start + LittleEndian(size, 4)) + LittleEndian(offset, 4) + [0, 0];
    Middle(start, LittleEndian(size, 4), LittleEndian(offset, 4) + [0, 0]);
    Middle(start + LittleEndian(size, 4), LittleEndian(offset, 4), [0, 0]);
  }

  lemma EndRecordFields(count: nat, size: nat, offset: nat)
    requires count < 65536 && size < 4294967296 && offset < 4294967296
    ensures var r := EndRecord(count, size, offset);
            |r| == 22 && r[0..4] == END_SIGNATURE && Number(r[4..6]) == 0 && Number(r[6..8]) == 0
            && Number(r[8..10]) == count && Number(r[10..12]) == count && Number(r[12..16]) == size
            && Number(r[16..20]) == offset && Number(r[20..22]) == 0
  {
    var r := EndRecord(count, size, offset);
    EndRecordCounts(count, size, offset);
    EndRecordPlace(count, size, offset);
    Widths();
    NumberRoundTrip(count, 2);
    NumberRoundTrip(size, 4);
    NumberRoundTrip(offset, 4);
    ZerosAreZero([0, 0]);
  }

  /** The end-record signature occurs again inside the end record. */
  predicate SignatureRecurs(endRecord: Bytes) {
    exists j :: 1 <= j <= 18 && SignatureAt(endRecord, j)
  }

  lemma EndRecordInPlace(before: Bytes, end: Bytes)
    requires |end| == 22
    ensures var (bytes, at) := (before + end, |before|);
            (forall from, to :: 0 <= from <= to <= 22 ==> bytes[at + from..at + to] == end[from..to])
            && forall later :: at < later ==> (SignatureAt(bytes, later)
                                               <==> later - at <= 18 && SignatureAt(end, later - at))
  {
    var bytes, at := before + end, |before|;
    forall from, to | 0 <= from <= to <= 22 ensures bytes[at + from..at + to] == end[from..to] {
      Inside(before, end, [], from, to);
      assert bytes == before + end + [];
    }
    forall later | at < later ensures SignatureAt(bytes, later) <==> later - at <= 18 && SignatureAt(end, later - at) {
      if later + 4 <= |bytes| { assert bytes[later..later + 4] == end[later - at..later - at + 4]; }
    }
  }

  lemma EndRecordAccepted(before: Bytes, count: nat, size: nat, offset: nat)
    requires 1 <= count <= MAX_FILES && size < 4294967296 && offset < 4294967296 && offset + size == |before|
    ensures var bytes := before + EndRecord(count, size, offset);
            SignatureAt(bytes, |before|) && (EndRecordOk(bytes, |before|) <==> size <= MAX_DIRECTORY)
            && Field(bytes, |before|, 10, 12) == count && Field(bytes, |before|, 16, 20) == offset
  {
    var end := EndRecord(count, size, offset);
    EndRecordFields(count, size, offset);
    FieldsInPlace(before, end);
  }

  lemma FieldsInPlace(before: Bytes, end: Bytes)
    requires |end| == 22
    ensures var (bytes, at) := (before + end, |before|);
            (SignatureAt(bytes, at) <==> end[0..4] == END_SIGNATURE)
            && Field(bytes, at, 4, 6) == Number(end[4..6]) && Field(bytes, at, 6, 8) == Number(end[6..8])
            && Field(bytes, at, 8, 10) == Number(end[8..10]) && Field(bytes, at, 10, 12) == Number(end[10..12])
            && Field(bytes, at, 12, 16) == Number(end[12..16]) && Field(bytes, at, 16, 20) == Number(end[16..20])
            && Field(bytes, at, 20, 22) == Number(end[20..22])
  {
    EndRecordInPlace(before, end);
    assert (before + end)[|before| + 0..|before| + 4] == end[0..4];
  }

  lemma LaterSignature(before: Bytes, end: Bytes, other: nat)
    requires |end| == 22 && LastSignature(before + end, other) && SignatureAt(before + end, |before|)
    ensures other >= |before| && (other > |before| <==> SignatureRecurs(end))
            && (other > |before| ==> !EndRecordOk(before + end, other))
  {
    var bytes, at := before + end, |before|;
    EndRecordInPlace(before, end);
    assert other >= at;
    if SignatureRecurs(end) {
      var j :| 1 <= j <= 18 && SignatureAt(end, j);
      assert SignatureAt(bytes, at + j);
    }
    if other > at { assert SignatureAt(end, other - at); }
  }

  /** An index of well-formed records is accepted exactly when it is small enough and its end record does not repeat
      the signature. */
  lemma WrittenIndexAccepted(data: Bytes, entries: seq<Entry>)
    requires 1 <= |entries| <= MAX_FILES && forall e :: e in entries ==> EntryOk(e)
    requires |Directory(entries)| < 4294967296 && |data| < 4294967296
    ensures Acceptable(WriteIndex(data, entries))
            <==> |Directory(entries)| <= MAX_DIRECTORY
                 && !SignatureRecurs(EndRecord(|entries|, |Directory(entries)|, |data|))
  {
    var before := data + Directory(entries);
    var end := EndRecord(|entries|, |Directory(entries)|, |data|);
    var bytes, at := WriteIndex(data, entries), |before|;
    assert bytes == before + end;
    EndRecordAccepted(before, |entries|, |Directory(entries)|, |data|);
    WrittenTiles(data, entries);
    AcceptableWhen(before, end);
  }

  lemma WrittenTiles(data: Bytes, entries: seq<Entry>)
    requires forall e :: e in entries ==> EntryOk(e)
    ensures Tiles(WriteIndex(data, entries), |data|, |data + Directory(entries)|, |entries|)
  {
    DirectoryTiles(WriteIndex(data, entries), data, entries, EndRecord(|entries|, |Directory(entries)|, |data|));
  }

  /** Only the written end record can be found: acceptance is decided there, unless its signature recurs. */
  lemma AcceptableWhen(before: Bytes, end: Bytes)
    requires |end| == 22 && SignatureAt(before + end, |before|)
    ensures var (bytes, at) := (before + end, |before|);
            Acceptable(bytes) <==> !SignatureRecurs(end) && EndRecordOk(bytes, at)
                                   && Tiles(bytes, Field(bytes, at, 16, 20), at, Field(bytes, at, 10, 12))
  {
    var bytes, at := before + end, |before|;
    forall other: nat | LastSignature(bytes, other)
      ensures (other == at <==> !SignatureRecurs(end)) && (other != at ==> !EndRecordOk(bytes, other))
    {
      LaterSignature(before, end, other);
    }
    if !SignatureRecurs(end) { OnlySignature(before, end); }
  }

  lemma OnlySignature(before: Bytes, end: Bytes)
    requires |end| == 22 && SignatureAt(before + end, |before|) && !SignatureRecurs(end)
    ensures LastSignature(before + end, |before|)
  {
    EndRecordInPlace(before, end);
    forall later | |before| < later ensures !SignatureAt(before + end, later) {
      assert SignatureAt(end, later - |before|) ==> later - |before| <= 18 ==> SignatureRecurs(end);
    }
  }

  /** An index whose directory starts at this offset is refused, whatever its entries: the offset reads as the
      signature. */
  lemma RecurringOffset(data: Bytes, entries: seq<Entry>)
    requires 1 <= |entries| <= MAX_FILES && |Directory(entries)| < 4294967296 && |data| == 0x06054B50
    requires forall e :: e in entries ==> EntryOk(e)
    ensures !Acceptable(WriteIndex(data, entries))
  {
    OffsetRecurs(|entries|, |Directory(entries)|);
    WrittenIndexAccepted(data, entries);
  }

  lemma OffsetRecurs(count: nat, size: nat)
    ensures SignatureRecurs(EndRecord(count, size, 0x06054B50))
  {
    EndRecordCounts(count, size, 0x06054B50);
    EndRecordPlace(count, size, 0x06054B50);
    SignatureAsNumber();
    assert SignatureAt(EndRecord(count, size, 0x06054B50), 16);
  }

  lemma SignatureAsNumber()
    ensures LittleEndian(0x06054B50, 4) == END_SIGNATURE
  {
    assert LittleEndian(0x06, 1) == [0x06] && LittleEndian(0x0605, 2) == [0x05, 0x06];
    assert LittleEndian(0x06054B, 3) == [0x4B, 0x05, 0x06];
  }
}
