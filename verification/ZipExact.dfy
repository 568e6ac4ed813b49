/** The scanner accepts exactly what the format's writer can have written, with any comment at its end. */
module ZipExact {
  import opened Options
  import opened Maps
  import opened ZipIndex

  // ---------------------------------------------------------------- numbers, the other way round

  lemma {:induction false} BytesRoundTrip(raw: Bytes)
    ensures Number(raw) < Power256(|raw|) && LittleEndian(Number(raw), |raw|) == raw
    decreases |raw|
  {
    if raw != [] {
      BytesRoundTrip(raw[1..]);
      LowestByte(raw[0], Number(raw[1..]));
      assert raw == [raw[0]] + raw[1..];
    }
  }

  lemma LowestByte(low: nat, rest: nat)
    requires low < 256
    ensures (low + 256 * rest) % 256 == low && (low + 256 * rest) / 256 == rest
  {
  }

  lemma ZeroBytes(raw: Bytes)
    requires |raw| == 2
    ensures Number(raw) == 0 <==> raw == [0, 0]
  {
    BytesRoundTrip(raw);
    ZerosAreZero([0, 0]);
  }

  lemma SliceOfSlice(raw: Bytes, a: nat, b: nat, from: nat, to: nat)
    requires a <= b <= |raw| && from <= to <= b - a
    ensures raw[a..b][from..to] == raw[a + from..a + to]
  {
    var (x, y) := (raw[a..b][from..to], raw[a + from..a + to]);
    assert |x| == |y|;
    forall k | 0 <= k < |x| ensures x[k] == y[k] { assert x[k] == raw[a..b][from + k] == raw[a + from + k]; }
  }

  /** Six neighbouring pieces make up the whole. */
  lemma SixPieces(raw: Bytes, a: nat, b: nat, c: nat, d: nat, e: nat)
    requires a <= b <= c <= d <= e <= |raw|
    ensures raw == raw[..a] + raw[a..b] + raw[b..c] + raw[c..d] + raw[d..e] + raw[e..]
  {
    assert raw == raw[..e] + raw[e..] && raw[..e] == raw[..d] + raw[d..e] && raw[..d] == raw[..c] + raw[c..d];
    assert raw[..c] == raw[..b] + raw[b..c] && raw[..b] == raw[..a] + raw[a..b];
  }

  // ---------------------------------------------------------------- one record

  /** The entry that the bytes of a record spell. */
  function EntryIn(raw: Bytes): Entry
    requires |raw| >= 46 && 46 + Number(raw[28..30]) <= |raw|
  {
    var name := Number(raw[28..30]);
    Entry(raw[4..28], raw[46..46 + name], raw[46 + name..], raw[36..46])
  }

  lemma HeaderIsWritten(raw: Bytes)
    requires |raw| >= 46 && raw[0..4] == RECORD_SIGNATURE && |raw| == 46 + Number(raw[28..30]) + Number(raw[32..34])
    requires Number(raw[30..32]) == 0 && Number(raw[34..36]) == 0
    ensures Header(EntryIn(raw)) == raw[..46]
  {
    var e, h := EntryIn(raw), raw[..46];
    assert h[0..4] == raw[0..4] && h[4..28] == raw[4..28] && h[28..30] == raw[28..30] && h[30..32] == raw[30..32];
    assert h[32..34] == raw[32..34] && h[34..36] == raw[34..36] && h[36..46] == raw[36..46];
    BytesRoundTrip(raw[28..30]);
    BytesRoundTrip(raw[32..34]);
    ZeroBytes(raw[30..32]);
    ZeroBytes(raw[34..36]);
    SixPieces(h, 4, 28, 30, 32, 34);
    assert h[34..] == h[34..36] + h[36..46];
    assert |e.name| == Number(raw[28..30]) && |e.comment| == Number(raw[32..34]);
  }

  /** The bytes of an acceptable record are what the writer makes of the entry they spell. */
  lemma RecordIsWritten(raw: Bytes)
    requires RecordAt(raw, 0) && RecordSize(raw, 0) == |raw|
    ensures EntryOk(EntryIn(raw)) && EntryBytes(EntryIn(raw)) == raw
  {
    assert raw[0 + 28..0 + 30] == raw[28..30] && raw[0 + 30..0 + 32] == raw[30..32];
    assert raw[0 + 32..0 + 34] == raw[32..34] && raw[0 + 34..0 + 36] == raw[34..36];
    BytesRoundTrip(raw[32..34]);
    Widths();
    HeaderIsWritten(raw);
    var name := Number(raw[28..30]);
    assert raw == raw[..46] + raw[46..46 + name] + raw[46 + name..];
  }

  /** A record stands at a place exactly when the writer's bytes of some entry do. */
  lemma RecordExactlyWhen(bytes: Bytes, pos: nat, end: nat)
    requires pos <= end <= |bytes|
    ensures RecordAt(bytes, pos) && pos + RecordSize(bytes, pos) == end
            <==> exists e :: EntryOk(e) && EntryBytes(e) == bytes[pos..end]
  {
    var raw := bytes[pos..end];
    assert bytes == bytes[..pos] + raw + bytes[end..];
    if RecordAt(bytes, pos) && pos + RecordSize(bytes, pos) == end {
      RecordMoves(bytes, pos, end);
      RecordIsWritten(raw);
    }
    if e :| EntryOk(e) && EntryBytes(e) == raw { EntryScans(bytes[..pos], e, bytes[end..]); }
  }

  lemma FieldMoves(bytes: Bytes, pos: nat, end: nat, from: nat, to: nat)
    requires pos <= end <= |bytes| && from <= to <= end - pos
    ensures Field(bytes[pos..end], 0, from, to) == Field(bytes, pos, from, to)
  {
    SliceOfSlice(bytes, pos, end, from, to);
    assert bytes[pos..end][0 + from..0 + to] == bytes[pos..end][from..to];
  }

  lemma RecordMoves(bytes: Bytes, pos: nat, end: nat)
    requires end <= |bytes| && RecordAt(bytes, pos) && pos + RecordSize(bytes, pos) == end
    ensures RecordAt(bytes[pos..end], 0) && RecordSize(bytes[pos..end], 0) == end - pos
  {
    FieldMoves(bytes, pos, end, 28, 30);
    FieldMoves(bytes, pos, end, 30, 32);
    FieldMoves(bytes, pos, end, 32, 34);
    FieldMoves(bytes, pos, end, 34, 36);
    SliceOfSlice(bytes, pos, end, 0, 4);
  }

  // ---------------------------------------------------------------- the directory

  ghost predicate Writes(entries: seq<Entry>, n: nat, raw: Bytes) {
    |entries| == n && (forall e :: e in entries ==> EntryOk(e)) && Directory(entries) == raw
  }

  /** Records tile a stretch exactly when it is a written directory of that many entries. */
  lemma {:induction false} TilesExactlyWhen(bytes: Bytes, pos: nat, end: nat, n: nat)
    requires pos <= end <= |bytes|
    ensures Tiles(bytes, pos, end, n) <==> exists entries :: Writes(entries, n, bytes[pos..end])
    decreases n
  {
    if Tiles(bytes, pos, end, n) { var entries := TilesAreWritten(bytes, pos, end, n); }
    if entries :| Writes(entries, n, bytes[pos..end]) {
      assert bytes == bytes[..pos] + bytes[pos..end] + bytes[end..];
      DirectoryTiles(bytes, bytes[..pos], entries, bytes[end..]);
    }
  }

  lemma {:induction false} TilesAreWritten(bytes: Bytes, pos: nat, end: nat, n: nat) returns (entries: seq<Entry>)
    requires pos <= end <= |bytes| && Tiles(bytes, pos, end, n)
    ensures Writes(entries, n, bytes[pos..end])
    decreases n
  {
    entries := [];
    if n > 0 {
      var next := pos + RecordSize(bytes, pos);
      var rest := TilesAreWritten(bytes, next, end, n - 1);
      RecordExactlyWhen(bytes, pos, next);
      var e :| EntryOk(e) && EntryBytes(e) == bytes[pos..next];
      entries := [e] + rest;
      assert bytes[pos..end] == bytes[pos..next] + bytes[next..end];
      assert entries[1..] == rest;
    }
  }

  // ---------------------------------------------------------------- the whole archive

  /** The end record with a comment of the given length. */
  function EndWith(count: nat, size: nat, offset: nat, comment: nat): (r: Bytes)
    ensures |r| == 22
  {
    END_SIGNATURE + [0, 0, 0, 0] + LittleEndian(count, 2) + LittleEndian(count, 2) + LittleEndian(size, 4)
    + LittleEndian(offset, 4) + LittleEndian(comment, 2)
  }

  /** An archive as the format has it: whatever stands first, the directory, the end record and a comment. */
  function WithComment(data: Bytes, entries: seq<Entry>, comment: Bytes): Bytes {
    data + Directory(entries) + (EndWith(|entries|, |Directory(entries)|, |data|, |comment|) + comment)
  }

  lemma NoCommentIsWritten(data: Bytes, entries: seq<Entry>)
    ensures WithComment(data, entries, []) == WriteIndex(data, entries)
  {
    assert LittleEndian(0, 1) == [0] && LittleEndian(0, 2) == [0, 0];
    var end := EndWith(|entries|, |Directory(entries)|, |data|, 0);
    assert end + [] == end == EndRecord(|entries|, |Directory(entries)|, |data|);
  }

  /** The pieces of an end record, by their places. */
  predicate EndPieces(raw: Bytes, count: nat, size: nat, offset: nat, comment: nat)
    requires |raw| == 22
  {
    raw[0..4] == END_SIGNATURE && Number(raw[4..6]) == 0 && Number(raw[6..8]) == 0 && Number(raw[8..10]) == count
    && Number(raw[10..12]) == count && Number(raw[12..16]) == size && Number(raw[16..20]) == offset
    && Number(raw[20..22]) == comment
  }

  lemma EndWithPieces(count: nat, size: nat, offset: nat, comment: nat)
    requires count < 65536 && size < 4294967296 && offset < 4294967296 && comment < 65536
    ensures EndPieces(EndWith(count, size, offset, comment), count, size, offset, comment)
  {
    var r, o := EndWith(count, size, offset, comment), EndRecord(count, size, offset);
    EndRecordFields(count, size, offset);
    assert r[0..20] == o[0..20] && r[20..22] == LittleEndian(comment, 2);
    SameSlices(r, o, 0, 4);
    SameSlices(r, o, 4, 6);
    SameSlices(r, o, 6, 8);
    SameSlices(r, o, 8, 10);
    SameSlices(r, o, 10, 12);
    SameSlices(r, o, 12, 16);
    SameSlices(r, o, 16, 20);
    Widths();
    NumberRoundTrip(comment, 2);
  }

  lemma SameSlices(a: Bytes, b: Bytes, from: nat, to: nat)
    requires |a| >= 20 && |b| >= 20 && a[0..20] == b[0..20] && from <= to <= 20
    ensures a[from..to] == b[from..to]
  {
    SliceOfSlice(a, 0, 20, from, to);
    SliceOfSlice(b, 0, 20, from, to);
  }

  lemma EndPiecesWhole(raw: Bytes, count: nat, size: nat, offset: nat, comment: nat)
    requires |raw| == 22 && EndPieces(raw, count, size, offset, comment)
    ensures raw == EndWith(count, size, offset, comment)
    ensures count < 65536 && size < 4294967296 && offset < 4294967296 && comment < 65536
  {
    Widths();
    BytesRoundTrip(raw[8..10]);
    BytesRoundTrip(raw[10..12]);
    BytesRoundTrip(raw[12..16]);
    BytesRoundTrip(raw[16..20]);
    BytesRoundTrip(raw[20..22]);
    ZeroBytes(raw[4..6]);
    ZeroBytes(raw[6..8]);
    SixPieces(raw, 8, 10, 12, 16, 20);
    assert raw[..8] == raw[0..4] + raw[4..6] + raw[6..8] == END_SIGNATURE + [0, 0, 0, 0];
    assert raw[20..] == raw[20..22];
  }

  /** What an acceptable archive is, from the writer's side. */
  ghost predicate Written(bytes: Bytes, data: Bytes, entries: seq<Entry>, comment: Bytes) {
    bytes == WithComment(data, entries, comment) && 1 <= |entries| <= MAX_FILES
    && (forall e :: e in entries ==> EntryOk(e))
    && |Directory(entries)| <= MAX_DIRECTORY && |data| < 4294967296 && |comment| < 65536
    && forall later: nat :: |data| + |Directory(entries)| < later ==> !SignatureAt(bytes, later)
  }

  lemma EndFields(bytes: Bytes, at: nat)
    requires at + 22 <= |bytes|
    ensures var raw := bytes[at..at + 22];
            (SignatureAt(bytes, at) <==> raw[0..4] == END_SIGNATURE)
            && Field(bytes, at, 4, 6) == Number(raw[4..6]) && Field(bytes, at, 6, 8) == Number(raw[6..8])
            && Field(bytes, at, 8, 10) == Number(raw[8..10]) && Field(bytes, at, 10, 12) == Number(raw[10..12])
            && Field(bytes, at, 12, 16) == Number(raw[12..16]) && Field(bytes, at, 16, 20) == Number(raw[16..20])
            && Field(bytes, at, 20, 22) == Number(raw[20..22])
  {
    var raw := bytes[at..at + 22];
    FieldMoves(bytes, at, at + 22, 4, 6);
    FieldMoves(bytes, at, at + 22, 6, 8);
    FieldMoves(bytes, at, at + 22, 8, 10);
    FieldMoves(bytes, at, at + 22, 10, 12);
    FieldMoves(bytes, at, at + 22, 12, 16);
    FieldMoves(bytes, at, at + 22, 16, 20);
    FieldMoves(bytes, at, at + 22, 20, 22);
    SliceOfSlice(bytes, at, at + 22, 0, 4);
    FieldsAtStart(raw);
  }

  lemma FieldsAtStart(raw: Bytes)
    requires |raw| == 22
    ensures Field(raw, 0, 4, 6) == Number(raw[4..6]) && Field(raw, 0, 6, 8) == Number(raw[6..8])
            && Field(raw, 0, 8, 10) == Number(raw[8..10]) && Field(raw, 0, 10, 12) == Number(raw[10..12])
            && Field(raw, 0, 12, 16) == Number(raw[12..16]) && Field(raw, 0, 16, 20) == Number(raw[16..20])
            && Field(raw, 0, 20, 22) == Number(raw[20..22])
  {
  }

  lemma WrittenIsAccepted(bytes: Bytes, data: Bytes, entries: seq<Entry>, comment: Bytes)
    requires Written(bytes, data, entries, comment)
    ensures Acceptable(bytes)
  {
    var (size, at) := (|Directory(entries)|, |data| + |Directory(entries)|);
    var end := EndWith(|entries|, size, |data|, |comment|);
    DirectoryTiles(bytes, data, entries, end + comment);
    assert bytes == (data + Directory(entries)) + end + comment;
    assert bytes[at..at + 22] == end;
    EndWithPieces(|entries|, size, |data|, |comment|);
    EndFields(bytes, at);
    assert LastSignature(bytes, at) && EndRecordOk(bytes, at);
  }

  lemma AcceptedIsWritten(bytes: Bytes) returns (data: Bytes, entries: seq<Entry>, comment: Bytes)
    requires Acceptable(bytes)
    ensures Written(bytes, data, entries, comment)
  {
    var at: nat :| LastSignature(bytes, at) && EndRecordOk(bytes, at)
                   && Tiles(bytes, Field(bytes, at, 16, 20), at, Field(bytes, at, 10, 12));
    data, entries, comment := PlacedIsWritten(bytes, at);
  }

  lemma PlacedIsWritten(bytes: Bytes, at: nat) returns (data: Bytes, entries: seq<Entry>, comment: Bytes)
    requires LastSignature(bytes, at) && EndRecordOk(bytes, at)
    requires Tiles(bytes, Field(bytes, at, 16, 20), at, Field(bytes, at, 10, 12))
    ensures Written(bytes, data, entries, comment)
  {
    var (count, offset) := EndLimits(bytes, at);
    entries := TilesAreWritten(bytes, offset, at, count);
    EndIsWritten(bytes, at);
    data, comment := bytes[..offset], bytes[at + 22..];
    Assembled(bytes, at, offset, entries);
  }

  /** The count and the offset an acceptable end record gives. */
  function EndLimits(bytes: Bytes, at: nat): (r: (nat, nat))
    requires EndRecordOk(bytes, at)
    ensures r == (Field(bytes, at, 10, 12), Field(bytes, at, 16, 20))
    ensures 1 <= r.0 <= MAX_FILES && r.1 <= at && at - r.1 <= MAX_DIRECTORY && at + 22 <= |bytes|
  {
    (Field(bytes, at, 10, 12), Field(bytes, at, 16, 20))
  }

  lemma Assembled(bytes: Bytes, at: nat, offset: nat, entries: seq<Entry>)
    requires offset <= at && at + 22 <= |bytes| && LastSignature(bytes, at)
    requires Writes(entries, |entries|, bytes[offset..at]) && 1 <= |entries| <= MAX_FILES
    requires at - offset <= MAX_DIRECTORY && offset < 4294967296 && |bytes| - at - 22 < 65536
    requires bytes[at..at + 22] == EndWith(|entries|, at - offset, offset, |bytes| - at - 22)
    ensures Written(bytes, bytes[..offset], entries, bytes[at + 22..])
  {
    FourPieces(bytes, offset, at, at + 22);
  }

  lemma EndIsWritten(bytes: Bytes, at: nat)
    requires SignatureAt(bytes, at) && EndRecordOk(bytes, at)
    ensures var (offset, comment) := (Field(bytes, at, 16, 20), |bytes| - at - 22);
            offset < 4294967296 && comment < 65536
            && bytes[at..at + 22] == EndWith(Field(bytes, at, 10, 12), at - offset, offset, comment)
  {
    EndFields(bytes, at);
    EndPiecesWhole(bytes[at..at + 22], Field(bytes, at, 10, 12), at - Field(bytes, at, 16, 20),
                   Field(bytes, at, 16, 20), |bytes| - at - 22);
  }

  lemma FourPieces(raw: Bytes, a: nat, b: nat, c: nat)
    requires a <= b <= c <= |raw|
    ensures raw == raw[..a] + raw[a..b] + (raw[b..c] + raw[c..])
  {
  }

  /** An archive is accepted exactly when it is what the format's writer makes of some data, entries and comment, within
      the limits, and the end record's signature does not occur again after its own. */
  lemma AcceptedExactlyWhen(bytes: Bytes)
    ensures Acceptable(bytes) <==> exists data, entries, comment :: Written(bytes, data, entries, comment)
  {
    if Acceptable(bytes) { var data, entries, comment := AcceptedIsWritten(bytes); }
    if data, entries, comment :| Written(bytes, data, entries, comment) {
      WrittenIsAccepted(bytes, data, entries, comment);
    }
  }
}
