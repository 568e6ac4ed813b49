/**
Strict JSON decoding: the one-pass nesting scan that runs before the parser, against the recursive check of the parsed
tree.  Documents are concrete syntax trees, so every legal spelling of a value (RFC 8259: any whitespace, any escapes)
is covered.
*/
module Prescan {
  import opened Options

  const MAX_DEPTH := 32
  const MAX_SAFE_INTEGER := 0x1F_FFFF_FFFF_FFFF

  // ---------------------------------------------------------------- documents

  /** One unit of a string body (RFC 8259 section 7). */
  datatype Piece = Plain(c: char) | Escape(c: char) | Hex(digits: string)

  datatype Doc =
    | Token(text: string)
    | Text(body: seq<Piece>)
    | Arr(inner: string, items: Items)
    | Obj(inner: string, members: Members)
  datatype Items = NoItems | Item(before: string, value: Doc, after: string, rest: Items)
  datatype Members = NoMembers
                   | Member(before: string, key: seq<Piece>, colon: (string, string), value: Doc, after: string,
                            rest: Members)

  predicate IsSpace(s: string) { forall c :: c in s ==> c == ' ' || c == '\t' || c == '\n' || c == '\r' }

  predicate IsHexDigit(c: char) { '0' <= c <= '9' || 'a' <= c <= 'f' || 'A' <= c <= 'F' }

  predicate LegalPiece(p: Piece) {
    match p
    case Plain(c) => c >= ' ' && c != '"' && c != '\\'
    case Escape(c) => c in "\"\\/bfnrt"
    case Hex(digits) => |digits| == 4 && forall c :: c in digits ==> IsHexDigit(c)
  }

  predicate LegalBody(body: seq<Piece>) { forall p :: p in body ==> LegalPiece(p) }

  /** Numbers and the three literal names; only their alphabet matters to the scan. */
  predicate LegalToken(t: string) {
    t == "true" || t == "false" || t == "null"
    || (t != "" && forall c :: c in t ==> '0' <= c <= '9' || c in "+-.eE")
  }

  predicate Legal(d: Doc) {
    match d
    case Token(t) => LegalToken(t)
    case Text(body) => LegalBody(body)
    case Arr(inner, items) => IsSpace(inner) && LegalItems(items)
    case Obj(inner, members) => IsSpace(inner) && LegalMembers(members)
  }

  predicate LegalItems(items: Items) {
    match items
    case NoItems => true
    case Item(before, value, after, rest) => IsSpace(before) && Legal(value) && IsSpace(after) && LegalItems(rest)
  }

  predicate LegalMembers(members: Members) {
    match members
    case NoMembers => true
    case Member(before, key, colon, value, after, rest) =>
      IsSpace(before) && LegalBody(key) && IsSpace(colon.0) && IsSpace(colon.1) && Legal(value) && IsSpace(after)
      && LegalMembers(rest)
  }

  // ---------------------------------------------------------------- spelling a document

  function SpellPiece(p: Piece): string {
    match p
    case Plain(c) => [c]
    case Escape(c) => ['\\', c]
    case Hex(digits) => ['\\', 'u'] + digits
  }

  function SpellBody(body: seq<Piece>): string {
    if body == [] then "" else SpellPiece(body[0]) + SpellBody(body[1..])
  }

  function SpellString(body: seq<Piece>): string { "\"" + SpellBody(body) + "\"" }

  function Spell(d: Doc): string {
    match d
    case Token(t) => t
    case Text(body) => SpellString(body)
    case Arr(inner, items) => "[" + inner + SpellItems(items, true) + "]"
    case Obj(inner, members) => "{" + inner + SpellMembers(members, true) + "}"
  }

  function SpellItems(items: Items, first: bool): string {
    match items
    case NoItems => ""
    case Item(before, value, after, rest) =>
      (if first then "" else ",") + before + Spell(value) + after + SpellItems(rest, false)
  }

  function SpellMembers(members: Members, first: bool): string {
    match members
    case NoMembers => ""
    case Member(before, key, colon, value, after, rest) =>
      (if first then "" else ",") + before + SpellString(key) + colon.0 + ":" + colon.1 + Spell(value) + after
      + SpellMembers(rest, false)
  }

  // ---------------------------------------------------------------- parsed values

  datatype Json =
    | JNull
    | JBool(b: bool)
    | JInteger(n: int)
    | JReal(r: real)
    | JNotFinite
    | JString(points: seq<nat>)
    | JArray(elements: Elements)
    | JObject(fields: Fields)
  datatype Elements = NoElements | Element(head: Json, tail: Elements)
  datatype Fields = NoFields | Field(key: seq<nat>, value: Json, tail: Fields)

  function Max(x: int, y: int): int { if x < y then y else x }

  /** How many containers enclose the deepest point of the value. */
  function Nesting(v: Json): nat {
    match v
    case JArray(elements) => 1 + NestingOfElements(elements)
    case JObject(fields) => 1 + NestingOfFields(fields)
    case _ => 0
  }

  function NestingOfElements(es: Elements): nat {
    match es
    case NoElements => 0
    case Element(head, tail) => Max(Nesting(head), NestingOfElements(tail))
  }

  function NestingOfFields(fs: Fields): nat {
    match fs
    case NoFields => 0
    case Field(_, value, tail) => Max(Nesting(value), NestingOfFields(tail))
  }

  /** What the parser makes of scalars; the scan never depends on it. */
  datatype Decoder = Decoder(token: string -> Json, body: seq<Piece> -> seq<nat>)

  predicate ScalarTokens(dec: Decoder, d: Doc) {
    match d
    case Token(t) => !dec.token(t).JArray? && !dec.token(t).JObject?
    case Text(_) => true
    case Arr(_, items) => ScalarItems(dec, items)
    case Obj(_, members) => ScalarMembers(dec, members)
  }

  predicate ScalarItems(dec: Decoder, items: Items) {
    match items
    case NoItems => true
    case Item(_, value, _, rest) => ScalarTokens(dec, value) && ScalarItems(dec, rest)
  }

  predicate ScalarMembers(dec: Decoder, members: Members) {
    match members
    case NoMembers => true
    case Member(_, _, _, value, _, rest) => ScalarTokens(dec, value) && ScalarMembers(dec, rest)
  }

  function ValueOf(dec: Decoder, d: Doc): Json {
    match d
    case Token(t) => dec.token(t)
    case Text(body) => JString(dec.body(body))
    case Arr(_, items) => JArray(ElementsOf(dec, items))
    case Obj(_, members) => JObject(FieldsOf(dec, members))
  }

  function ElementsOf(dec: Decoder, items: Items): Elements {
    match items
    case NoItems => NoElements
    case Item(_, value, _, rest) => Element(ValueOf(dec, value), ElementsOf(dec, rest))
  }

  function FieldsOf(dec: Decoder, members: Members): Fields {
    match members
    case NoMembers => NoFields
    case Member(_, key, _, value, _, rest) => Field(dec.body(key), ValueOf(dec, value), FieldsOf(dec, rest))
  }

  // ---------------------------------------------------------------- `_check_tree`

  datatype TreeError = TooDeep | Surrogate | NonFinite | UnsafeInteger

  function CheckString(points: seq<nat>): Option<TreeError> {
    if exists i :: 0 <= i < |points| && 0xD800 <= points[i] <= 0xDFFF then Some(Surrogate) else None
  }

  /** The first complaint of the recursive check, at the given depth. */
  function CheckTree(v: Json, depth: nat): Option<TreeError>
    decreases v, 1
  {
    match v
    case JArray(elements) => if depth >= MAX_DEPTH then Some(TooDeep) else CheckElements(elements, depth + 1)
    case JObject(fields) => if depth >= MAX_DEPTH then Some(TooDeep) else CheckFields(fields, depth + 1)
    case JString(points) => CheckString(points)
    case JInteger(n) => if n < -MAX_SAFE_INTEGER || n > MAX_SAFE_INTEGER then Some(UnsafeInteger) else None
    case JReal(r) =>
      if r == r.Floor as real && (r.Floor < -MAX_SAFE_INTEGER || r.Floor > MAX_SAFE_INTEGER) then Some(UnsafeInteger)
      else None
    case JNotFinite => Some(NonFinite)
    case _ => None
  }

  function CheckElements(es: Elements, depth: nat): Option<TreeError> {
    match es
    case NoElements => None
    case Element(head, tail) =>
      var first := CheckTree(head, depth);
      if first.Some? then first else CheckElements(tail, depth)
  }

  function CheckFields(fs: Fields, depth: nat): Option<TreeError> {
    match fs
    case NoFields => None
    case Field(key, value, tail) =>
      var name := CheckString(key);
      if name.Some? then name
      else
        var first := CheckTree(value, depth);
        if first.Some? then first else CheckFields(tail, depth)
  }

  predicate NoSurrogate(points: seq<nat>) {
    forall i :: 0 <= i < |points| ==> points[i] < 0xD800 || points[i] > 0xDFFF
  }

  /** Every text is free of surrogates and every whole number within the range that other implementations keep. */
  predicate LeavesOk(v: Json) {
    match v
    case JArray(elements) => ElementLeavesOk(elements)
    case JObject(fields) => FieldLeavesOk(fields)
    case JString(points) => NoSurrogate(points)
    case JInteger(n) => -9007199254740991 <= n <= 9007199254740991
    case JReal(r) => r == r.Floor as real ==> -9007199254740991.0 <= r <= 9007199254740991.0
    case JNotFinite => false
    case _ => true
  }

  predicate ElementLeavesOk(es: Elements) {
    match es
    case NoElements => true
    case Element(head, tail) => LeavesOk(head) && ElementLeavesOk(tail)
  }

  predicate FieldLeavesOk(fs: Fields) {
    match fs
    case NoFields => true
    case Field(key, value, tail) => NoSurrogate(key) && LeavesOk(value) && FieldLeavesOk(tail)
  }

  // ---------------------------------------------------------------- the scan

  datatype Scan = Scan(depth: int, deepest: int, quoted: bool, escaped: bool)

  const START := Scan(0, 0, false, false)

  function Read(s: Scan, c: char): Scan {
    if s.quoted then
      if s.escaped then s.(escaped := false)
      else if c == '\\' then s.(escaped := true)
      else if c == '"' then s.(quoted := false)
      else s
    else if c == '"' then s.(quoted := true)
    else if c == '[' || c == '{' then s.(depth := s.depth + 1, deepest := Max(s.deepest, s.depth + 1))
    else if c == ']' || c == '}' then s.(depth := s.depth - 1)
    else s
  }

  function ReadAll(s: Scan, text: string): Scan
    decreases |text|
  {
    if text == "" then s else ReadAll(Read(s, text[0]), text[1..])
  }

  lemma {:induction false} ReadTwice(s: Scan, a: string, b: string)
    ensures ReadAll(s, a + b) == ReadAll(ReadAll(s, a), b)
    decreases |a|
  {
    if a == "" {
      assert a + b == b;
    } else {
      assert (a + b)[0] == a[0] && (a + b)[1..] == a[1..] + b;
      ReadTwice(Read(s, a[0]), a[1..], b);
    }
  }

  lemma {:induction false} ReadEnds(s: Scan, text: string, c: char)
    ensures ReadAll(s, text + [c]) == Read(ReadAll(s, text), c)
  {
    ReadTwice(s, text, [c]);
    assert [c][1..] == "";
  }

  lemma {:induction false} DeepestGrows(s: Scan, text: string)
    ensures ReadAll(s, text).deepest >= s.deepest
    decreases |text|
  {
    if text != "" { DeepestGrows(Read(s, text[0]), text[1..]); }
  }

  /** The loop of `strict_loads`, giving up at the first bracket beyond the limit. */
  method PreScan(text: string) returns (tooDeep: bool)
    ensures tooDeep <==> ReadAll(START, text).deepest > MAX_DEPTH
  {
    var depth, quoted, escaped := 0, false, false;
    ghost var deepest := 0;
    var i := 0;
    while i < |text|
      invariant i <= |text| && deepest <= MAX_DEPTH
      invariant ReadAll(START, text[..i]) == Scan(depth, deepest, quoted, escaped)
    {
      var c := text[i];
      ReadEnds(START, text[..i], c);
      assert text[..i + 1] == text[..i] + [c];
      if quoted {
        if escaped {
          escaped := false;
        } else if c == '\\' {
          escaped := true;
        } else if c == '"' {
          quoted := false;
        }
      } else if c == '"' {
        quoted := true;
      } else if c == '[' || c == '{' {
        depth := depth + 1;
        deepest := Max(deepest, depth);
        if depth > MAX_DEPTH {
          ReadTwice(START, text[..i + 1], text[i + 1..]);
          DeepestGrows(ReadAll(START, text[..i + 1]), text[i + 1..]);
          assert text[..i + 1] + text[i + 1..] == text;
          return true;
        }
      } else if c == ']' || c == '}' {
        depth := depth - 1;
      }
      i := i + 1;
    }
    assert text[..i] == text;
    return false;
  }

  // ---------------------------------------------------------------- the scan sees exactly the nesting

  predicate Neutral(c: char) { c != '"' && c != '[' && c != '{' && c != ']' && c != '}' }

  lemma {:induction false} NeutralText(s: Scan, text: string)
    requires !s.quoted && forall c :: c in text ==> Neutral(c)
    ensures ReadAll(s, text) == s
  {
    if text != "" {
      assert text[0] in text;
      NeutralText(s, text[1..]);
    }
  }

  lemma {:induction false} HexDigitsRead(s: Scan, text: string)
    requires s.quoted && !s.escaped && forall c :: c in text ==> IsHexDigit(c)
    ensures ReadAll(s, text) == s
  {
    if text != "" {
      assert text[0] in text;
      HexDigitsRead(s, text[1..]);
    }
  }

  lemma PieceRead(s: Scan, p: Piece)
    requires s.quoted && !s.escaped && LegalPiece(p)
    ensures ReadAll(s, SpellPiece(p)) == s
  {
    match p
    case Plain(c) => assert [c][1..] == "";
    case Escape(c) =>
      var escape := Read(s, '\\');
      assert ['\\', c][1..] == [c] && [c][1..] == "";
      assert ReadAll(escape, [c]) == Read(escape, c);
    case Hex(digits) =>
      var text := ['\\', 'u'] + digits;
      assert text[1..] == ['u'] + digits && (['u'] + digits)[1..] == digits;
      HexDigitsRead(s, digits);
  }

  /** Inside quotes nothing but the closing quote is seen, whatever brackets, quotes and backslashes are escaped
      there. */
  lemma {:induction false} BodyRead(s: Scan, body: seq<Piece>)
    requires s.quoted && !s.escaped && LegalBody(body)
    ensures ReadAll(s, SpellBody(body)) == s
  {
    if body != [] {
      assert body[0] in body;
      PieceRead(s, body[0]);
      BodyRead(s, body[1..]);
      ReadTwice(s, SpellPiece(body[0]), SpellBody(body[1..]));
    }
  }

  lemma StringRead(s: Scan, body: seq<Piece>)
    requires !s.quoted && !s.escaped && LegalBody(body)
    ensures ReadAll(s, SpellString(body)) == s
  {
    var inside := s.(quoted := true);
    var text := "\"" + SpellBody(body);
    assert text[1..] == SpellBody(body);
    BodyRead(inside, body);
    ReadEnds(s, text, '"');
  }

  /** Reading a legal document from outside a string only records its nesting. */
  predicate Outside(s: Scan) { !s.quoted && !s.escaped && s.deepest >= s.depth }

  function Sank(s: Scan, nesting: nat): Scan { s.(deepest := Max(s.deepest, s.depth + nesting)) }

  lemma {:induction false} DocRead(dec: Decoder, s: Scan, d: Doc)
    requires Outside(s) && Legal(d) && ScalarTokens(dec, d)
    ensures ReadAll(s, Spell(d)) == Sank(s, Nesting(ValueOf(dec, d)))
    decreases d, 0
  {
    match d
    case Token(t) => NeutralText(s, t);
    case Text(body) => StringRead(s, body);
    case Arr(inner, items) =>
      var open := Read(s, '[');
      NeutralText(open, inner);
      ItemsRead(dec, open, items, true);
      Enclosed(s, '[', inner, SpellItems(items, true), ']');
    case Obj(inner, members) =>
      var open := Read(s, '{');
      NeutralText(open, inner);
      MembersRead(dec, open, members, true);
      Enclosed(s, '{', inner, SpellMembers(members, true), '}');
  }

  lemma Enclosed(s: Scan, open: char, inner: string, content: string, close: char)
    ensures ReadAll(s, [open] + inner + content + [close]) ==
            Read(ReadAll(ReadAll(Read(s, open), inner), content), close)
  {
    ReadEnds(s, [open] + inner + content, close);
    ReadTwice(s, [open] + inner, content);
    ReadTwice(s, [open], inner);
    assert [open][1..] == "";
  }

  lemma {:induction false} ItemsRead(dec: Decoder, s: Scan, items: Items, first: bool)
    requires Outside(s) && LegalItems(items) && ScalarItems(dec, items)
    ensures ReadAll(s, SpellItems(items, first)) == Sank(s, NestingOfElements(ElementsOf(dec, items)))
    decreases items, 0
  {
    if items.Item? {
      var separator := if first then "" else ",";
      NeutralText(s, separator);
      NeutralText(s, items.before);
      DocRead(dec, s, items.value);
      var after := Sank(s, Nesting(ValueOf(dec, items.value)));
      NeutralText(after, items.after);
      ItemsRead(dec, after, items.rest, false);
      ReadTwice(s, separator, items.before);
      ReadTwice(s, separator + items.before, Spell(items.value));
      ReadTwice(s, separator + items.before + Spell(items.value), items.after);
      ReadTwice(s, separator + items.before + Spell(items.value) + items.after, SpellItems(items.rest, false));
    }
  }

  /** A separator, a name and its colon leave the scan as it was. */
  lemma LabelRead(s: Scan, separator: string, members: Members)
    requires Outside(s) && LegalMembers(members) && members.Member? && (separator == "" || separator == ",")
    ensures ReadAll(s, separator + members.before + SpellString(members.key) + members.colon.0 + ":") == s
  {
    var head := separator + members.before;
    NeutralText(s, separator);
    NeutralText(s, members.before);
    ReadTwice(s, separator, members.before);
    StringRead(s, members.key);
    ReadTwice(s, head, SpellString(members.key));
    NeutralText(s, members.colon.0);
    ReadTwice(s, head + SpellString(members.key), members.colon.0);
    NeutralText(s, ":");
    ReadTwice(s, head + SpellString(members.key) + members.colon.0, ":");
  }

  lemma {:induction false} MembersRead(dec: Decoder, s: Scan, members: Members, first: bool)
    requires Outside(s) && LegalMembers(members) && ScalarMembers(dec, members)
    ensures ReadAll(s, SpellMembers(members, first)) == Sank(s, NestingOfFields(FieldsOf(dec, members)))
    decreases members, 0
  {
    if members.Member? {
      var separator := if first then "" else ",";
      var label_ := separator + members.before + SpellString(members.key) + members.colon.0 + ":";
      LabelRead(s, separator, members);
      NeutralText(s, members.colon.1);
      ReadTwice(s, label_, members.colon.1);
      DocRead(dec, s, members.value);
      ReadTwice(s, label_ + members.colon.1, Spell(members.value));
      var after := Sank(s, Nesting(ValueOf(dec, members.value)));
      NeutralText(after, members.after);
      ReadTwice(s, label_ + members.colon.1 + Spell(members.value), members.after);
      MembersRead(dec, after, members.rest, false);
      ReadTwice(s, label_ + members.colon.1 + Spell(members.value) + members.after, SpellMembers(members.rest, false));
    }
  }

  /** For every value and every legal spelling of it, surrounded by any whitespace, the scan ends outside all strings
      and containers having seen exactly the value's nesting. */
  lemma ScanSeesNesting(dec: Decoder, before: string, d: Doc, after: string)
    requires IsSpace(before) && Legal(d) && IsSpace(after) && ScalarTokens(dec, d)
    ensures ReadAll(START, before + Spell(d) + after) == Scan(0, Nesting(ValueOf(dec, d)), false, false)
  {
    NeutralText(START, before);
    DocRead(dec, START, d);
    NeutralText(Sank(START, Nesting(ValueOf(dec, d))), after);
    ReadTwice(START, before, Spell(d));
    ReadTwice(START, before + Spell(d), after);
  }

  // ---------------------------------------------------------------- the tree check agrees

  lemma {:induction false} TreeCheckMeaning(v: Json, depth: nat)
    requires depth <= MAX_DEPTH
    ensures CheckTree(v, depth).None? <==> LeavesOk(v) && depth + Nesting(v) <= MAX_DEPTH
    ensures LeavesOk(v) && depth + Nesting(v) > MAX_DEPTH ==> CheckTree(v, depth) == Some(TooDeep)
    ensures depth + Nesting(v) <= MAX_DEPTH ==> CheckTree(v, depth) != Some(TooDeep)
    decreases v, 1
  {
    match v
    case JArray(elements) => if depth < MAX_DEPTH { ElementsCheckMeaning(elements, depth + 1); }
    case JObject(fields) => if depth < MAX_DEPTH { FieldsCheckMeaning(fields, depth + 1); }
    case _ =>
  }

  lemma {:induction false} ElementsCheckMeaning(es: Elements, depth: nat)
    requires depth <= MAX_DEPTH
    ensures CheckElements(es, depth).None? <==> ElementLeavesOk(es) && depth + NestingOfElements(es) <= MAX_DEPTH
    ensures ElementLeavesOk(es) && depth + NestingOfElements(es) > MAX_DEPTH
            ==> CheckElements(es, depth) == Some(TooDeep)
    ensures depth + NestingOfElements(es) <= MAX_DEPTH ==> CheckElements(es, depth) != Some(TooDeep)
    decreases es, 0
  {
    if es.Element? {
      TreeCheckMeaning(es.head, depth);
      ElementsCheckMeaning(es.tail, depth);
    }
  }

  lemma {:induction false} FieldsCheckMeaning(fs: Fields, depth: nat)
    requires depth <= MAX_DEPTH
    ensures CheckFields(fs, depth).None? <==> FieldLeavesOk(fs) && depth + NestingOfFields(fs) <= MAX_DEPTH
    ensures FieldLeavesOk(fs) && depth + NestingOfFields(fs) > MAX_DEPTH ==> CheckFields(fs, depth) == Some(TooDeep)
    ensures depth + NestingOfFields(fs) <= MAX_DEPTH ==> CheckFields(fs, depth) != Some(TooDeep)
    decreases fs, 0
  {
    if fs.Field? {
      TreeCheckMeaning(fs.value, depth);
      FieldsCheckMeaning(fs.tail, depth);
    }
  }

  /** The scan rejects a legal document exactly when the tree check would reject its value for depth; so behind the scan
      the tree check never complains of depth. */
  lemma ScanAndTreeAgree(dec: Decoder, before: string, d: Doc, after: string)
    requires IsSpace(before) && Legal(d) && IsSpace(after) && ScalarTokens(dec, d)
    ensures ReadAll(START, before + Spell(d) + after).deepest > MAX_DEPTH <==> Nesting(ValueOf(dec, d)) > MAX_DEPTH
    ensures ReadAll(START, before + Spell(d) + after).deepest <= MAX_DEPTH
            ==> CheckTree(ValueOf(dec, d), 0) != Some(TooDeep)
    ensures LeavesOk(ValueOf(dec, d)) ==>
              (ReadAll(START, before + Spell(d) + after).deepest > MAX_DEPTH
               <==> CheckTree(ValueOf(dec, d), 0) == Some(TooDeep))
  {
    ScanSeesNesting(dec, before, d, after);
    TreeCheckMeaning(ValueOf(dec, d), 0);
  }

  // ---------------------------------------------------------------- `_pairs`

  predicate RepeatedKey<V>(pairs: seq<(string, V)>) {
    exists i, j :: 0 <= i < j < |pairs| && pairs[i].0 == pairs[j].0
  }

  /** Builds an object from its members, refusing a repeated name (RFC 7493 section 2.3). */
  method Pairs<V>(pairs: seq<(string, V)>) returns (object_: Option<map<string, V>>)
    ensures object_.None? <==> RepeatedKey(pairs)
    ensures object_.Some? ==> |object_.value| == |pairs|
                              && forall i :: 0 <= i < |pairs| ==> pairs[i].0 in object_.value
                                                                  && object_.value[pairs[i].0] == pairs[i].1
  {
    var result: map<string, V> := map[];
    var i := 0;
    while i < |pairs|
      invariant i <= |pairs| && |result| == i && forall j, k :: 0 <= j < k < i ==> pairs[j].0 != pairs[k].0
      invariant forall k :: 0 <= k < i ==> pairs[k].0 in result && result[pairs[k].0] == pairs[k].1
      invariant forall key :: key in result ==> exists k :: 0 <= k < i && pairs[k].0 == key
    {
      if pairs[i].0 in result {
        ghost var k :| 0 <= k < i && pairs[k].0 == pairs[i].0;
        return None;
      }
      result := result[pairs[i].0 := pairs[i].1];
      i := i + 1;
    }
    return Some(result);
  }
}
