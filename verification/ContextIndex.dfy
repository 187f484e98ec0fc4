/**
 The research item index: pages of items, continued by an opaque cursor that is
 bound to its project.
 */
module ContextIndex {
  import opened Wrappers
  import opened Json
  import opened JsonReader
  import opened Codecs

  const KIND := "research_context_index"
  const CURSOR_LIMIT := 512
  const LAST_OFFSET := 1_000_000

  /** The cursor's payload, keys in sorted order. */
  function Payload(project: string, offset: nat): Json {
    Object([Field("kind", Text(KIND)), Field("offset", Number(offset)), Field("project_id", Text(project))])
  }

  /** Unpadded base64url of the UTF-8 of the payload's JSON. */
  function EncodeCursor(project: string, offset: nat): string {
    StripPadding(EncodeBase64(EncodeUtf8(Dumps(Payload(project, offset)))))
  }

  datatype Decoded = Offset(value: nat) | InvalidCursor | OutsideScope

  function DecodeJson(cursor: string): Option<Json> {
    match DecodeBase64(cursor + Padding(|cursor|))
    case None => None
    case Some(bytes) => match DecodeUtf8(bytes) case None => None case Some(text) => Loads(text)
  }

  /** The checks on a payload that was read. */
  function CheckPayload(v: Json, project: string): Decoded {
    if !v.Object? || Get(v.fields, "kind") != Some(Text(KIND)) then InvalidCursor
    else if Get(v.fields, "project_id") != Some(Text(project)) then OutsideScope
    else match Get(v.fields, "offset")
      case Some(Number(n)) => if 0 <= n <= LAST_OFFSET then Offset(n) else InvalidCursor
      case _ => InvalidCursor
  }

  function DecodeCursor(cursor: string, project: string): Decoded {
    if cursor == "" || |cursor| > CURSOR_LIMIT then InvalidCursor
    else match DecodeJson(cursor) case None => InvalidCursor case Some(v) => CheckPayload(v, project)
  }

  lemma CursorDecodesJson(project: string, offset: nat)
    ensures EncodeCursor(project, offset) != ""
    ensures DecodeJson(EncodeCursor(project, offset)) == Some(Payload(project, offset))
  {
    var v := Payload(project, offset);
    PayloadIsDictionary(project, offset);
    LoadsDumps(v);
    Utf8RoundTrip(Dumps(v));
    Base64RoundTrip(EncodeUtf8(Dumps(v)));
    UnpaddedShape(EncodeUtf8(Dumps(v)));
  }

  lemma PayloadIsDictionary(project: string, offset: nat)
    ensures IsDictionary(Payload(project, offset)) && Dumps(Payload(project, offset)) != ""
  {
    var fields := Payload(project, offset).fields;
    assert FieldsAreDictionaries(fields[3..]);
    assert fields[2..][1..] == fields[3..] && FieldsAreDictionaries(fields[2..]);
    assert fields[1..][1..] == fields[2..] && FieldsAreDictionaries(fields[1..]);
    assert |fields[0].key| == 4 && |fields[1].key| == 6 && |fields[2].key| == 10;
  }

  lemma PayloadChecks(project: string, offset: nat, asking: string)
    ensures CheckPayload(Payload(project, offset), asking)
            == if asking != project then OutsideScope else if offset <= LAST_OFFSET then Offset(offset) else InvalidCursor
  {
    var fields := Payload(project, offset).fields;
    GetAt(fields, "kind", 0);
    GetAt(fields, "offset", 1);
    GetAt(fields, "project_id", 2);
  }

  /** A project reads its own cursors back, just when they are short enough and the offset is in range. */
  lemma CursorRoundTripIff(project: string, offset: nat)
    ensures DecodeCursor(EncodeCursor(project, offset), project) == Offset(offset)
            <==> |EncodeCursor(project, offset)| <= CURSOR_LIMIT && offset <= LAST_OFFSET
  {
    CursorDecodesJson(project, offset);
    PayloadChecks(project, offset, project);
  }

  /** A cursor of one project is never an offset in another. */
  lemma OtherProjectIsRefused(project: string, offset: nat, asking: string)
    requires asking != project
    ensures DecodeCursor(EncodeCursor(project, offset), asking)
            == if |EncodeCursor(project, offset)| <= CURSOR_LIMIT then OutsideScope else InvalidCursor
  {
    CursorDecodesJson(project, offset);
    PayloadChecks(project, offset, asking);
  }

  /** Cursors are injective: the cursor determines project and offset. */
  lemma CursorsDiffer(p: string, m: nat, q: string, n: nat)
    requires EncodeCursor(p, m) == EncodeCursor(q, n)
    ensures p == q && m == n
  {
    CursorDecodesJson(p, m);
    CursorDecodesJson(q, n);
    assert Payload(p, m).fields[1] == Payload(q, n).fields[1] && Payload(p, m).fields[2] == Payload(q, n).fields[2];
  }

  // ----- the cursors of real projects -----

  predicate IsIdCharacter(c: char) {
    'A' <= c <= 'Z' || 'a' <= c <= 'z' || '0' <= c <= '9' || c == '_' || c == '.' || c == '-'
  }

  /** The ids that a project can be created with: [A-Za-z0-9][A-Za-z0-9_.-]{0,63}. */
  predicate ValidProjectId(project: string) {
    && 1 <= |project| <= 64
    && (forall k :: 0 <= k < |project| ==> IsIdCharacter(project[k]))
    && project[0] != '_' && project[0] != '.' && project[0] != '-'
  }

  lemma ThreeFields(a: Field, b: Field, c: Field)
    ensures FieldsSize([a, b, c]) == 2 + FieldSize(a) + FieldSize(b) + FieldSize(c)
  {
    assert [a, b, c][1..] == [b, c] && [b, c][1..] == [c];
    assert FieldsSize([c]) == FieldSize(c);
    assert FieldsSize([b, c]) == FieldSize(b) + 1 + FieldsSize([c]);
  }

  lemma PayloadSize(kindKey: string, kind: string, offsetKey: string, offset: nat, projectKey: string, project: string)
    requires |kindKey| == 4 && |kind| == 22 && |offsetKey| == 6 && |projectKey| == 10
    requires AllPlain(kindKey) && AllPlain(kind) && AllPlain(offsetKey) && AllPlain(projectKey) && AllPlain(project)
    ensures Size(Object([Field(kindKey, Text(kind)), Field(offsetKey, Number(offset)), Field(projectKey, Text(project))]))
            == 59 + |Digits(offset)| + |project|
  {
    PlainSize(kindKey);
    PlainSize(kind);
    PlainSize(offsetKey);
    PlainSize(projectKey);
    PlainSize(project);
    ThreeFields(Field(kindKey, Text(kind)), Field(offsetKey, Number(offset)), Field(projectKey, Text(project)));
  }

  lemma {:induction false} DigitsAreAscii(n: nat)
    ensures IsAscii(Digits(n))
  {
    if n >= 10 {
      DigitsAreAscii(n / 10);
    }
  }

  lemma {:induction false} EscapedAscii(s: string)
    requires AllPlain(s) && IsAscii(s)
    ensures IsAscii(Escaped(s))
  {
    if s != "" {
      EscapedAscii(s[1..]);
      assert Escape(s[0]) == [s[0]];
    }
  }

  lemma AsciiField(key: string, value: Json)
    requires AllPlain(key) && IsAscii(key) && IsAscii(Dumps(value))
    ensures IsAscii(Quoted(key) + ":" + Dumps(value))
  {
    EscapedAscii(key);
  }

  lemma AsciiText(text: string)
    requires AllPlain(text) && IsAscii(text)
    ensures IsAscii(Dumps(Text(text)))
  {
    EscapedAscii(text);
  }

  lemma OneMoreField(f: Field, rest: seq<Field>)
    requires AllPlain(f.key) && IsAscii(f.key) && IsAscii(Dumps(f.value)) && IsAscii(DumpsFields(rest))
    ensures IsAscii(DumpsFields([f] + rest))
  {
    AsciiField(f.key, f.value);
    assert ([f] + rest)[1..] == rest;
  }

  lemma PayloadAscii(kindKey: string, kind: string, offsetKey: string, offset: nat, projectKey: string, project: string)
    requires AllPlain(kindKey) && AllPlain(kind) && AllPlain(offsetKey) && AllPlain(projectKey) && AllPlain(project)
    requires IsAscii(kindKey) && IsAscii(kind) && IsAscii(offsetKey) && IsAscii(projectKey) && IsAscii(project)
    ensures IsAscii(Dumps(Object([Field(kindKey, Text(kind)), Field(offsetKey, Number(offset)), Field(projectKey, Text(project))])))
  {
    var first, second, third := Field(kindKey, Text(kind)), Field(offsetKey, Number(offset)), Field(projectKey, Text(project));
    AsciiText(kind);
    DigitsAreAscii(offset);
    AsciiText(project);
    OneMoreField(third, []);
    OneMoreField(second, [third]);
    OneMoreField(first, [second, third]);
    assert [third] == [third] + [] && [second, third] == [second] + [third];
    assert [first, second, third] == [first] + [second, third];
  }

  lemma ValidIdIsPlain(project: string)
    requires ValidProjectId(project)
    ensures AllPlain(project) && IsAscii(project)
  {
  }

  lemma PayloadLength(project: string, offset: nat)
    requires AllPlain(project) && |project| <= 64 && offset <= LAST_OFFSET
    ensures |Dumps(Payload(project, offset))| <= 130
  {
    LastOffsetDigits();
    DigitsGrow(offset, LAST_OFFSET);
    PayloadSize("kind", KIND, "offset", offset, "project_id", project);
    SizeIsLength(Payload(project, offset));
  }

  lemma PayloadIsAscii(project: string, offset: nat)
    requires AllPlain(project) && IsAscii(project)
    ensures IsAscii(Dumps(Payload(project, offset)))
  {
    PayloadAscii("kind", KIND, "offset", offset, "project_id", project);
  }

  lemma LastOffsetDigits()
    ensures |Digits(LAST_OFFSET)| == 7
  {
  }

  lemma CursorIsShort(project: string, offset: nat)
    requires ValidProjectId(project) && offset <= LAST_OFFSET
    ensures |EncodeCursor(project, offset)| <= CURSOR_LIMIT
  {
    var bytes := EncodeUtf8(Dumps(Payload(project, offset)));
    ValidIdIsPlain(project);
    PayloadLength(project, offset);
    PayloadIsAscii(project, offset);
    AsciiLength(Dumps(Payload(project, offset)));
    Base64RoundTrip(bytes);
    UnpaddedShape(bytes);
  }

  /** Every project that can be created reads each of its cursors back, up to the offset of a million. */
  lemma CursorRoundTrip(project: string, offset: nat)
    requires ValidProjectId(project)
    ensures DecodeCursor(EncodeCursor(project, offset), project) == Offset(offset) <==> offset <= LAST_OFFSET
  {
    CursorRoundTripIff(project, offset);
    if offset <= LAST_OFFSET {
      CursorIsShort(project, offset);
    }
  }

  // ----- paging -----

  /** LIMIT and OFFSET over the items in index order, and the next page's offset. */
  function Page<T>(items: seq<T>, offset: nat, limit: nat): (r: (seq<T>, Option<nat>)) {
    var first := Min(offset, |items|);
    var rows := items[first..Min(first + limit, |items|)];
    (rows, if offset + |rows| < |items| then Some(offset + |rows|) else None)
  }

  lemma PageGoesOn<T>(items: seq<T>, offset: nat, limit: nat)
    requires offset <= |items| && limit >= 1
    ensures var (rows, next) := Page(items, offset, limit);
            && items[..offset] + rows == items[..offset + |rows|]
            && (next.Some? ==> next.value == offset + |rows| < |items| && |rows| >= 1)
            && (next.None? ==> offset + |rows| == |items|)
  {
  }

  lemma OwnCursor(project: string, offset: nat)
    requires ValidProjectId(project)
    ensures var decoded := DecodeCursor(EncodeCursor(project, offset), project);
            if offset <= LAST_OFFSET then decoded == Offset(offset) else !decoded.Offset?
  {
    CursorRoundTrip(project, offset);
    CursorDecodesJson(project, offset);
    PayloadChecks(project, offset, project);
  }

  /** The offset of the first page that cannot be asked for. */
  function Reach(limit: nat): nat
    requires limit >= 1
  {
    (LAST_OFFSET / limit + 1) * limit
  }

  lemma Product(a: nat, b: nat, limit: nat)
    ensures a <= b ==> a * limit <= b * limit
  {
  }

  /** Page `k` can be asked for iff it begins before the reach. */
  lemma AskableIff(k: nat, limit: nat)
    requires limit >= 1
    ensures k * limit <= LAST_OFFSET <==> k * limit < Reach(limit)
    ensures k * limit < Reach(limit) ==> (k + 1) * limit <= Reach(limit)
    ensures Reach(limit) > LAST_OFFSET
  {
    var q := LAST_OFFSET / limit;
    assert q * limit <= LAST_OFFSET < (q + 1) * limit;
    Product(k, q, limit);
    Product(k + 1, q + 1, limit);
    Product(q + 1, k, limit);
  }

  /** Follows cursors that decode to the offset they were made from, up to the last offset. */
  method FollowCursors<T>(items: seq<T>, limit: nat, encode: nat -> string, decode: string -> Option<nat>) returns (listed: seq<T>)
    requires limit >= 1
    requires forall n: nat :: decode(encode(n)) == if n <= LAST_OFFSET then Some(n) else None
    ensures listed == items[..Min(|items|, Reach(limit))]
  {
    listed := [];
    var cursor: Option<string> := None;
    ghost var k := 0;
    AskableIff(0, limit);
    while true
      invariant |listed| == k * limit <= Reach(limit)
      invariant |listed| <= |items| && listed == items[..|listed|]
      invariant if cursor.None? then k == 0 else |listed| < |items| && cursor == Some(encode(|listed|))
      decreases |items| - |listed|, if cursor.None? then 1 else 0
    {
      var offset := if cursor.None? then Some(0) else decode(cursor.value);
      AskableIff(k, limit);
      if offset.None? {
        return;
      }
      var (rows, next) := Page(items, offset.value, limit);
      PageGoesOn(items, offset.value, limit);
      listed := listed + rows;
      if next.None? {
        assert items[..|items|] == items;
        return;
      }
      cursor, k := Some(encode(next.value)), k + 1;
    }
  }

  function OffsetIn(project: string): string -> Option<nat> {
    cursor => match DecodeCursor(cursor, project) case Offset(n) => Some(n) case _ => None
  }

  function CursorOf(project: string): nat -> string {
    (n: nat) => EncodeCursor(project, n)
  }

  /** Following the cursors of its index lists each item of a project exactly once and in order, a million of them at least. */
  method ListIndex<T>(project: string, items: seq<T>, limit: nat) returns (listed: seq<T>)
    requires ValidProjectId(project) && 1 <= limit <= 20
    ensures listed == items[..Min(|items|, Reach(limit))]
    ensures |items| <= LAST_OFFSET ==> listed == items
  {
    forall n: nat ensures OffsetIn(project)(CursorOf(project)(n)) == if n <= LAST_OFFSET then Some(n) else None {
      OwnCursor(project, n);
    }
    listed := FollowCursors(items, limit, CursorOf(project), OffsetIn(project));
    AskableIff(0, limit);
  }
}
