/**
 Reading a long section of a research item in pieces: the service cuts a chunk,
 the MCP layer shortens it again so that the answer fits the output cap, and the
 client follows next_offset.
 */
module SectionReading {
  import opened Wrappers
  import opened Json

  // ----- the service's answer -----

  /** The offset to continue at, or null at the end. */
  function Next(end: int, total: int): Json {
    if end < total then Number(end) else Null
  }

  function Max(a: int, b: int): int {
    if a >= b then a else b
  }

  const LAST_OFFSET := 1_000_000

  /** The chunk size the service uses: the requested one, bounded by the payload budget. */
  function ChunkSize(requested: nat, maxReturnChars: int): nat {
    Min(requested, Max(512, Max(256, maxReturnChars) - 900))
  }

  /** What stands around a section in an answer. */
  datatype Envelope = Envelope(project: Json, itemId: string, record: seq<Field>, available: Json,
                               name: string, contentType: string)

  function Section(e: Envelope, s: string, offset: nat, end: nat): seq<Field>
    requires offset <= end <= |s|
  {
    [Field("name", Text(e.name)), Field("content_type", Text(e.contentType)),
     Field("content", Text(s[offset..end])), Field("offset", Number(offset)),
     Field("next_offset", Next(end, |s|)), Field("total_chars", Number(|s|))]
  }

  /** The section chunk at `offset`; None is the error that the offset is out of range. */
  function Answer(e: Envelope, s: string, offset: nat, chunk: nat): Option<seq<Field>> {
    if offset > LAST_OFFSET || offset > |s| then None else
    var end := Min(|s|, offset + chunk);
    var record := Put(Put(e.record, "section", Object(Section(e, s, offset, end))), "payload_complete", Bool(false));
    Some([Field("project", e.project), Field("item_id", Text(e.itemId)), Field("items", Array([Object(record)])),
          Field("available_sections", e.available), Field("section", Text(e.name)),
          Field("offset", Number(offset)), Field("next_offset", Next(end, |s|))])
  }

  // ----- redaction -----

  const REDACTED := "[redacted-local-path]"

  /** Drops sensitive fields and redacts local paths, at every depth. */
  function SafeData(sensitive: string -> bool, isLocal: string -> bool, v: Json): Json {
    match v
    case Text(text) => if isLocal(text) then Text(REDACTED) else v
    case Array(items) => Array(SafeItems(sensitive, isLocal, items))
    case Object(fields) => Object(SafeFields(sensitive, isLocal, fields))
    case _ => v
  }

  function SafeItems(sensitive: string -> bool, isLocal: string -> bool, items: seq<Json>): (r: seq<Json>)
    ensures |r| == |items|
  {
    if items == [] then []
    else [SafeData(sensitive, isLocal, items[0])] + SafeItems(sensitive, isLocal, items[1..])
  }

  function SafeFields(sensitive: string -> bool, isLocal: string -> bool, fields: seq<Field>): seq<Field> {
    if fields == [] then []
    else
      var rest := SafeFields(sensitive, isLocal, fields[1..]);
      if sensitive(fields[0].key) then rest
      else [Field(fields[0].key, SafeData(sensitive, isLocal, fields[0].value))] + rest
  }

  lemma {:induction false} GetSafe(sensitive: string -> bool, isLocal: string -> bool, fields: seq<Field>, key: string)
    requires !sensitive(key)
    ensures Get(SafeFields(sensitive, isLocal, fields), key)
            == match Get(fields, key) case None => None case Some(v) => Some(SafeData(sensitive, isLocal, v))
  {
    if fields != [] {
      var rest := SafeFields(sensitive, isLocal, fields[1..]);
      GetSafe(sensitive, isLocal, fields[1..], key);
      if !sensitive(fields[0].key) {
        var head := Field(fields[0].key, SafeData(sensitive, isLocal, fields[0].value));
        assert ([head] + rest)[1..] == rest;
      }
    }
  }

  /** No sensitive key and no local path at any depth. */
  predicate IsSafe(sensitive: string -> bool, isLocal: string -> bool, v: Json) {
    match v
    case Text(text) => text == REDACTED || !isLocal(text)
    case Array(items) => forall i :: 0 <= i < |items| ==> IsSafe(sensitive, isLocal, items[i])
    case Object(fields) =>
      forall i :: 0 <= i < |fields| ==> !sensitive(fields[i].key) && IsSafe(sensitive, isLocal, fields[i].value)
    case _ => true
  }

  /** Redaction makes any value safe, and leaves it alone iff it is safe already. */
  lemma {:induction false} RedactedIsSafe(sensitive: string -> bool, isLocal: string -> bool, v: Json)
    ensures IsSafe(sensitive, isLocal, SafeData(sensitive, isLocal, v))
    ensures SafeData(sensitive, isLocal, v) == v <==> IsSafe(sensitive, isLocal, v)
    decreases v, 1
  {
    match v
    case Array(items) => RedactedItemsAreSafe(sensitive, isLocal, items);
    case Object(fields) => RedactedFieldsAreSafe(sensitive, isLocal, fields);
    case _ =>
  }

  lemma {:induction false} RedactedItemsAreSafe(sensitive: string -> bool, isLocal: string -> bool, items: seq<Json>)
    ensures IsSafe(sensitive, isLocal, Array(SafeItems(sensitive, isLocal, items)))
    ensures IsSafe(sensitive, isLocal, Array(items)) ==> SafeItems(sensitive, isLocal, items) == items
    decreases items, 0
  {
    if items != [] {
      RedactedIsSafe(sensitive, isLocal, items[0]);
      RedactedItemsAreSafe(sensitive, isLocal, items[1..]);
    }
  }

  lemma {:induction false} RedactedFieldsAreSafe(sensitive: string -> bool, isLocal: string -> bool, fields: seq<Field>)
    ensures IsSafe(sensitive, isLocal, Object(SafeFields(sensitive, isLocal, fields)))
    ensures IsSafe(sensitive, isLocal, Object(fields)) ==> SafeFields(sensitive, isLocal, fields) == fields
    decreases fields, 0
  {
    if fields != [] {
      RedactedIsSafe(sensitive, isLocal, fields[0].value);
      RedactedFieldsAreSafe(sensitive, isLocal, fields[1..]);
    }
  }

  // ----- fitting a requested section -----

  /** The parts of an answer that the fit looks at. */
  datatype View = View(first: seq<Field>, rest: seq<Json>, section: seq<Field>, original: string, offset: int, total: int)

  function AsObject(v: Option<Json>): Option<seq<Field>> {
    if v.Some? && v.value.Object? then Some(v.value.fields) else None
  }

  /** The requested section in an answer, if there is one. */
  function Requested(data: seq<Field>): Option<View> {
    var items := Get(data, "items");
    if items.None? || !items.value.Array? || items.value.items == [] || !items.value.items[0].Object? then None else
    var first := items.value.items[0].fields;
    var section := AsObject(Get(first, "section"));
    if section.None? then None else
    var content, total := Get(section.value, "content"), Get(section.value, "total_chars");
    var here, outer := Get(section.value, "offset"), Get(data, "offset");
    var offset := if here.Some? then here.value else if outer.Some? then outer.value else Number(0);
    if content.None? || !content.value.Text? || total.None? || !total.value.Number? || !offset.Number? then None
    else Some(View(first, items.value.items[1..], section.value, content.value.text, offset.n, total.value.n))
  }

  /** The answer without the project's configuration. */
  function Trimmed(data: seq<Field>): seq<Field> {
    var project := AsObject(Get(data, "project"));
    if project.Some? && Get(project.value, "config").Some?
    then Put(data, "project", Object(Remove(project.value, "config"))) else data
  }

  function NextAt(v: View, k: nat): Json {
    Next(v.offset + k, v.total)
  }

  function Selected(v: View, k: nat): seq<Field>
    requires k <= |v.original|
  {
    Put(Put(v.section, "content", Text(v.original[..k])), "next_offset", NextAt(v, k))
  }

  function Record(v: View, k: nat): seq<Field>
    requires k <= |v.original|
  {
    Put(v.first, "section", Object(Selected(v, k)))
  }

  /** The answer with the first `k` characters of the chunk and next_offset moved to match. */
  function Candidate(base: seq<Field>, v: View, k: nat): seq<Field>
    requires k <= |v.original|
  {
    Put(Put(base, "items", Array([Object(Record(v, k))] + v.rest)), "next_offset", NextAt(v, k))
  }

  predicate Fits(base: seq<Field>, v: View, maximum: nat, k: nat)
    requires k <= |v.original|
  {
    Size(Object(Candidate(base, v, k))) <= maximum
  }

  /** The last resort's base: the identifying fields, or everything if there are none. */
  function MinimalBase(trimmed: seq<Field>): seq<Field> {
    var minimal := Chosen(trimmed, ["item_id", "section", "offset", "next_offset"]);
    if minimal == [] then trimmed else minimal
  }

  function Chosen(fields: seq<Field>, keys: seq<string>): seq<Field> {
    if keys == [] then []
    else (match Get(fields, keys[0]) case Some(v) => [Field(keys[0], v)] case None => []) + Chosen(fields, keys[1..])
  }

  /** Reference definition: the longest prefix, of at most `n` characters, that fits. */
  function LongestFit(base: seq<Field>, v: View, maximum: nat, n: nat): (k: Option<nat>)
    requires n <= |v.original|
    ensures k.Some? ==> k.value <= n && Fits(base, v, maximum, k.value)
    ensures forall m: nat :: (if k.Some? then k.value < m else true) && m <= n ==> !Fits(base, v, maximum, m)
  {
    if Fits(base, v, maximum, n) then Some(n) else if n == 0 then None else LongestFit(base, v, maximum, n - 1)
  }

  /** What the fit returns when not a single prefix fits beside the other fields. */
  function LastResort(trimmed: seq<Field>, v: View, maximum: nat): seq<Field> {
    var minimal := Candidate(MinimalBase(trimmed), v, 0);
    if Size(Object(minimal)) <= maximum then minimal else [Field("items", Array([Object(Record(v, 0))]))]
  }

  /** Reference definition of the fit of a requested section. */
  function Fitted(data: seq<Field>, v: View, maximum: nat): seq<Field> {
    var trimmed := Trimmed(data);
    if Size(Object(trimmed)) <= maximum then trimmed
    else match LongestFit(trimmed, v, maximum, |v.original|)
      case Some(k) => Candidate(trimmed, v, k)
      case None => LastResort(trimmed, v, maximum)
  }

  predicate InRange(v: View) {
    0 <= v.offset && v.offset + |v.original| <= v.total
  }

  /** The chunk and both continuation offsets agree, as the service builds them. */
  predicate Regular(data: seq<Field>, v: View) {
    && Requested(data) == Some(v)
    && InRange(v) && Get(v.section, "offset") == Some(Number(v.offset))
    && Get(v.section, "next_offset") == Get(data, "next_offset") == Some(NextAt(v, |v.original|))
  }

  // ----- the size grows with the prefix -----

  function NextCost(fields: seq<Field>): int {
    match Get(fields, "next_offset")
    case Some(present) => 0 - Size(present)
    case None => TextSize("next_offset") + 2
  }

  lemma PutTwice(fields: seq<Field>, key: string, value: Json, next: Json)
    requires key != "next_offset"
    ensures FieldsSize(Put(Put(fields, key, value), "next_offset", next))
            == FieldsSize(fields) + PutCost(fields, key) + NextCost(fields) + Size(value) + Size(next)
  {
    PutSize(fields, key, value);
    PutSize(Put(fields, key, value), "next_offset", next);
    GetPut(fields, key, value, "next_offset");
  }

  /** What a record costs beside its chunk and continuation offset. */
  function RecordCost(v: View): int {
    FieldsSize(v.first) + PutCost(v.first, "section") + 2 + FieldsSize(v.section) + PutCost(v.section, "content")
    + NextCost(v.section)
  }

  lemma RecordSize(v: View, k: nat)
    requires k <= |v.original|
    ensures FieldsSize(Record(v, k)) == RecordCost(v) + TextSize(v.original[..k]) + Size(NextAt(v, k))
  {
    PutTwice(v.section, "content", Text(v.original[..k]), NextAt(v, k));
    PutSize(v.first, "section", Object(Selected(v, k)));
  }

  /** What an answer costs beside its first record and continuation offset. */
  function AnswerCost(base: seq<Field>, rest: seq<Json>): int {
    6 + FieldsSize(base) + PutCost(base, "items") + NextCost(base) + (if rest == [] then 0 else 1) + ItemsSize(rest)
  }

  lemma ItemsWithFirst(record: seq<Field>, rest: seq<Json>)
    ensures Size(Array([Object(record)] + rest))
            == 4 + FieldsSize(record) + (if rest == [] then 0 else 1) + ItemsSize(rest)
  {
    var items := [Object(record)] + rest;
    assert items[1..] == rest;
    assert ItemsSize(items) == Size(Object(record)) + (if rest == [] then 0 else 1) + ItemsSize(rest);
  }

  lemma AnswerSize(base: seq<Field>, record: seq<Field>, rest: seq<Json>, next: Json)
    ensures Size(Object(Put(Put(base, "items", Array([Object(record)] + rest)), "next_offset", next)))
            == AnswerCost(base, rest) + FieldsSize(record) + Size(next)
  {
    var list := Array([Object(record)] + rest);
    ItemsWithFirst(record, rest);
    PutTwice(base, "items", list, next);
  }

  /** A candidate's size, apart from what does not depend on the prefix. */
  lemma CandidateSize(base: seq<Field>, v: View, k: nat)
    requires k <= |v.original|
    ensures Size(Object(Candidate(base, v, k)))
            == AnswerCost(base, v.rest) + RecordCost(v) + TextSize(v.original[..k]) + 2 * Size(NextAt(v, k))
  {
    RecordSize(v, k);
    AnswerSize(base, Record(v, k), v.rest, NextAt(v, k));
  }

  lemma NextGrows(v: View, j: nat, k: nat)
    requires j <= k < |v.original| && 0 <= v.offset && v.offset + |v.original| <= v.total
    ensures Size(NextAt(v, j)) <= Size(NextAt(v, k))
  {
    DigitsGrow(v.offset + j, v.offset + k);
    assert NextAt(v, j) == Number(v.offset + j) && NextAt(v, k) == Number(v.offset + k);
  }

  /** Below the full length a longer prefix never makes a smaller answer. */
  lemma LongerIsLarger(base: seq<Field>, v: View, j: nat, k: nat)
    requires j <= k < |v.original| && 0 <= v.offset && v.offset + |v.original| <= v.total
    ensures Size(Object(Candidate(base, v, j))) <= Size(Object(Candidate(base, v, k)))
  {
    CandidateSize(base, v, j);
    CandidateSize(base, v, k);
    PrefixSize(v.original, j, k);
    NextGrows(v, j, k);
  }

  lemma GetTrimmed(data: seq<Field>, key: string)
    requires key != "project"
    ensures Get(Trimmed(data), key) == Get(data, key)
  {
    var project := AsObject(Get(data, "project"));
    if project.Some? {
      GetPut(data, "project", Object(Remove(project.value, "config")), key);
    }
  }

  /** The full prefix is the answer itself, so it is already known not to fit. */
  lemma FullCandidate(data: seq<Field>, v: View)
    requires Regular(data, v)
    ensures Candidate(Trimmed(data), v, |v.original|) == Trimmed(data)
  {
    var n, trimmed := |v.original|, Trimmed(data);
    assert v.original[..n] == v.original;
    PutSame(v.section, "content", Text(v.original));
    PutSame(v.section, "next_offset", NextAt(v, n));
    PutSame(v.first, "section", Object(v.section));
    var items := Get(data, "items").value.items;
    assert items == [items[0]] + items[1..];
    GetTrimmed(data, "items");
    GetTrimmed(data, "next_offset");
    PutSame(trimmed, "items", Array(items));
    PutSame(trimmed, "next_offset", NextAt(v, n));
  }

  // ----- the binary search -----

  /** Keeps the best candidate found; it is the longest that fits unless the full chunk did. */
  method LongestFittingPrefix(base: seq<Field>, v: View, maximum: nat) returns (best: seq<Field>, ghost length: nat)
    ensures length <= |v.original| && best == Candidate(base, v, length)
    ensures InRange(v) && !Fits(base, v, maximum, |v.original|) ==>
              var k := LongestFit(base, v, maximum, |v.original|);
              length == if k.Some? then k.value else 0
  {
    var low: int, high: int := 0, |v.original|;
    ghost var monotone := InRange(v) && !Fits(base, v, maximum, |v.original|);
    best, length := Candidate(base, v, 0), 0;
    while low <= high
      invariant 0 <= low <= high + 1 <= |v.original| + 1
      invariant length == (if low == 0 then 0 else low - 1) && best == Candidate(base, v, length)
      invariant low > 0 ==> Fits(base, v, maximum, length)
      invariant monotone ==> forall m: nat :: high < m <= |v.original| ==> !Fits(base, v, maximum, m)
    {
      var middle := (low + high) / 2;
      var trial := Candidate(base, v, middle);
      if Size(Object(trial)) <= maximum {
        best, length := trial, middle;
        low := middle + 1;
      } else {
        NoLongerFits(base, v, maximum, middle);
        high := middle - 1;
      }
    }
  }

  lemma NoLongerFits(base: seq<Field>, v: View, maximum: nat, k: nat)
    requires k <= |v.original| && !Fits(base, v, maximum, k)
    ensures InRange(v) ==> forall m: nat :: k <= m < |v.original| ==> !Fits(base, v, maximum, m)
  {
    forall m: nat | InRange(v) && k <= m < |v.original| ensures !Fits(base, v, maximum, m) {
      LongerIsLarger(base, v, k, m);
    }
  }

  method FitRequestedSection(data: seq<Field>, maximum: nat) returns (r: seq<Field>, changed: bool)
    ensures changed == Requested(data).Some?
    ensures !changed ==> r == data
    ensures forall v :: Regular(data, v) ==> r == Fitted(data, v, maximum)
  {
    var view := Requested(data);
    if view.None? {
      return data, false;
    }
    changed := true;
    var v := view.value;
    var trimmed := Trimmed(data);
    if Size(Object(trimmed)) <= maximum {
      return trimmed, true;
    }
    var best, length := LongestFittingPrefix(trimmed, v, maximum);
    if Regular(data, v) {
      FullCandidate(data, v);
    }
    assert LongestFit(trimmed, v, maximum, |v.original|).None? ==> !Fits(trimmed, v, maximum, 0);
    if Size(Object(best)) <= maximum {
      return best, true;
    }
    var minimal := Candidate(MinimalBase(trimmed), v, 0);
    if Size(Object(minimal)) <= maximum {
      return minimal, true;
    }
    return [Field("items", Array([Object(Record(v, 0))]))], true;
  }

  // ----- fitting any answer -----

  datatype Warning = ReturnTruncated

  const TRUNCATED := "RETURN_TRUNCATED"

  /** A cut serialization, in place of an answer that cannot be fitted. */
  function Preview(v: Json, maximum: nat): Json {
    var serialized := Dumps(v);
    Object([Field("truncated", Bool(true)),
            Field("preview", Text(serialized[..Min(|serialized|, Max(32, maximum / 2))]))])
  }

  const LISTS := ["results", "context", "items", "events", "pending_approvals"]

  /** An answer whose list under `key` is cut to its first `n` elements. */
  function CutTo(data: seq<Field>, key: string, items: seq<Json>, n: nat): seq<Field>
    requires n <= |items|
  {
    Put(data, key, Array(items[..n]))
  }

  /** The longest prefix of the list, of at most `n` elements, with which the answer fits; 0 if none does. */
  function LongestList(data: seq<Field>, key: string, items: seq<Json>, maximum: nat, n: nat): (k: nat)
    requires n <= |items|
    ensures k <= n && (k > 0 ==> Size(Object(CutTo(data, key, items, k))) <= maximum)
    ensures forall m: nat :: k < m <= n ==> Size(Object(CutTo(data, key, items, m))) > maximum
  {
    if n == 0 || Size(Object(CutTo(data, key, items, n))) <= maximum then n
    else LongestList(data, key, items, maximum, n - 1)
  }

  /** Reference definition: the list under `key`, if there is one, keeps as much as fits. */
  function Popped(data: seq<Field>, key: string, maximum: nat): seq<Field> {
    match Get(data, key)
    case Some(Array(items)) => CutTo(data, key, items, LongestList(data, key, items, maximum, |items|))
    case _ => data
  }

  /** Drops elements of the list under `key` from its end until the answer fits or the list is empty. */
  method PopList(data: seq<Field>, key: string, maximum: nat) returns (r: seq<Field>)
    ensures r == Popped(data, key, maximum)
  {
    r := data;
    var list := Get(data, key);
    if list.Some? && list.value.Array? {
      ghost var items, n := list.value.items, |list.value.items|;
      var values := list.value.items;
      assert items[..n] == items;
      PutSame(data, key, Array(items));
      while values != [] && Size(Object(r)) > maximum
        invariant n == |values| <= |items| && values == items[..n] && r == CutTo(data, key, items, n)
        invariant LongestList(data, key, items, maximum, n) == LongestList(data, key, items, maximum, |items|)
        decreases |values|
      {
        PutAgain(data, key, Array(values), Array(values[..n - 1]));
        assert items[..n][..n - 1] == items[..n - 1];
        values := values[..|values| - 1];
        n := n - 1;
        r := Put(r, key, Array(values));
      }
    }
  }

  /** The first `n` of the lists, shortened one after the other. */
  function Shortened(data: seq<Field>, keys: seq<string>, maximum: nat, preserveItems: bool, n: nat): seq<Field>
    requires n <= |keys|
  {
    if n == 0 then data else
    var before := Shortened(data, keys, maximum, preserveItems, n - 1);
    if preserveItems && keys[n - 1] == "items" then before else Popped(before, keys[n - 1], maximum)
  }

  /** The shortened answer, marked as such, or a preview if even that is too large. */
  function Marked(shortened: seq<Field>, maximum: nat): Json {
    var marked := Put(shortened, "truncated", Bool(true));
    if Size(Object(shortened)) <= maximum && Size(Object(marked)) <= maximum then Object(marked)
    else Preview(Object(shortened), maximum)
  }

  /** Reference definition of the fit of an answer whose items need not be kept. */
  function FittedData(data: Json, maximum: nat): Json {
    if Size(data) <= maximum then data
    else if data.Object? then Marked(Shortened(data.fields, LISTS, maximum, false, |LISTS|), maximum)
    else Preview(data, maximum)
  }

  /** None of the lists that a fit may shorten, apart from the items. */
  predicate NoOtherLists(data: seq<Field>) {
    forall key :: key in LISTS && key != "items" ==> Get(data, key).None?
  }

  /** The fit keeps the container of the section. */
  predicate Keeps(data: seq<Field>, v: View, budget: nat) {
    Size(Object(data)) <= budget || Size(Object(Fitted(data, v, budget))) <= budget
  }

  /** Reference definition of the fit of an answer to a section request. */
  function FittedAnswer(data: seq<Field>, v: View, maximum: nat): Json {
    if !Keeps(data, v, maximum) then Preview(Object(data), maximum)
    else if Size(Object(data)) <= maximum then Object(data)
    else Object(Fitted(data, v, maximum))
  }

  method FitReturnData(data: Json, maximum: nat, preserveItems: bool) returns (r: Json, warnings: seq<Warning>)
    ensures Size(data) <= maximum ==> r == data && warnings == []
    ensures warnings == [] || warnings == [ReturnTruncated]
    ensures preserveItems && data.Object? && NoOtherLists(data.fields)
            ==> forall v :: Regular(data.fields, v) ==> r == FittedAnswer(data.fields, v, maximum)
    ensures !preserveItems ==> r == FittedData(data, maximum)
  {
    if Size(data) <= maximum {
      return data, [];
    }
    if data.Object? {
      var trimmed := data.fields;
      if preserveItems {
        var adjusted, changed := FitRequestedSection(trimmed, maximum);
        if Size(Object(adjusted)) <= maximum {
          return Object(adjusted), if changed then [ReturnTruncated] else [];
        }
      }
      trimmed := ShortenLists(trimmed, LISTS, maximum, preserveItems);
      if preserveItems && NoOtherLists(data.fields) {
        ShortenedNothing(data.fields, maximum, |LISTS|);
      }
      if Size(Object(trimmed)) <= maximum {
        var marked := Put(trimmed, "truncated", Bool(true));
        if Size(Object(marked)) <= maximum {
          return Object(marked), [ReturnTruncated];
        }
      }
      return Preview(Object(trimmed), maximum), [ReturnTruncated];
    }
    return Preview(data, maximum), [ReturnTruncated];
  }

  method ShortenLists(data: seq<Field>, keys: seq<string>, maximum: nat, preserveItems: bool) returns (trimmed: seq<Field>)
    ensures trimmed == Shortened(data, keys, maximum, preserveItems, |keys|)
  {
    trimmed := data;
    for i := 0 to |keys|
      invariant trimmed == Shortened(data, keys, maximum, preserveItems, i)
    {
      if !(preserveItems && keys[i] == "items") {
        trimmed := PopList(trimmed, keys[i], maximum);
      }
    }
  }

  lemma {:induction false} ShortenedNothing(data: seq<Field>, maximum: nat, n: nat)
    requires NoOtherLists(data) && n <= |LISTS|
    ensures Shortened(data, LISTS, maximum, true, n) == data
  {
    if n > 0 {
      ShortenedNothing(data, maximum, n - 1);
    }
  }

  // ----- the response -----

  /** The constant strings of the protocol envelope. */
  datatype Names = Names(ok: string, protocol: string, system: string, schemaVersion: string, data: string,
                         warnings: string, traceId: string)

  const WIRE := Names("ok", "protocol", "research-kb/v1", "schema_version", "data", "warnings", "trace_id")

  predicate AsLongAs(s: string, n: nat) {
    |s| == n && AllPlain(s)
  }

  /** As long as the strings on the wire, and free of characters that need an escape. */
  predicate Measured(n: Names) {
    && AsLongAs(n.ok, 2) && AsLongAs(n.protocol, 8) && AsLongAs(n.system, 14) && AsLongAs(n.schemaVersion, 14)
    && AsLongAs(n.data, 4) && AsLongAs(n.warnings, 8) && AsLongAs(n.traceId, 8)
  }

  lemma WireIsMeasured()
    ensures Measured(WIRE)
  {
  }

  function Ok(n: Names, data: Json, warnings: seq<Warning>, traceId: string): Json {
    Object([Field(n.ok, Bool(true)), Field(n.protocol, Text(n.system)), Field(n.schemaVersion, Number(5)),
            Field(n.data, data), Field(n.warnings, Array(Texts(warnings))), Field(n.traceId, Text(traceId))])
  }

  function Texts(warnings: seq<Warning>): seq<Json> {
    if warnings == [] then [] else [Text(TRUNCATED)] + Texts(warnings[1..])
  }

  /** Twenty hexadecimal digits. */
  predicate IsTraceId(t: string) {
    AsLongAs(t, 20)
  }

  lemma TruncatedSize()
    ensures TextSize(TRUNCATED) == 18
  {
    PlainSize(TRUNCATED);
  }

  lemma {:induction false} WarningsSize(warnings: seq<Warning>)
    ensures ItemsSize(Texts(warnings)) <= 19 * |warnings|
  {
    if warnings != [] {
      var rest := Texts(warnings[1..]);
      TruncatedSize();
      WarningsSize(warnings[1..]);
      assert ([Text(TRUNCATED)] + rest)[1..] == rest;
    }
  }

  lemma SixFields(a: Field, b: Field, c: Field, d: Field, e: Field, f: Field)
    ensures FieldsSize([a, b, c, d, e, f])
            == 5 + FieldSize(a) + FieldSize(b) + FieldSize(c) + FieldSize(d) + FieldSize(e) + FieldSize(f)
  {
    assert [a, b, c, d, e, f][1..] == [b, c, d, e, f] && [b, c, d, e, f][1..] == [c, d, e, f];
    assert [c, d, e, f][1..] == [d, e, f] && [d, e, f][1..] == [e, f] && [e, f][1..] == [f];
    assert FieldsSize([f]) == FieldSize(f);
    assert FieldsSize([e, f]) == FieldSize(e) + 1 + FieldsSize([f]);
    assert FieldsSize([d, e, f]) == FieldSize(d) + 1 + FieldsSize([e, f]);
    assert FieldsSize([c, d, e, f]) == FieldSize(c) + 1 + FieldsSize([d, e, f]);
    assert FieldsSize([b, c, d, e, f]) == FieldSize(b) + 1 + FieldsSize([c, d, e, f]);
  }

  lemma OkSize(n: Names, data: Json, warnings: seq<Warning>, traceId: string)
    requires Measured(n) && |warnings| <= 2 && IsTraceId(traceId)
    ensures Size(Ok(n, data, warnings, traceId)) <= Size(data) + 152
  {
    PlainSize(n.ok);
    PlainSize(n.protocol);
    PlainSize(n.system);
    PlainSize(n.schemaVersion);
    PlainSize(n.data);
    PlainSize(n.warnings);
    PlainSize(n.traceId);
    PlainSize(traceId);
    WarningsSize(warnings);
    assert |Numeral(5)| == 1;
    SixFields(Field(n.ok, Bool(true)), Field(n.protocol, Text(n.system)), Field(n.schemaVersion, Number(5)),
              Field(n.data, data), Field(n.warnings, Array(Texts(warnings))), Field(n.traceId, Text(traceId)));
  }

  lemma DataOfOk(n: Names, data: Json, warnings: seq<Warning>, traceId: string)
    requires Measured(n)
    ensures Get(Ok(n, data, warnings, traceId).fields, n.data) == Some(data)
  {
    GetAt(Ok(n, data, warnings, traceId).fields, n.data, 3);
  }

  /** A response under the names that the protocol uses. */
  function Response(data: Json, warnings: seq<Warning>, traceId: string): (r: Json)
    ensures r.Object?
  {
    Ok(WIRE, data, warnings, traceId)
  }

  /** The protocol envelope costs at most 152 characters. */
  lemma ResponseSize(data: Json, warnings: seq<Warning>, traceId: string)
    requires |warnings| <= 2 && IsTraceId(traceId)
    ensures Size(Response(data, warnings, traceId)) <= Size(data) + 152
  {
    WireIsMeasured();
    OkSize(WIRE, data, warnings, traceId);
  }

  /** Where the client finds the data of a response. */
  function Payload(response: Json): Option<Json> {
    if response.Object? then Get(response.fields, WIRE.data) else None
  }

  lemma PayloadOfResponse(data: Json, warnings: seq<Warning>, traceId: string)
    ensures Payload(Response(data, warnings, traceId)) == Some(data)
  {
    WireIsMeasured();
    DataOfOk(WIRE, data, warnings, traceId);
  }

  function SectionIn(payload: Json): Option<View> {
    if payload.Object? then Requested(payload.fields) else None
  }

  /** The output budget of a response's data. */
  function Budget(maxReturnChars: int): nat {
    Max(32, Max(256, maxReturnChars) - 240)
  }

  /** What does not fit a budget does not fit a smaller one. */
  lemma TighterNeverHelps(data: seq<Field>, v: View, tighter: nat, budget: nat)
    requires tighter <= budget && Keeps(data, v, tighter)
    ensures Keeps(data, v, budget)
  {
    var trimmed := Trimmed(data);
    if Size(Object(trimmed)) > budget {
      var k, t := LongestFit(trimmed, v, budget, |v.original|), LongestFit(trimmed, v, tighter, |v.original|);
      if k.None? && t.Some? {
        assert !Fits(trimmed, v, budget, t.value);
      }
    }
  }

  /** The payload of the response to a section request: the fitted answer, or something without the section. */
  ghost predicate Carries(data: seq<Field>, v: View, budget: nat, payload: Json) {
    if Keeps(data, v, budget) then payload == FittedAnswer(data, v, budget) else SectionIn(payload).None?
  }

  lemma PreviewLosesSection(v: Json, maximum: nat)
    ensures SectionIn(Preview(v, maximum)).None?
  {
    GetNone(Preview(v, maximum).fields, "items");
  }

  lemma FittedCarries(data: seq<Field>, v: View, tighter: nat, budget: nat)
    requires tighter <= budget && (tighter == budget || !Keeps(data, v, budget))
    ensures Carries(data, v, budget, FittedAnswer(data, v, tighter))
  {
    if tighter < budget && Keeps(data, v, tighter) {
      TighterNeverHelps(data, v, tighter, budget);
    }
    PreviewLosesSection(Object(data), tighter);
  }

  ghost predicate IsSectionAnswer(data: Json, v: View) {
    data.Object? && NoOtherLists(data.fields) && Regular(data.fields, v)
  }

  /** The payload of any other response: the fitted data, or an empty object if they exceed the budget all the same. */
  predicate CarriesData(data: Json, budget: nat, payload: Json) {
    var fitted := FittedData(data, budget);
    payload == fitted || (payload == Object([]) && Size(fitted) > budget)
  }

  /** Fits the data, wraps it, and tries once more, or gives up, if the response is too large. */
  method Invoke(data: Json, maxReturnChars: int, preserveItems: bool, traceId: string) returns (response: Json)
    requires IsTraceId(traceId)
    ensures Size(response) <= Max(256, maxReturnChars)
    ensures Payload(response).Some?
    ensures forall v :: preserveItems && IsSectionAnswer(data, v)
              ==> Carries(data.fields, v, Budget(maxReturnChars), Payload(response).value)
    ensures !preserveItems ==> CarriesData(data, Budget(maxReturnChars), Payload(response).value)
  {
    var maximum := Max(256, maxReturnChars);
    ghost var budget := Budget(maxReturnChars);
    var fitted, warnings := FitReturnData(data, Max(32, maximum - 240), preserveItems);
    response := Response(fitted, warnings, traceId);
    ResponseSize(fitted, warnings, traceId);
    PayloadOfResponse(fitted, warnings, traceId);
    if Size(response) > maximum {
      if preserveItems {
        var tighter, more := FitReturnData(data, Max(32, maximum - 420), true);
        warnings := if warnings + more == [] then [ReturnTruncated] else warnings + more;
        response := Response(tighter, warnings, traceId);
        PayloadOfResponse(tighter, warnings, traceId);
        if Size(response) <= maximum {
          forall v | IsSectionAnswer(data, v) ensures Carries(data.fields, v, budget, tighter) {
            FittedCarries(data.fields, v, Max(32, maximum - 420), budget);
          }
          return;
        }
      }
      response := Response(Object([]), [ReturnTruncated], traceId);
      ResponseSize(Object([]), [ReturnTruncated], traceId);
      PayloadOfResponse(Object([]), [ReturnTruncated], traceId);
    } else {
      forall v | preserveItems && IsSectionAnswer(data, v) ensures Carries(data.fields, v, budget, fitted) {
        FittedCarries(data.fields, v, budget, budget);
      }
    }
  }
}
