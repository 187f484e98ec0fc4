/**
 The client's side of the item index: following next_cursor through the MCP
 layer, which shortens a page that is too large but leaves its cursor alone.
 */
module IndexClient {
  import opened Wrappers
  import opened Json
  import opened SectionReading
  import opened SectionClient
  import opened ContextIndex

  // ----- what the fit does to one page -----

  /** The items that arrive, if the payload still has a list of them. */
  function ItemsIn(payload: Json): Option<seq<Json>> {
    if !payload.Object? then None else
    match Get(payload.fields, "items") case Some(Array(items)) => Some(items) case _ => None
  }

  /** An answer whose first list to be shortened is the items. */
  predicate IsIndexAnswer(data: seq<Field>, items: seq<Json>) {
    Get(data, "items") == Some(Array(items)) && Get(data, "results").None? && Get(data, "context").None?
  }

  lemma PoppedKeeps(data: seq<Field>, key: string, maximum: nat, other: string)
    requires key != other
    ensures Get(Popped(data, key, maximum), other) == Get(data, other)
  {
    var list := Get(data, key);
    if list.Some? && list.value.Array? {
      GetPut(data, key, Array(list.value.items[..LongestList(data, key, list.value.items, maximum, |list.value.items|)]), other);
    }
  }

  /** How many items survive. */
  function KeptItems(data: seq<Field>, items: seq<Json>, maximum: nat): (n: nat)
    ensures n <= |items|
  {
    LongestList(data, "items", items, maximum, |items|)
  }

  /** A page that fits loses nothing; one that does not loses at least its last item. */
  lemma KeptItemsIff(data: seq<Field>, items: seq<Json>, maximum: nat)
    requires IsIndexAnswer(data, items) && items != []
    ensures KeptItems(data, items, maximum) == |items| <==> Size(Object(data)) <= maximum
  {
    assert items[..|items|] == items;
    PutSame(data, "items", Array(items));
  }

  lemma ShortenedPage(data: seq<Field>, items: seq<Json>, maximum: nat, key: string)
    requires IsIndexAnswer(data, items) && key != "items" && key != "events" && key != "pending_approvals"
    ensures var shortened := Shortened(data, LISTS, maximum, false, |LISTS|);
            && Get(shortened, "items") == Some(Array(items[..KeptItems(data, items, maximum)]))
            && Get(shortened, key) == Get(data, key)
  {
    var kept := KeptItems(data, items, maximum);
    assert Shortened(data, LISTS, maximum, false, 0) == data;
    assert Shortened(data, LISTS, maximum, false, 1) == data;
    assert Shortened(data, LISTS, maximum, false, 2) == data;
    var cut := CutTo(data, "items", items, kept);
    assert Shortened(data, LISTS, maximum, false, 3) == cut;
    GetPut(data, "items", Array(items[..kept]), "items");
    GetPut(data, "items", Array(items[..kept]), key);
    var events := Popped(cut, "events", maximum);
    PoppedKeeps(cut, "events", maximum, "items");
    PoppedKeeps(cut, "events", maximum, key);
    assert Shortened(data, LISTS, maximum, false, 4) == events;
    PoppedKeeps(events, "pending_approvals", maximum, "items");
    PoppedKeeps(events, "pending_approvals", maximum, key);
    assert Shortened(data, LISTS, maximum, false, 5) == Popped(events, "pending_approvals", maximum);
  }

  lemma MarkedPage(shortened: seq<Field>, maximum: nat, items: seq<Json>)
    requires Get(shortened, "items") == Some(Array(items))
    ensures var marked := Marked(shortened, maximum);
            || ItemsIn(marked).None?
            || (ItemsIn(marked) == Some(items) && Get(marked.fields, "next_cursor") == Get(shortened, "next_cursor"))
  {
    GetPut(shortened, "truncated", Bool(true), "items");
    GetPut(shortened, "truncated", Bool(true), "next_cursor");
    GetNone(Preview(Object(shortened), maximum).fields, "items");
  }

  /** A page that is too large arrives with fewer items and its old cursor, or without its items. */
  lemma LargePage(data: seq<Field>, items: seq<Json>, budget: nat, payload: Json)
    requires IsIndexAnswer(data, items) && CarriesData(Object(data), budget, payload)
    requires Size(Object(data)) > budget
    ensures items != [] ==> KeptItems(data, items, budget) < |items|
    ensures || ItemsIn(payload).None?
            || (ItemsIn(payload) == Some(items[..KeptItems(data, items, budget)])
                && Get(payload.fields, "next_cursor") == Get(data, "next_cursor"))
  {
    if items != [] {
      KeptItemsIff(data, items, budget);
    }
    ShortenedPage(data, items, budget, "next_cursor");
    MarkedPage(Shortened(data, LISTS, budget, false, |LISTS|), budget, items[..KeptItems(data, items, budget)]);
    assert Get([], "items").None?;
  }

  /** What arrives is a prefix of the items, whole just when the page fits, and the page's own cursor. */
  lemma PageArrives(data: seq<Field>, items: seq<Json>, budget: nat, payload: Json)
    requires IsIndexAnswer(data, items) && CarriesData(Object(data), budget, payload)
    ensures ItemsIn(payload).None? ==> Size(Object(data)) > budget
    ensures ItemsIn(payload).Some? ==>
      && |ItemsIn(payload).value| <= |items| && ItemsIn(payload).value == items[..|ItemsIn(payload).value|]
      && (items != [] ==> (|ItemsIn(payload).value| == |items| <==> Size(Object(data)) <= budget))
      && Get(payload.fields, "next_cursor") == Get(data, "next_cursor")
  {
    if Size(Object(data)) > budget {
      LargePage(data, items, budget, payload);
    }
  }

  /** All the items of a page arrive just when the page fits its budget. */
  lemma AllItemsArriveIff(data: seq<Field>, items: seq<Json>, budget: nat, payload: Json)
    requires IsIndexAnswer(data, items) && items != [] && CarriesData(Object(data), budget, payload)
    ensures ItemsIn(payload) == Some(items) <==> Size(Object(data)) <= budget
  {
    if Size(Object(data)) > budget {
      LargePage(data, items, budget, payload);
    }
  }

  /** One character too many costs a page its last item, while its next_cursor goes on behind that item. */
  lemma LastItemLost(data: seq<Field>, init: seq<Json>, last: Json, maximum: nat)
    requires IsIndexAnswer(data, init + [last]) && init != [] && Get(data, "truncated").None? && Size(last) >= 17
    requires Size(Object(data)) == maximum + 1
    ensures ItemsIn(FittedData(Object(data), maximum)) == Some(init) && Size(FittedData(Object(data), maximum)) <= maximum
    ensures Get(FittedData(Object(data), maximum).fields, "next_cursor") == Get(data, "next_cursor")
  {
    var items := init + [last];
    KeptItemsIff(data, items, maximum);
    assert items[..|init|] == init;
    CutByOne(data, init, last);
    var cut := Put(data, "items", Array(init));
    GetPut(data, "items", Array(init), "truncated");
    assert cut == CutTo(data, "items", items, |init|);
    assert Size(Object(CutTo(data, "items", items, |init|))) <= maximum;
    FullLists(data, items, maximum);
    GetPut(data, "items", Array(init), "items");
    GetPut(data, "items", Array(init), "next_cursor");
    MarkFits(cut, init, maximum);
  }

  lemma MarkFits(cut: seq<Field>, items: seq<Json>, maximum: nat)
    requires Get(cut, "items") == Some(Array(items)) && Get(cut, "truncated").None?
    requires cut != [] && Size(Object(cut)) + 17 <= maximum
    ensures ItemsIn(Marked(cut, maximum)) == Some(items) && Size(Marked(cut, maximum)) <= maximum
    ensures Get(Marked(cut, maximum).fields, "next_cursor") == Get(cut, "next_cursor")
  {
    PutSize(cut, "truncated", Bool(true));
    PlainSize("truncated");
    GetPut(cut, "truncated", Bool(true), "items");
    GetPut(cut, "truncated", Bool(true), "next_cursor");
  }

  lemma {:induction false} ItemsSizeAppend(init: seq<Json>, last: Json)
    ensures ItemsSize(init + [last]) == ItemsSize(init) + (if init == [] then 0 else 1) + Size(last)
  {
    if init == [] {
      assert init + [last] == [last] && [last][1..] == [];
    } else {
      assert (init + [last])[1..] == init[1..] + [last];
      ItemsSizeAppend(init[1..], last);
    }
  }

  lemma CutByOne(data: seq<Field>, init: seq<Json>, last: Json)
    requires Get(data, "items") == Some(Array(init + [last])) && init != []
    ensures Size(Object(Put(data, "items", Array(init)))) == Size(Object(data)) - 1 - Size(last)
  {
    PutSize(data, "items", Array(init));
    ItemsSizeAppend(init, last);
  }

  /** A list of an answer that fits stays whole. */
  lemma PoppedFits(data: seq<Field>, key: string, maximum: nat)
    requires Size(Object(data)) <= maximum
    ensures Popped(data, key, maximum) == data
  {
    var list := Get(data, key);
    if list.Some? && list.value.Array? {
      var items := list.value.items;
      assert items[..|items|] == items;
      PutSame(data, key, Array(items));
    }
  }

  lemma FullLists(data: seq<Field>, items: seq<Json>, maximum: nat)
    requires IsIndexAnswer(data, items)
    requires Size(Object(CutTo(data, "items", items, KeptItems(data, items, maximum)))) <= maximum
    ensures Shortened(data, LISTS, maximum, false, |LISTS|) == CutTo(data, "items", items, KeptItems(data, items, maximum))
  {
    var cut := CutTo(data, "items", items, KeptItems(data, items, maximum));
    assert Shortened(data, LISTS, maximum, false, 0) == data;
    assert Shortened(data, LISTS, maximum, false, 1) == data;
    assert Shortened(data, LISTS, maximum, false, 2) == data;
    assert Shortened(data, LISTS, maximum, false, 3) == cut;
    PoppedFits(cut, "events", maximum);
    PoppedFits(cut, "pending_approvals", maximum);
    assert Shortened(data, LISTS, maximum, false, 4) == cut;
    assert Shortened(data, LISTS, maximum, false, 5) == cut;
  }

  // ----- the pages that the service hands over -----

  /** What listing the index of an unchanging project depends on besides the offset. */
  datatype IndexRead = IndexRead(projectData: Json, project: string, records: seq<Json>, approvals: Json, limit: nat,
                                 maxReturnChars: int, sensitive: string -> bool, isLocal: string -> bool)

  /** The fields that a client of the index relies on survive the redaction. */
  ghost predicate LeavesIndex(r: IndexRead) {
    && !r.sensitive("items") && !r.sensitive("next_cursor")
    && forall offset: nat :: !r.isLocal(EncodeCursor(r.project, offset))
  }

  function NextCursor(r: IndexRead, next: Option<nat>): Json {
    match next case Some(offset) => Text(EncodeCursor(r.project, offset)) case None => Null
  }

  /** The service's answer for one page. */
  function PageAnswer(r: IndexRead, offset: nat): seq<Field> {
    var (rows, next) := Page(r.records, offset, r.limit);
    [Field("project", r.projectData), Field("items", Array(rows)), Field("pending_approvals", r.approvals),
     Field("offset", Number(offset)), Field("limit", Number(r.limit)), Field("total_items", Number(|r.records|)),
     Field("has_more", Bool(next.Some?)), Field("next_cursor", NextCursor(r, next))]
  }

  function ServedPage(r: IndexRead, offset: nat): seq<Field> {
    SafeFields(r.sensitive, r.isLocal, PageAnswer(r, offset))
  }

  /** The records as the client may see them. */
  function SafeRecords(r: IndexRead): (safe: seq<Json>)
    ensures |safe| == |r.records|
  {
    SafeItems(r.sensitive, r.isLocal, r.records)
  }

  predicate PageFits(r: IndexRead, offset: nat) {
    Size(Object(ServedPage(r, offset))) <= Budget(r.maxReturnChars)
  }

  lemma {:induction false} SafeDrop(sensitive: string -> bool, isLocal: string -> bool, items: seq<Json>, from: nat)
    requires from <= |items|
    ensures SafeItems(sensitive, isLocal, items[from..]) == SafeItems(sensitive, isLocal, items)[from..]
  {
    if from > 0 {
      SafeDrop(sensitive, isLocal, items[1..], from - 1);
      assert items[1..][from - 1..] == items[from..];
    }
  }

  lemma {:induction false} SafeTake(sensitive: string -> bool, isLocal: string -> bool, items: seq<Json>, to: nat)
    requires to <= |items|
    ensures SafeItems(sensitive, isLocal, items[..to]) == SafeItems(sensitive, isLocal, items)[..to]
  {
    if to > 0 {
      SafeTake(sensitive, isLocal, items[1..], to - 1);
      assert items[..to][1..] == items[1..][..to - 1];
    }
  }

  lemma SafeSlice(sensitive: string -> bool, isLocal: string -> bool, items: seq<Json>, from: nat, to: nat)
    requires from <= to <= |items|
    ensures SafeItems(sensitive, isLocal, items[from..to]) == SafeItems(sensitive, isLocal, items)[from..to]
  {
    SafeTake(sensitive, isLocal, items, to);
    SafeDrop(sensitive, isLocal, items[..to], from);
  }

  function PageEnd(r: IndexRead, offset: nat): nat {
    Min(offset + r.limit, |r.records|)
  }

  lemma PageFields(r: IndexRead, offset: nat)
    requires offset <= |r.records|
    ensures var end := PageEnd(r, offset);
            && Get(PageAnswer(r, offset), "items") == Some(Array(r.records[offset..end]))
            && Get(PageAnswer(r, offset), "next_cursor") == Some(NextCursor(r, if end < |r.records| then Some(end) else None))
            && Get(PageAnswer(r, offset), "results").None? && Get(PageAnswer(r, offset), "context").None?
  {
    var page := PageAnswer(r, offset);
    GetAt(page, "items", 1);
    GetAt(page, "next_cursor", 7);
    GetNone(page, "results");
    GetNone(page, "context");
  }

  lemma ServedFields(r: IndexRead, offset: nat)
    requires offset <= |r.records| && LeavesIndex(r)
    ensures var end := PageEnd(r, offset);
            && IsIndexAnswer(ServedPage(r, offset), SafeRecords(r)[offset..end])
            && Get(ServedPage(r, offset), "next_cursor") == Some(NextCursor(r, if end < |r.records| then Some(end) else None))
  {
    var page := PageAnswer(r, offset);
    PageFields(r, offset);
    GetSafe(r.sensitive, r.isLocal, page, "items");
    GetSafe(r.sensitive, r.isLocal, page, "next_cursor");
    StaysAbsent(r.sensitive, r.isLocal, page, "results");
    StaysAbsent(r.sensitive, r.isLocal, page, "context");
    SafeSlice(r.sensitive, r.isLocal, r.records, offset, PageEnd(r, offset));
  }

  /** What arrives of one page: a prefix of its records, all of them just when it fits, and the cursor behind it. */
  ghost predicate Shown(r: IndexRead, offset: nat, items: Option<seq<Json>>, next: Option<string>)
    requires offset <= |r.records|
  {
    var end := PageEnd(r, offset);
    if items.None? then !PageFits(r, offset) else
    && |items.value| <= end - offset && items.value == SafeRecords(r)[offset..offset + |items.value|]
    && (offset < end ==> (|items.value| == end - offset <==> PageFits(r, offset)))
    && next == if end < |r.records| then Some(EncodeCursor(r.project, end)) else None
  }

  function CursorIn(payload: Json): Option<string> {
    if !payload.Object? then None else
    match Get(payload.fields, "next_cursor") case Some(Text(cursor)) => Some(cursor) case _ => None
  }

  lemma PageShown(r: IndexRead, offset: nat, data: seq<Field>, items: seq<Json>, payload: Json)
    requires offset <= |r.records| && items == SafeRecords(r)[offset..PageEnd(r, offset)]
    requires PageFits(r, offset) <==> Size(Object(data)) <= Budget(r.maxReturnChars)
    requires IsIndexAnswer(data, items) && CarriesData(Object(data), Budget(r.maxReturnChars), payload)
    requires var end := PageEnd(r, offset);
             Get(data, "next_cursor") == Some(NextCursor(r, if end < |r.records| then Some(end) else None))
    ensures Shown(r, offset, ItemsIn(payload), CursorIn(payload))
  {
    var end := PageEnd(r, offset);
    PageArrives(data, items, Budget(r.maxReturnChars), payload);
    if ItemsIn(payload).Some? {
      CursorArrives(r, payload, if end < |r.records| then Some(end) else None);
      SliceOfRecords(SafeRecords(r), offset, end, |ItemsIn(payload).value|);
    }
  }

  lemma OnePage(r: IndexRead, offset: nat, payload: Json)
    requires offset <= |r.records| && LeavesIndex(r)
    requires CarriesData(Object(ServedPage(r, offset)), Budget(r.maxReturnChars), payload)
    ensures Shown(r, offset, ItemsIn(payload), CursorIn(payload))
  {
    ServedFields(r, offset);
    PageShown(r, offset, ServedPage(r, offset), SafeRecords(r)[offset..PageEnd(r, offset)], payload);
  }

  lemma CursorArrives(r: IndexRead, payload: Json, next: Option<nat>)
    requires payload.Object? && Get(payload.fields, "next_cursor") == Some(NextCursor(r, next))
    ensures CursorIn(payload) == if next.Some? then Some(EncodeCursor(r.project, next.value)) else None
  {
  }

  lemma SliceOfRecords<T>(xs: seq<T>, offset: nat, end: nat, kept: nat)
    requires offset <= end <= |xs| && kept <= end - offset
    ensures xs[offset..end][..kept] == xs[offset..offset + kept]
  {
  }

  /** Asks for one page and reads its items and its cursor. */
  method FetchPage(r: IndexRead, offset: nat, traceId: string)
    returns (items: Option<seq<Json>>, next: Option<string>)
    requires IsTraceId(traceId) && LeavesIndex(r) && offset <= |r.records|
    ensures Shown(r, offset, items, next)
  {
    var response := Invoke(Object(ServedPage(r, offset)), r.maxReturnChars, false, traceId);
    var payload := SectionReading.Payload(response).value;
    OnePage(r, offset, payload);
    return ItemsIn(payload), CursorIn(payload);
  }

  /** Every page from `offset` on fits its budget. */
  predicate PagesFit(r: IndexRead, offset: nat)
    requires r.limit >= 1
    decreases |r.records| - offset
  {
    PageFits(r, offset) && (offset + r.limit < |r.records| ==> PagesFit(r, offset + r.limit))
  }

  /**
   Follows next_cursor from the first page on.  The client ends with every record,
   in order, just when every page fits its budget, and can be asked for, as the
   first million records always can; otherwise it has fewer, without being told
   which.
   */
  method ListThroughMcp(r: IndexRead, traceId: string) returns (listed: seq<Json>)
    requires IsTraceId(traceId) && 1 <= r.limit <= 20 && ValidProjectId(r.project) && LeavesIndex(r)
    ensures |listed| <= |r.records|
    ensures r.records != [] ==> (listed == SafeRecords(r) <==> PagesFit(r, 0) && |r.records| <= Reach(r.limit))
    ensures 0 < |r.records| <= ContextIndex.LAST_OFFSET ==> (listed == SafeRecords(r) <==> PagesFit(r, 0))
  {
    listed := [];
    var cursor: Option<string> := None;
    ghost var at: nat, k: nat, whole := 0, 0, true;
    AskableIff(0, r.limit);
    while true
      invariant at == k * r.limit <= Reach(r.limit) && at <= |r.records| && |listed| <= at
      invariant if cursor.None? then at == 0 else 0 < at < |r.records| && cursor == Some(EncodeCursor(r.project, at))
      invariant if whole then Whole(r, at, listed) else |listed| < at && !PagesFit(r, 0)
      decreases |r.records| - at
    {
      var offset := 0;
      AskableIff(k, r.limit);
      if cursor.Some? {
        OwnCursor(r.project, at);
        var decoded := DecodeCursor(cursor.value, r.project);
        if !decoded.Offset? {
          return;
        }
        offset := decoded.value;
      }
      var items, next := FetchPage(r, offset, traceId);
      if items.None? {
        return;
      }
      if at < |r.records| {
        PageAdded(r, at, listed, items.value, next);
      }
      listed := listed + items.value;
      whole := whole && (r.records == [] || PageFits(r, offset));
      at, k := PageEnd(r, offset), k + 1;
      if next.None? {
        return;
      }
      cursor := next;
    }
  }

  /** Nothing has been lost so far. */
  ghost predicate Whole(r: IndexRead, at: nat, listed: seq<Json>)
    requires r.limit >= 1 && at <= |r.records|
  {
    && listed == SafeRecords(r)[..at]
    && (r.records != [] ==> (PagesFit(r, 0) <==> (at < |r.records| ==> PagesFit(r, at))))
  }

  lemma PageAdded(r: IndexRead, at: nat, listed: seq<Json>, items: seq<Json>, next: Option<string>)
    requires r.limit >= 1 && at < |r.records| && Shown(r, at, Some(items), next)
    ensures Whole(r, at, listed) && PageFits(r, at) ==> Whole(r, PageEnd(r, at), listed + items)
    ensures Whole(r, at, listed) && !PageFits(r, at) ==> !PagesFit(r, 0)
    ensures !PageFits(r, at) ==> |items| < PageEnd(r, at) - at
  {
    GoesOn(r, at);
    if Whole(r, at, listed) && PageFits(r, at) {
      PrefixAndPage(SafeRecords(r), at, PageEnd(r, at));
    }
  }

  lemma GoesOn(r: IndexRead, at: nat)
    requires r.limit >= 1 && at < |r.records|
    ensures var end := PageEnd(r, at);
            && at < end <= |r.records|
            && (PagesFit(r, at) <==> PageFits(r, at) && (end < |r.records| ==> PagesFit(r, end)))
  {
  }

  lemma PrefixAndPage<T>(xs: seq<T>, at: nat, end: nat)
    requires at <= end <= |xs|
    ensures xs[..at] + xs[at..end] == xs[..end]
  {
  }

  // ----- a page that loses a record -----

  lemma NotYetTruncated(r: IndexRead)
    ensures Get(ServedPage(r, 0), "truncated").None?
  {
    GetNone(PageAnswer(r, 0), "truncated");
    StaysAbsent(r.sensitive, r.isLocal, PageAnswer(r, 0), "truncated");
  }

  lemma LastOfFirst<T>(xs: seq<T>, n: nat)
    requires 1 <= n <= |xs|
    ensures xs[0..n] == xs[..n - 1] + [xs[n - 1]]
  {
  }

  lemma FirstItems(r: IndexRead)
    requires 2 <= r.limit < |r.records|
    ensures PageEnd(r, 0) == r.limit
    ensures SafeRecords(r)[0..PageEnd(r, 0)] == SafeRecords(r)[..r.limit - 1] + [SafeRecords(r)[r.limit - 1]]
  {
    LastOfFirst(SafeRecords(r), r.limit);
  }

  /** The items of an answer are a list with a last element. */
  predicate EndsWith(data: seq<Field>, items: seq<Json>, init: seq<Json>, last: Json) {
    IsIndexAnswer(data, items) && items == init + [last]
  }

  lemma FirstPage(r: IndexRead)
    requires LeavesIndex(r) && 2 <= r.limit < |r.records|
    ensures EndsWith(ServedPage(r, 0), SafeRecords(r)[0..PageEnd(r, 0)], SafeRecords(r)[..r.limit - 1], SafeRecords(r)[r.limit - 1])
    ensures Get(ServedPage(r, 0), "next_cursor") == Some(Text(EncodeCursor(r.project, r.limit)))
  {
    ServedFields(r, 0);
    FirstItems(r);
  }

  lemma FirstPageFitted(r: IndexRead, budget: nat)
    requires LeavesIndex(r) && 2 <= r.limit < |r.records|
    requires Size(Object(ServedPage(r, 0))) == budget + 1 && Size(SafeRecords(r)[r.limit - 1]) >= 17
    ensures var fitted := FittedData(Object(ServedPage(r, 0)), budget);
            && Size(fitted) <= budget && ItemsIn(fitted) == Some(SafeRecords(r)[..r.limit - 1])
            && CursorIn(fitted) == Some(EncodeCursor(r.project, r.limit))
  {
    FirstPage(r);
    NotYetTruncated(r);
    LastItemLost(ServedPage(r, 0), SafeRecords(r)[..r.limit - 1], SafeRecords(r)[r.limit - 1], budget);
  }

  /** The first page is one character too large: its last record is lost, and the cursor goes on behind it. */
  lemma FirstPageLoses(r: IndexRead, payload: Json)
    requires LeavesIndex(r) && 2 <= r.limit < |r.records|
    requires Size(Object(ServedPage(r, 0))) == Budget(r.maxReturnChars) + 1
    requires CarriesData(Object(ServedPage(r, 0)), Budget(r.maxReturnChars), payload)
    requires Size(SafeRecords(r)[r.limit - 1]) >= 17
    ensures ItemsIn(payload) == Some(SafeRecords(r)[..r.limit - 1])
    ensures CursorIn(payload) == Some(EncodeCursor(r.project, r.limit))
  {
    FirstPageFitted(r, Budget(r.maxReturnChars));
  }

  /** The record of an item as the index lists it. */
  function ItemRecord(itemId: string, versionId: string): Json {
    Object([Field("item_id", Text(itemId)), Field("kind", Text("note")), Field("status", Text("draft")),
            Field("supersedes_item_id", Null), Field("has_successor", Bool(false)), Field("is_current", Bool(true)),
            Field("version_id", Text(versionId)), Field("updated_at", Text("2025-01-01T00:00:00+00:00")),
            Field("available_sections", Array([Text("body")])), Field("source_link_count", Number(0)),
            Field("source_link_relations", Object([])), Field("payload_complete", Bool(false))])
  }

  /** Pages of two of three notes. */
  function ThreeNotes(): IndexRead {
    IndexRead(Object([Field("project_id", Text("default"))]), "default",
              [ItemRecord("note_1", "version_1"), ItemRecord("note_2", "version_2"), ItemRecord("note_3", "version_3")],
              Array([]), 2, 16000, key => false, text => false)
  }

  /** The same read under an output cap that its first page exceeds by one character. */
  function Tightened(r: IndexRead): IndexRead {
    r.(maxReturnChars := Size(Object(ServedPage(r, 0))) + 239)
  }

  lemma {:induction false} NothingSensitive(sensitive: string -> bool, isLocal: string -> bool, v: Json)
    requires forall s: string :: !sensitive(s) && !isLocal(s)
    ensures SafeData(sensitive, isLocal, v) == v
  {
    match v
    case Array(items) => NoSensitiveItems(sensitive, isLocal, items);
    case Object(fields) => NoSensitiveFields(sensitive, isLocal, fields);
    case _ =>
  }

  lemma {:induction false} NoSensitiveItems(sensitive: string -> bool, isLocal: string -> bool, items: seq<Json>)
    requires forall s: string :: !sensitive(s) && !isLocal(s)
    ensures SafeItems(sensitive, isLocal, items) == items
  {
    if items != [] {
      NothingSensitive(sensitive, isLocal, items[0]);
      NoSensitiveItems(sensitive, isLocal, items[1..]);
    }
  }

  lemma {:induction false} NoSensitiveFields(sensitive: string -> bool, isLocal: string -> bool, fields: seq<Field>)
    requires forall s: string :: !sensitive(s) && !isLocal(s)
    ensures SafeFields(sensitive, isLocal, fields) == fields
  {
    if fields != [] {
      NothingSensitive(sensitive, isLocal, fields[0].value);
      NoSensitiveFields(sensitive, isLocal, fields[1..]);
    }
  }

  lemma RecordIsLarge(itemId: string, versionId: string)
    ensures Size(ItemRecord(itemId, versionId)) >= 29
  {
    var fields := ItemRecord(itemId, versionId).fields;
    GetAt(fields, "updated_at", 7);
    GetCost(fields, "updated_at");
    SizeAtLeast("2025-01-01T00:00:00+00:00");
  }

  /** A page is larger than each of its records. */
  lemma PageIsLarge(data: seq<Field>, init: seq<Json>, last: Json)
    requires Get(data, "items") == Some(Array(init + [last]))
    ensures Size(Object(data)) >= Size(last) + 4
  {
    GetCost(data, "items");
    ItemsSizeAppend(init, last);
  }

  lemma SecondOfThreeLost(r: IndexRead, payload: Json)
    requires |r.records| == 3 && r.limit == 2 && Size(r.records[1]) >= 29
    requires forall s: string :: !r.sensitive(s) && !r.isLocal(s)
    requires r.maxReturnChars == Size(Object(ServedPage(r, 0))) + 239
    requires CarriesData(Object(ServedPage(r, 0)), Budget(r.maxReturnChars), payload)
    ensures ItemsIn(payload) == Some([r.records[0]]) && CursorIn(payload) == Some(EncodeCursor(r.project, 2))
  {
    NoSensitiveItems(r.sensitive, r.isLocal, r.records);
    FirstPage(r);
    PageIsLarge(ServedPage(r, 0), SafeRecords(r)[..1], SafeRecords(r)[1]);
    FirstPageLoses(r, payload);
  }

  /** Of these notes the second never arrives: the next page begins with the third. */
  lemma SecondNoteLost(r: IndexRead, payload: Json)
    requires r == Tightened(ThreeNotes()) && CarriesData(Object(ServedPage(r, 0)), Budget(r.maxReturnChars), payload)
    ensures |r.records| == 3 && r.limit == 2
    ensures ItemsIn(payload) == Some([r.records[0]]) && CursorIn(payload) == Some(EncodeCursor(r.project, 2))
  {
    RecordIsLarge("note_2", "version_2");
    SecondOfThreeLost(r, payload);
  }
}
