/**
 The literature acquisition run: bibliography items, explicit DOIs and recent
 works become candidates; each is downloaded, skipped because the download
 budget is used up, or queued for a person.  Empty strings are missing values.
 */
module Acquisition {
  import opened Text
  import opened Wrappers

  datatype Source = Bibliography | Explicit | Recent

  datatype Item = Item(id: nat, source: Source, title: string, citation: string, doi: string)

  /** A bibliography line, before it has an item id. */
  datatype Reference = Reference(title: string, citation: string, doi: string)

  datatype Work = Work(title: string, doi: string, hasPdf: bool)

  datatype Download = NoDownload | Downloaded | DownloadFailed | SkippedLimit

  /** `tried`: the resolver was asked; `limited`: its error was a rate limit. */
  datatype Candidate = Candidate(item: Item, resolved: Option<Work>, tried: bool, limited: bool, download: Download)

  datatype QueueEntry = QueueEntry(key: string, itemId: nat)

  datatype Resolution = Resolution(work: Option<Work>, limited: bool)

  /**
   What lies outside: the resolver (asked with or without OpenAlex), the
   downloader, str.lower, and the normalization of titles.
   */
  datatype World = World(resolve: (Item, bool) -> Resolution, lookup: Work -> Resolution, fetch: (Item, Work) -> bool,
                         lower: string -> string, normal: string -> string)

  const MAX_CONSECUTIVE_RATE_LIMITS := 3

  function FirstOf(a: string, b: string): string {
    if a != "" then a else b
  }

  function TitleOf(w: Option<Work>): string {
    if w.Some? then w.value.title else ""
  }

  function DoiOf(w: Option<Work>): string {
    if w.Some? then w.value.doi else ""
  }

  /** The key of a row of the manual queue. */
  function ManualKey(world: World, item: Item, resolved: Option<Work>): string {
    var doi := FirstOf(DoiOf(resolved), item.doi);
    var title := FirstOf(TitleOf(resolved), FirstOf(item.title, FirstOf(item.citation, "unknown")));
    if doi != "" then "doi:" + world.lower(doi) else "title:" + world.normal(title)
  }

  /** The key by which repeated works are dropped; empty if there is nothing to compare. */
  function SeenKey(world: World, title: string, doi: string): string {
    if doi != "" then "doi:" + Strip(world.lower(doi))
    else if world.normal(title) != "" then "title:" + world.normal(title) else ""
  }

  // ----- what a run keeps -----

  function CountDownloaded(cs: seq<Candidate>): nat {
    if cs == [] then 0
    else CountDownloaded(cs[..|cs| - 1]) + if cs[|cs| - 1].download == Downloaded then 1 else 0
  }

  predicate NeedsPerson(c: Candidate) {
    c.download == NoDownload || c.download == DownloadFailed
  }

  /** Downloaded, skipped for the budget, or in the manual queue under its key. */
  ghost predicate IsSettled(keyOf: Candidate -> string, c: Candidate, keys: set<string>) {
    NeedsPerson(c) ==> keyOf(c) in keys
  }

  /** The queue's row stems from a candidate that needs a person. */
  ghost predicate StemsFrom(keyOf: Candidate -> string, q: QueueEntry, cs: seq<Candidate>) {
    && 1 <= q.itemId <= |cs| && NeedsPerson(cs[q.itemId - 1])
    && q.key == keyOf(cs[q.itemId - 1])
  }

  ghost predicate QueueOk(keyOf: Candidate -> string, queue: seq<QueueEntry>, keys: set<string>, cs: seq<Candidate>) {
    && (forall i, j :: 0 <= i < j < |queue| ==> queue[i].key != queue[j].key)
    && (forall q :: q in queue ==> q.key in keys && StemsFrom(keyOf, q, cs))
    && (forall key :: key in keys ==> exists q :: q in queue && q.key == key)
  }

  /** Conservation: budget, settlement, numbering, and a queue without repetitions. */
  ghost predicate Conserves(keyOf: Candidate -> string, budget: nat, left: nat, cs: seq<Candidate>, queue: seq<QueueEntry>, keys: set<string>) {
    && CountDownloaded(cs) + left == budget
    && (forall i :: 0 <= i < |cs| ==> cs[i].item.id == i + 1 && IsSettled(keyOf, cs[i], keys))
    && (forall i :: 0 <= i < |cs| && cs[i].download == SkippedLimit ==> left == 0)
    && QueueOk(keyOf, queue, keys, cs)
  }

  /** The last three candidates before `k` were tried and rate-limited. */
  predicate Trips(cs: seq<Candidate>, k: nat)
    requires k <= |cs|
  {
    && MAX_CONSECUTIVE_RATE_LIMITS <= k
    && forall i :: k - MAX_CONSECUTIVE_RATE_LIMITS <= i < k ==> cs[i].tried && cs[i].limited
  }

  /** The resolver is left alone exactly from the first three rate limits in a row on. */
  ghost predicate BreakerHolds(cs: seq<Candidate>) {
    forall i :: 0 <= i < |cs| ==> (cs[i].tried <==> forall k: nat :: k <= i ==> !Trips(cs, k))
  }

  predicate IsGiven(doi: string) {
    doi != ""
  }

  /** Once tripped, the breaker stays so, and everything later goes to the queue. */
  lemma BreakerIsAbsorbing(cs: seq<Candidate>, i: nat, j: nat)
    requires BreakerHolds(cs) && i <= j < |cs| && !cs[i].tried
    ensures !cs[j].tried
  {
    var k: nat :| k <= i && Trips(cs, k);
  }

  /** No work is listed twice, as far as DOI or title tell; explicit DOIs are always taken. */
  ghost predicate NoRepeats(keyOf: (string, string) -> string, items: seq<Item>, seen: set<string>) {
    && (forall i :: 0 <= i < |items| && items[i].source != Explicit && KeyAt(keyOf, items, i) != ""
          ==> KeyAt(keyOf, items, i) in seen)
    && (forall i, j ::
          0 <= i < j < |items| && items[i].source != Explicit && items[j].source != Explicit && KeyAt(keyOf, items, i) != ""
          ==> KeyAt(keyOf, items, i) != KeyAt(keyOf, items, j))
  }

  function KeyAt(keyOf: (string, string) -> string, items: seq<Item>, i: nat): string
    requires i < |items|
  {
    keyOf(items[i].title, items[i].doi)
  }

  lemma NextItem(keyOf: (string, string) -> string, items: seq<Item>, seen: set<string>, item: Item)
    requires NoRepeats(keyOf, items, seen)
    requires var key := keyOf(item.title, item.doi);
             item.source != Explicit && key != "" ==> key !in seen
    ensures var key := keyOf(item.title, item.doi);
            NoRepeats(keyOf, items + [item], if item.source == Explicit || key == "" then seen else seen + {key})
  {
    var after := items + [item];
    assert forall i :: 0 <= i < |items| ==> KeyAt(keyOf, after, i) == KeyAt(keyOf, items, i);
    assert KeyAt(keyOf, after, |items|) == keyOf(item.title, item.doi);
  }

  // ----- what is taken -----

  /** The references of a bibliography, as items without a number. */
  function AskedReferences(references: seq<Reference>): (r: seq<Item>)
    ensures |r| == |references|
    ensures forall i :: 0 <= i < |r| ==> r[i] == Item(0, Bibliography, references[i].title, references[i].citation, references[i].doi)
  {
    seq(|references|, i requires 0 <= i < |references| =>
      Item(0, Bibliography, references[i].title, references[i].citation, references[i].doi))
  }

  function AskedDois(dois: seq<string>): (r: seq<Item>)
    ensures |r| == |dois| && forall i :: 0 <= i < |r| ==> r[i] == Item(0, Explicit, "", "", dois[i])
  {
    seq(|dois|, i requires 0 <= i < |dois| => Item(0, Explicit, "", "", dois[i]))
  }

  function AskedWorks(works: seq<Work>): (r: seq<Item>)
    ensures |r| == |works|
    ensures forall i :: 0 <= i < |r| ==> r[i] == Item(0, Recent, works[i].title, works[i].title, works[i].doi)
  {
    seq(|works|, i requires 0 <= i < |works| => Item(0, Recent, works[i].title, works[i].title, works[i].doi))
  }

  function Unnumbered(items: seq<Item>): (r: seq<Item>)
    ensures |r| == |items| && forall i :: 0 <= i < |r| ==> r[i] == items[i].(id := 0)
  {
    seq(|items|, i requires 0 <= i < |items| => items[i].(id := 0))
  }

  function Flat(entries: seq<seq<Reference>>): seq<Reference> {
    if entries == [] then [] else Flat(entries[..|entries| - 1]) + entries[|entries| - 1]
  }

  /** What was asked for has nothing to compare, or is the first with its key. */
  predicate IsNew(keyOf: (string, string) -> string, seen: set<string>, asked: seq<Item>, i: nat)
    requires i < |asked|
  {
    || KeyAt(keyOf, asked, i) == ""
    || (KeyAt(keyOf, asked, i) !in seen && forall j :: 0 <= j < i ==> KeyAt(keyOf, asked, j) != KeyAt(keyOf, asked, i))
  }

  /** What is new among the things asked for, in their order. */
  function NewOnes(keyOf: (string, string) -> string, seen: set<string>, asked: seq<Item>): seq<Item> {
    if asked == [] then [] else
    var last := |asked| - 1;
    NewOnes(keyOf, seen, asked[..last]) + if IsNew(keyOf, seen, asked, last) then [asked[last]] else []
  }

  /** Something asked for is taken iff it has nothing to compare or comes first with its key. */
  lemma {:induction false} TakenIff(keyOf: (string, string) -> string, seen: set<string>, asked: seq<Item>, item: Item)
    ensures item in NewOnes(keyOf, seen, asked) <==> exists i: nat :: i < |asked| && asked[i] == item && IsNew(keyOf, seen, asked, i)
  {
    if asked != [] {
      var init := asked[..|asked| - 1];
      TakenIff(keyOf, seen, init, item);
      assert forall i :: 0 <= i < |init| ==> KeyAt(keyOf, init, i) == KeyAt(keyOf, asked, i);
      assert forall i: nat :: i < |init| ==> init[i] == asked[i] && (IsNew(keyOf, seen, init, i) <==> IsNew(keyOf, seen, asked, i));
    }
  }

  function KeysOf(keyOf: (string, string) -> string, asked: seq<Item>): set<string> {
    set i: nat | i < |asked| && KeyAt(keyOf, asked, i) != "" :: KeyAt(keyOf, asked, i)
  }

  lemma NewGoesOn(keyOf: (string, string) -> string, seen: set<string>, asked: seq<Item>, item: Item)
    ensures var key := keyOf(item.title, item.doi);
            && NewOnes(keyOf, seen, asked + [item]) ==
                 NewOnes(keyOf, seen, asked) + (if key == "" || key !in seen + KeysOf(keyOf, asked) then [item] else [])
            && KeysOf(keyOf, asked + [item]) == KeysOf(keyOf, asked) + (if key == "" then {} else {key})
  {
    var after, key := asked + [item], keyOf(item.title, item.doi);
    assert after[..|asked|] == asked;
    assert forall i: nat :: i < |asked| ==> KeyAt(keyOf, after, i) == KeyAt(keyOf, asked, i);
    assert KeyAt(keyOf, after, |asked|) == key;
    if key != "" {
      assert key in KeysOf(keyOf, asked) <==> exists j: nat :: j < |asked| && KeyAt(keyOf, asked, j) == key;
    }
    forall k | k in KeysOf(keyOf, asked) ensures k in KeysOf(keyOf, after) {
      var i: nat :| i < |asked| && KeyAt(keyOf, asked, i) == k && k != "";
      assert KeyAt(keyOf, after, i) == k;
    }
  }

  /** The later part of what is asked for is compared with the earlier part as well. */
  lemma {:induction false} NewSplits(keyOf: (string, string) -> string, seen: set<string>, a: seq<Item>, b: seq<Item>)
    ensures NewOnes(keyOf, seen, a + b) == NewOnes(keyOf, seen, a) + NewOnes(keyOf, seen + KeysOf(keyOf, a), b)
    ensures KeysOf(keyOf, a + b) == KeysOf(keyOf, a) + KeysOf(keyOf, b)
  {
    if b == [] {
      assert a + b == a;
    } else {
      var init, last := b[..|b| - 1], b[|b| - 1];
      assert a + b == (a + init) + [last] && b == init + [last];
      NewSplits(keyOf, seen, a, init);
      NewGoesOn(keyOf, seen, a + init, last);
      NewGoesOn(keyOf, seen + KeysOf(keyOf, a), init, last);
    }
  }

  /** All that a run takes: the bibliography up to the limit, every DOI that parsed, and the works new to the whole bibliography. */
  function Expected(keyOf: (string, string) -> string, entries: seq<seq<Reference>>, maxItems: Option<nat>, dois: seq<string>,
                    works: seq<Work>): seq<Item>
  {
    ListedOf(keyOf, entries, maxItems) + AskedDois(Filter(IsGiven, dois))
    + NewOnes(keyOf, KeysOf(keyOf, AskedReferences(Flat(entries))), AskedWorks(works))
  }

  /** A work that shares its key with a reference is not taken, even where the limit has cut that reference from the list. */
  lemma CutReferenceHidesWork(keyOf: (string, string) -> string, references: seq<Reference>, r: nat, works: seq<Work>, w: nat)
    requires r < |references| && w < |works|
    requires var key := keyOf(works[w].title, works[w].doi);
             key != "" && keyOf(references[r].title, references[r].doi) == key
    ensures AskedWorks(works)[w] !in NewOnes(keyOf, KeysOf(keyOf, AskedReferences(references)), AskedWorks(works))
  {
    var asked := AskedReferences(references);
    assert KeyAt(keyOf, asked, r) in KeysOf(keyOf, asked);
    TakenIff(keyOf, KeysOf(keyOf, asked), AskedWorks(works), AskedWorks(works)[w]);
  }

  function ListedOf(keyOf: (string, string) -> string, entries: seq<seq<Reference>>, maxItems: Option<nat>): seq<Item> {
    var listed := NewOnes(keyOf, {}, AskedReferences(Flat(entries)));
    if maxItems.Some? && |listed| > maxItems.value then listed[..maxItems.value] else listed
  }

  predicate Numbered(items: seq<Item>) {
    forall i :: 0 <= i < |items| ==> items[i].id == i + 1
  }

  function ItemsOf(cs: seq<Candidate>): (r: seq<Item>)
    ensures |r| == |cs| && forall i :: 0 <= i < |cs| ==> r[i] == cs[i].item
  {
    seq(|cs|, i requires 0 <= i < |cs| => cs[i].item)
  }

  lemma ItemsGrow(cs: seq<Candidate>, c: Candidate)
    ensures ItemsOf(cs + [c]) == ItemsOf(cs) + [c.item]
  {
  }

  /** No answer before the k-th was a rate limit: OpenAlex is still asked. */
  predicate Undisturbed(cs: seq<Candidate>, k: nat)
    requires k <= |cs|
  {
    forall j :: 0 <= j < k ==> !cs[j].limited
  }

  /** What was tried has the resolver's answer, without OpenAlex after the first rate limit; what was not tried has none. */
  ghost predicate Answered(resolve: (Item, bool) -> Resolution, cs: seq<Candidate>) {
    forall k :: 0 <= k < |cs| ==>
      Resolution(cs[k].resolved, cs[k].limited) ==
        if cs[k].tried then resolve(cs[k].item, Undisturbed(cs, k)) else Resolution(None, false)
  }

  lemma AnsweredNext(resolve: (Item, bool) -> Resolution, cs: seq<Candidate>, c: Candidate)
    requires Answered(resolve, cs)
    requires Resolution(c.resolved, c.limited) ==
               if c.tried then resolve(c.item, Undisturbed(cs, |cs|)) else Resolution(None, false)
    ensures Answered(resolve, cs + [c])
    ensures Undisturbed(cs + [c], |cs| + 1) <==> Undisturbed(cs, |cs|) && !c.limited
  {
    var after := cs + [c];
    assert forall k :: 0 <= k < |cs| ==> after[k] == cs[k];
    assert forall k: nat :: k <= |cs| ==> (Undisturbed(after, k) <==> Undisturbed(cs, k));
  }

  /** The next bibliography item, asked for unless three rate limits in a row came before. */
  lemma BibliographyNext(resolve: (Item, bool) -> Resolution, cs: seq<Candidate>, c: Candidate, disturbed: bool)
    requires FollowsCounter(cs, |cs|) && Answered(resolve, cs) && (disturbed <==> !Undisturbed(cs, |cs|))
    requires c.tried <==> StreakOf(cs, |cs|) < MAX_CONSECUTIVE_RATE_LIMITS
    requires Resolution(c.resolved, c.limited) == if c.tried then resolve(c.item, !disturbed) else Resolution(None, false)
    requires !c.tried ==> c.download == NoDownload
    ensures FollowsCounter(cs + [c], |cs + [c]|) && Answered(resolve, cs + [c])
    ensures StreakOf(cs + [c], |cs + [c]|)
            == if !c.tried then StreakOf(cs, |cs|) else if c.limited then StreakOf(cs, |cs|) + 1 else 0
    ensures disturbed || c.limited <==> !Undisturbed(cs + [c], |cs + [c]|)
  {
    CounterGoesOn(cs, c);
    AnsweredNext(resolve, cs, c);
  }

  lemma UnnumberedGrows(items: seq<Item>, item: Item)
    ensures Unnumbered(items + [item]) == Unnumbered(items) + [item.(id := 0)]
  {
  }

  lemma ReferencesGrow(references: seq<Reference>, r: nat)
    requires r < |references|
    ensures AskedReferences(references[..r + 1]) == AskedReferences(references[..r])
              + [Item(0, Bibliography, references[r].title, references[r].citation, references[r].doi)]
  {
  }

  lemma WorksGrow(works: seq<Work>, w: nat)
    requires w < |works|
    ensures AskedWorks(works[..w + 1]) == AskedWorks(works[..w])
              + [Item(0, Recent, works[w].title, works[w].title, works[w].doi)]
  {
  }

  lemma DoisGrow(dois: seq<string>, d: nat)
    requires d < |dois|
    ensures AskedDois(Filter(IsGiven, dois[..d + 1])) == AskedDois(Filter(IsGiven, dois[..d]))
              + (if IsGiven(dois[d]) then [Item(0, Explicit, "", "", dois[d])] else [])
  {
    assert dois[..d + 1] == dois[..d] + [dois[d]];
    FilterAppend(IsGiven, dois[..d], dois[d]);
  }

  /** `items` are those before and the new ones among what was asked for since, whose keys have been seen. */
  ghost predicate Took(keyOf: (string, string) -> string, seenBefore: set<string>, before: seq<Item>, asked: seq<Item>,
                       items: seq<Item>, seen: set<string>)
  {
    && NoRepeats(keyOf, items, seen)
    && Unnumbered(items) == Unnumbered(before) + NewOnes(keyOf, seenBefore, asked)
    && seen == seenBefore + KeysOf(keyOf, asked)
  }

  lemma TookNext(keyOf: (string, string) -> string, seenBefore: set<string>, before: seq<Item>, asked: seq<Item>,
                 items: seq<Item>, seen: set<string>, item: Item)
    requires Took(keyOf, seenBefore, before, asked, items, seen) && item.source != Explicit
    ensures var key := keyOf(item.title, item.doi);
            if key == "" then Took(keyOf, seenBefore, before, asked + [item.(id := 0)], items + [item], seen)
            else if key in seen then Took(keyOf, seenBefore, before, asked + [item.(id := 0)], items, seen)
            else Took(keyOf, seenBefore, before, asked + [item.(id := 0)], items + [item], seen + {key})
  {
    var bare := item.(id := 0);
    NewGoesOn(keyOf, seenBefore, asked, bare);
    if keyOf(item.title, item.doi) == "" || keyOf(item.title, item.doi) !in seen {
      NextItem(keyOf, items, seen, item);
      UnnumberedGrows(items, item);
    }
  }

  /** `items` are those before and one for each DOI. */
  ghost predicate TookDois(keyOf: (string, string) -> string, before: seq<Item>, asked: seq<Item>, items: seq<Item>, seen: set<string>) {
    && NoRepeats(keyOf, items, seen)
    && Unnumbered(items) == Unnumbered(before) + asked
  }

  lemma TookNextDoi(keyOf: (string, string) -> string, before: seq<Item>, asked: seq<Item>, items: seq<Item>, seen: set<string>,
                    item: Item)
    requires TookDois(keyOf, before, asked, items, seen) && item.source == Explicit
    ensures TookDois(keyOf, before, asked + [item.(id := 0)], items + [item], seen)
  {
    NextItem(keyOf, items, seen, item);
    UnnumberedGrows(items, item);
  }

  lemma PrefixOf<T>(a: seq<T>, b: seq<T>, n: nat)
    requires n <= |a| && a <= b
    ensures |a| <= |b| && b[..|a|] == a && b[..n] == a[..n]
  {
  }

  /** The candidates are those of the first items, in order. */
  ghost predicate Takes(cs: seq<Candidate>, items: seq<Item>) {
    |cs| <= |items| && forall j :: 0 <= j < |cs| ==> cs[j].item == items[j]
  }

  lemma TakesNext(cs: seq<Candidate>, items: seq<Item>, c: Candidate)
    requires Takes(cs, items) && |cs| < |items| && c.item == items[|cs|]
    ensures Takes(cs + [c], items)
  {
  }

  lemma TakesAll(cs: seq<Candidate>, items: seq<Item>)
    requires Takes(cs, items) && |cs| == |items|
    ensures ItemsOf(cs) == items
  {
  }

  lemma QueueGrows(keyOf: Candidate -> string, queue: seq<QueueEntry>, keys: set<string>, cs: seq<Candidate>, c: Candidate)
    requires QueueOk(keyOf, queue, keys, cs) && c.item.id == |cs| + 1
    ensures QueueOk(keyOf, queue, keys, cs + [c])
    ensures var q := QueueEntry(keyOf(c), c.item.id);
            NeedsPerson(c) ==> QueueOk(keyOf, if q.key in keys then queue else queue + [q], keys + {q.key}, cs + [c])
  {
    var q := QueueEntry(keyOf(c), c.item.id);
    forall r | r in queue ensures StemsFrom(keyOf, r, cs + [c]) {
      assert StemsFrom(keyOf, r, cs);
    }
    if NeedsPerson(c) && q.key !in keys {
      assert StemsFrom(keyOf, q, cs + [c]);
      assert forall r :: r in queue + [q] <==> r in queue || r == q;
    }
  }

  /** One more candidate: the budget it uses and the row it adds keep everything conserved. */
  lemma CandidateConserves(keyOf: Candidate -> string, budget: nat, left: nat, cs: seq<Candidate>, queue: seq<QueueEntry>,
                           keys: set<string>, c: Candidate)
    requires Conserves(keyOf, budget, left, cs, queue, keys) && c.item.id == |cs| + 1
    requires c.download == Downloaded ==> left > 0
    requires c.download == SkippedLimit ==> left == 0
    ensures var q := QueueEntry(keyOf(c), c.item.id);
            var after := if c.download == Downloaded then left - 1 else left;
            if NeedsPerson(c) then
              Conserves(keyOf, budget, after, cs + [c], if q.key in keys then queue else queue + [q], keys + {q.key})
            else Conserves(keyOf, budget, after, cs + [c], queue, keys)
  {
    var q := QueueEntry(keyOf(c), c.item.id);
    assert (cs + [c])[..|cs|] == cs;
    QueueGrows(keyOf, queue, keys, cs, c);
    forall i | 0 <= i < |cs| ensures IsSettled(keyOf, (cs + [c])[i], keys) && IsSettled(keyOf, (cs + [c])[i], keys + {q.key}) {
      assert IsSettled(keyOf, cs[i], keys);
    }
  }

  /** The streak counter after the first `k` candidates. */
  function StreakOf(cs: seq<Candidate>, k: nat): nat
    requires k <= |cs|
  {
    if k == 0 then 0
    else
      var before, last := StreakOf(cs, k - 1), cs[k - 1];
      if !last.tried then before else if last.limited then before + 1 else 0
  }

  /** Each of the first `k` was tried just when the counter allowed it, and is otherwise left to a person. */
  ghost predicate FollowsCounter(cs: seq<Candidate>, k: nat)
    requires k <= |cs|
  {
    k == 0
    || (var c := cs[k - 1];
        && FollowsCounter(cs, k - 1)
        && (c.tried <==> StreakOf(cs, k - 1) < MAX_CONSECUTIVE_RATE_LIMITS)
        && (!c.tried ==> c.download == NoDownload))
  }

  lemma {:induction false} CounterOfPrefix(cs: seq<Candidate>, c: Candidate, k: nat)
    requires k <= |cs|
    ensures StreakOf(cs + [c], k) == StreakOf(cs, k)
    ensures FollowsCounter(cs + [c], k) == FollowsCounter(cs, k)
  {
    if k > 0 {
      CounterOfPrefix(cs, c, k - 1);
      assert (cs + [c])[k - 1] == cs[k - 1];
    }
  }

  lemma CounterGoesOn(cs: seq<Candidate>, c: Candidate)
    requires FollowsCounter(cs, |cs|) && (c.tried <==> StreakOf(cs, |cs|) < MAX_CONSECUTIVE_RATE_LIMITS)
    requires !c.tried ==> c.download == NoDownload
    ensures FollowsCounter(cs + [c], |cs| + 1)
    ensures StreakOf(cs + [c], |cs| + 1)
            == if !c.tried then StreakOf(cs, |cs|) else if c.limited then StreakOf(cs, |cs|) + 1 else 0
  {
    CounterOfPrefix(cs, c, |cs|);
  }

  /** What the counter says about the candidates so far. */
  ghost predicate IsStreak(cs: seq<Candidate>, streak: nat) {
    if streak >= MAX_CONSECUTIVE_RATE_LIMITS then exists k: nat :: k <= |cs| && Trips(cs, k)
    else
      && streak <= |cs|
      && (forall i :: |cs| - streak <= i < |cs| ==> cs[i].tried && cs[i].limited)
      && (streak < |cs| ==> !(cs[|cs| - 1 - streak].tried && cs[|cs| - 1 - streak].limited))
      && (forall k: nat :: k <= |cs| ==> !Trips(cs, k))
  }

  lemma StreakGoesOn(cs: seq<Candidate>, streak: nat, c: Candidate)
    requires BreakerHolds(cs) && IsStreak(cs, streak) && (c.tried <==> streak < MAX_CONSECUTIVE_RATE_LIMITS)
    ensures BreakerHolds(cs + [c])
    ensures IsStreak(cs + [c], if !c.tried then streak else if c.limited then streak + 1 else 0)
  {
    var after := cs + [c];
    forall k: nat | k <= |cs| ensures Trips(after, k) <==> Trips(cs, k) {
      assert forall i :: 0 <= i < |cs| ==> after[i] == cs[i];
    }
    if c.tried && c.limited && streak + 1 >= MAX_CONSECUTIVE_RATE_LIMITS {
      assert Trips(after, |after|);
    }
    if Trips(after, |after|) {
      assert after[|cs| - 1] == cs[|cs| - 1] && after[|cs| - 2] == cs[|cs| - 2];
    }
  }

  /** Following the counter is the breaker: nothing is tried after three rate limits in a row, and everything before. */
  lemma {:induction false} CounterIsBreaker(cs: seq<Candidate>)
    requires FollowsCounter(cs, |cs|)
    ensures BreakerHolds(cs) && IsStreak(cs, StreakOf(cs, |cs|))
    decreases |cs|
  {
    if cs != [] {
      var init, last := cs[..|cs| - 1], cs[|cs| - 1];
      assert init + [last] == cs;
      CounterOfPrefix(init, last, |init|);
      CounterIsBreaker(init);
      StreakGoesOn(init, StreakOf(init, |init|), last);
    }
  }

  class AcquisitionRun {
    const world: World
    const budget: nat
    /** The queue key of a candidate: its manual key. */
    const keyOf: Candidate -> string
    /** The key by which a title and a DOI count as seen. */
    const seenKeyOf: (string, string) -> string
    var left: nat
    var candidates: seq<Candidate>
    var manualQueue: seq<QueueEntry>
    var seenManual: set<string>
    var seen: set<string>
    var openalexDegraded: bool

    ghost predicate Valid()
      reads this
    {
      Conserves(keyOf, budget, left, candidates, manualQueue, seenManual)
    }

    /** The answers so far, and whether OpenAlex is still asked. */
    ghost predicate Faithful()
      reads this
    {
      Answered(world.resolve, candidates) && (openalexDegraded <==> !Undisturbed(candidates, |candidates|))
    }

    ghost predicate Keyed() {
      && (forall c :: keyOf(c) == ManualKey(world, c.item, c.resolved))
      && (forall title, doi :: seenKeyOf(title, doi) == SeenKey(world, title, doi))
    }

    constructor (world: World, budget: nat)
      ensures Valid() && this.world == world && this.budget == budget && candidates == [] && left == budget
      ensures !openalexDegraded && seen == {}
      ensures Keyed()
    {
      this.world, this.budget, left := world, budget, budget;
      keyOf := (c: Candidate) => ManualKey(world, c.item, c.resolved);
      seenKeyOf := (title: string, doi: string) => SeenKey(world, title, doi);
      candidates, manualQueue, seenManual, seen, openalexDegraded := [], [], {}, {}, false;
    }

    /** Downloads the work if it has a PDF and budget is left; queues what needs a person. */
    method ProcessCandidate(item: Item, resolved: Option<Work>, tried: bool, limited: bool)
      requires Valid() && item.id == |candidates| + 1
      modifies this`left, this`candidates, this`manualQueue, this`seenManual
      ensures Valid()
      ensures |candidates| == |old(candidates)| + 1
      ensures var c := candidates[|old(candidates)|];
              && candidates == old(candidates) + [c]
              && c == Candidate(item, resolved, tried, limited, c.download)
              && (c.download == Downloaded <==>
                    resolved.Some? && resolved.value.hasPdf && old(left) > 0 && world.fetch(item, resolved.value))
              && (c.download == SkippedLimit <==> resolved.Some? && resolved.value.hasPdf && old(left) == 0)
              && (c.download == NoDownload <==> resolved.None? || !resolved.value.hasPdf)
    {
      ghost var leftBefore, before, queue, keys := left, candidates, manualQueue, seenManual;
      var download := Attempt(item, resolved);
      var c := Candidate(item, resolved, tried, limited, download);
      CandidateConserves(keyOf, budget, leftBefore, before, queue, keys, c);
      candidates := candidates + [c];
      if NeedsPerson(c) {
        AppendManual(QueueEntry(keyOf(c), item.id));
      }
    }

    /** Downloads the work's PDF if there is one and budget is left. */
    method Attempt(item: Item, resolved: Option<Work>) returns (download: Download)
      modifies this`left
      ensures download == Downloaded <==>
                resolved.Some? && resolved.value.hasPdf && old(left) > 0 && world.fetch(item, resolved.value)
      ensures download == SkippedLimit <==> resolved.Some? && resolved.value.hasPdf && old(left) == 0
      ensures download == NoDownload <==> resolved.None? || !resolved.value.hasPdf
      ensures left == if download == Downloaded then old(left) - 1 else old(left)
    {
      if resolved.None? || !resolved.value.hasPdf {
        return NoDownload;
      }
      if left == 0 {
        return SkippedLimit;
      }
      if !world.fetch(item, resolved.value) {
        return DownloadFailed;
      }
      left := left - 1;
      return Downloaded;
    }

    /** Appends a row unless its key is queued already. */
    method AppendManual(q: QueueEntry)
      modifies this`manualQueue, this`seenManual
      ensures seenManual == old(seenManual) + {q.key}
      ensures manualQueue == if q.key in old(seenManual) then old(manualQueue) else old(manualQueue) + [q]
    {
      if q.key !in seenManual {
        seenManual := seenManual + {q.key};
        manualQueue := manualQueue + [q];
      }
    }

    /** Lists the references of one entry that were not seen before. */
    method AddEntry(references: seq<Reference>, before: seq<Item>) returns (bibliography: seq<Item>)
      requires Numbered(before) && NoRepeats(seenKeyOf, before, seen) && forall i :: 0 <= i < |before| ==> before[i].source == Bibliography
      modifies this`seen
      ensures Numbered(bibliography) && NoRepeats(seenKeyOf, bibliography, seen)
      ensures forall i :: 0 <= i < |bibliography| ==> bibliography[i].source == Bibliography
      ensures Unnumbered(bibliography) == Unnumbered(before) + NewOnes(seenKeyOf, old(seen), AskedReferences(references))
      ensures seen == old(seen) + KeysOf(seenKeyOf, AskedReferences(references))
    {
      bibliography := before;
      for r := 0 to |references|
        invariant Numbered(bibliography)
        invariant forall i :: 0 <= i < |bibliography| ==> bibliography[i].source == Bibliography
        invariant Took(seenKeyOf, old(seen), before, AskedReferences(references[..r]), bibliography, seen)
      {
        var item := Item(|bibliography| + 1, Bibliography, references[r].title, references[r].citation, references[r].doi);
        var key := seenKeyOf(item.title, item.doi);
        ReferencesGrow(references, r);
        TookNext(seenKeyOf, old(seen), before, AskedReferences(references[..r]), bibliography, seen, item);
        if key == "" || key !in seen {
          if key != "" {
            seen := seen + {key};
          }
          bibliography := bibliography + [item];
        }
      }
      assert references[..|references|] == references;
    }

    /** Asks the resolver, without OpenAlex once that has limited the rate. */
    method Ask(item: Item) returns (resolution: Resolution)
      modifies this`openalexDegraded
      ensures resolution == world.resolve(item, !old(openalexDegraded))
      ensures openalexDegraded <==> old(openalexDegraded) || resolution.limited
    {
      resolution := world.resolve(item, !openalexDegraded);
      if resolution.limited {
        openalexDegraded := true;
      }
    }

    /** Resolves and processes one bibliography item, unless the breaker has tripped. */
    method ResolveNext(item: Item, streakBefore: nat) returns (streak: nat)
      requires Valid() && item.id == |candidates| + 1
      requires FollowsCounter(candidates, |candidates|) && streakBefore == StreakOf(candidates, |candidates|)
      requires Faithful()
      modifies this`left, this`candidates, this`manualQueue, this`seenManual, this`openalexDegraded
      ensures Valid() && |candidates| == |old(candidates)| + 1
      ensures var c := candidates[|old(candidates)|];
              candidates == old(candidates) + [c] && c.item == item
      ensures Faithful()
      ensures FollowsCounter(candidates, |candidates|) && streak == StreakOf(candidates, |candidates|)
    {
      streak := streakBefore;
      ghost var before, disturbed := candidates, openalexDegraded;
      var resolution := Resolution(None, false);
      var tried := streak < MAX_CONSECUTIVE_RATE_LIMITS;
      if tried {
        resolution := Ask(item);
        streak := if resolution.limited then streak + 1 else 0;
      }
      ProcessCandidate(item, resolution.work, tried, resolution.limited);
      BibliographyNext(world.resolve, before, candidates[|before|], disturbed);
    }

    /** Resolves and processes the bibliography; three rate limits in a row stop the asking. */
    method ResolveBibliography(bibliography: seq<Item>)
      requires Valid() && candidates == [] && !openalexDegraded && Numbered(bibliography)
      modifies this`left, this`candidates, this`manualQueue, this`seenManual, this`openalexDegraded
      ensures Valid() && ItemsOf(candidates) == bibliography && FollowsCounter(candidates, |candidates|)
      ensures Faithful()
    {
      var streak := 0;
      for i := 0 to |bibliography|
        invariant Valid() && |candidates| == i && Takes(candidates, bibliography)
        invariant FollowsCounter(candidates, |candidates|) && streak == StreakOf(candidates, |candidates|)
        invariant Faithful()
      {
        ghost var before := candidates;
        streak := ResolveNext(bibliography[i], streak);
        TakesNext(before, bibliography, candidates[i]);
      }
      TakesAll(candidates, bibliography);
    }

    /** Resolves and processes one explicit DOI. */
    method ResolveDoi(doi: string)
      requires Valid() && Faithful()
      modifies this`left, this`candidates, this`manualQueue, this`seenManual, this`openalexDegraded
      ensures Valid() && Faithful()
      ensures |candidates| == |old(candidates)| + 1 && candidates == old(candidates) + [candidates[|old(candidates)|]]
      ensures var c := candidates[|old(candidates)|];
              c.item == Item(|old(candidates)| + 1, Explicit, "", "", doi)
    {
      var item := Item(|candidates| + 1, Explicit, "", "", doi);
      var resolution := Ask(item);
      ghost var before := candidates;
      ProcessCandidate(item, resolution.work, true, resolution.limited);
      AnsweredNext(world.resolve, before, candidates[|before|]);
    }

    /** Resolves one explicit DOI after those of `asked`. */
    method TakeDoi(doi: string, ghost before: seq<Item>, ghost asked: seq<Item>)
      requires Valid() && TookDois(seenKeyOf, before, asked, ItemsOf(candidates), seen)
      requires Faithful()
      modifies this`left, this`candidates, this`manualQueue, this`seenManual, this`openalexDegraded
      ensures Valid() && old(candidates) <= candidates
      ensures Faithful()
      ensures TookDois(seenKeyOf, before, asked + [Item(0, Explicit, "", "", doi)], ItemsOf(candidates), seen)
    {
      ghost var earlier := candidates;
      ResolveDoi(doi);
      ghost var c := candidates[|earlier|];
      ItemsGrow(earlier, c);
      TookNextDoi(seenKeyOf, before, asked, ItemsOf(earlier), seen, c.item);
    }

    /** Resolves and processes explicit DOIs; those that did not parse are empty and left out. */
    method ResolveExplicit(dois: seq<string>)
      requires Valid() && NoRepeats(seenKeyOf, ItemsOf(candidates), seen)
      requires Faithful()
      modifies this`left, this`candidates, this`manualQueue, this`seenManual, this`openalexDegraded
      ensures Valid() && NoRepeats(seenKeyOf, ItemsOf(candidates), seen)
      ensures old(candidates) <= candidates && Answered(world.resolve, candidates)
      ensures |candidates| == |old(candidates)| + |Filter(IsGiven, dois)|
      ensures Unnumbered(ItemsOf(candidates)) == Unnumbered(ItemsOf(old(candidates))) + AskedDois(Filter(IsGiven, dois))
    {
      for d := 0 to |dois|
        invariant Valid() && old(candidates) <= candidates
        invariant Faithful()
        invariant TookDois(seenKeyOf, ItemsOf(old(candidates)), AskedDois(Filter(IsGiven, dois[..d])), ItemsOf(candidates), seen)
      {
        DoisGrow(dois, d);
        if IsGiven(dois[d]) {
          TakeDoi(dois[d], ItemsOf(old(candidates)), AskedDois(Filter(IsGiven, dois[..d])));
        }
      }
      assert dois[..|dois|] == dois;
    }

    /** The candidates that are asked for by name: the bibliography, then the DOIs. */
    method ResolveGiven(bibliography: seq<Item>, dois: seq<string>)
      requires Valid() && candidates == [] && !openalexDegraded && Numbered(bibliography)
      requires NoRepeats(seenKeyOf, bibliography, seen)
      modifies this`left, this`candidates, this`manualQueue, this`seenManual, this`openalexDegraded
      ensures Valid() && NoRepeats(seenKeyOf, ItemsOf(candidates), seen) && Answered(world.resolve, candidates)
      ensures |candidates| == |bibliography| + |Filter(IsGiven, dois)|
      ensures Unnumbered(ItemsOf(candidates)) == Unnumbered(bibliography) + AskedDois(Filter(IsGiven, dois))
      ensures bibliography == ItemsOf(candidates[..|bibliography|]) && BreakerHolds(candidates[..|bibliography|])
    {
      ResolveBibliography(bibliography);
      ghost var resolved := candidates;
      CounterIsBreaker(resolved);
      ResolveExplicit(dois);
      PrefixOf(resolved, candidates, 0);
    }

    /** Takes one recent work; a work without a PDF is looked up by its DOI. */
    method AddWork(work: Work)
      requires Valid()
      modifies this`left, this`candidates, this`manualQueue, this`seenManual
      ensures Valid()
      ensures |candidates| == |old(candidates)| + 1 && candidates == old(candidates) + [candidates[|old(candidates)|]]
      ensures var c := candidates[|old(candidates)|];
              && c.item == Item(|old(candidates)| + 1, Recent, work.title, work.title, work.doi)
              && c.resolved == if !work.hasPdf && work.doi != "" then world.lookup(work).work else Some(work)
    {
      var item := Item(|candidates| + 1, Recent, work.title, work.title, work.doi);
      var asks := !work.hasPdf && work.doi != "";
      var resolution := if asks then world.lookup(work) else Resolution(Some(work), false);
      ProcessCandidate(item, resolution.work, asks, resolution.limited);
    }

    /** Takes one recent work after those of `asked`, unless it was seen. */
    method TakeWork(work: Work, ghost seenBefore: set<string>, ghost before: seq<Item>, ghost asked: seq<Item>)
      requires Valid() && Took(seenKeyOf, seenBefore, before, asked, ItemsOf(candidates), seen)
      modifies this`left, this`candidates, this`manualQueue, this`seenManual, this`seen
      ensures Valid() && old(candidates) <= candidates
      ensures Took(seenKeyOf, seenBefore, before, asked + [Item(0, Recent, work.title, work.title, work.doi)], ItemsOf(candidates), seen)
    {
      var key := seenKeyOf(work.title, work.doi);
      ghost var earlier, item := candidates, Item(|candidates| + 1, Recent, work.title, work.title, work.doi);
      TookNext(seenKeyOf, seenBefore, before, asked, ItemsOf(earlier), seen, item);
      if key == "" || key !in seen {
        AddWork(work);
        ItemsGrow(earlier, candidates[|earlier|]);
        if key != "" {
          seen := seen + {key};
        }
      }
    }

    /** Takes the recent works that were not seen before. */
    method AddRecent(works: seq<Work>)
      requires Valid() && NoRepeats(seenKeyOf, ItemsOf(candidates), seen)
      modifies this`left, this`candidates, this`manualQueue, this`seenManual, this`seen
      ensures Valid() && NoRepeats(seenKeyOf, ItemsOf(candidates), seen) && old(candidates) <= candidates
      ensures Unnumbered(ItemsOf(candidates)) ==
              Unnumbered(ItemsOf(old(candidates))) + NewOnes(seenKeyOf, old(seen), AskedWorks(works))
    {
      for w := 0 to |works|
        invariant Valid() && old(candidates) <= candidates
        invariant Took(seenKeyOf, old(seen), ItemsOf(old(candidates)), AskedWorks(works[..w]), ItemsOf(candidates), seen)
      {
        WorksGrow(works, w);
        TakeWork(works[w], old(seen), ItemsOf(old(candidates)), AskedWorks(works[..w]));
      }
      assert works[..|works|] == works;
    }

    /** The bibliography of all entries, cut to the first `maxItems`. */
    method CollectBibliography(entries: seq<seq<Reference>>, maxItems: Option<nat>) returns (bibliography: seq<Item>)
      requires seen == {} && (maxItems.Some? ==> maxItems.value > 0)
      modifies this`seen
      ensures Numbered(bibliography) && NoRepeats(seenKeyOf, bibliography, seen)
      ensures Unnumbered(bibliography) == ListedOf(seenKeyOf, entries, maxItems)
      ensures seen == KeysOf(seenKeyOf, AskedReferences(Flat(entries)))
    {
      bibliography := [];
      for e := 0 to |entries|
        invariant Numbered(bibliography) && NoRepeats(seenKeyOf, bibliography, seen)
        invariant forall i :: 0 <= i < |bibliography| ==> bibliography[i].source == Bibliography
        invariant Unnumbered(bibliography) == NewOnes(seenKeyOf, {}, AskedReferences(Flat(entries[..e])))
        invariant seen == KeysOf(seenKeyOf, AskedReferences(Flat(entries[..e])))
      {
        ghost var earlier := Flat(entries[..e]);
        assert entries[..e + 1][..e] == entries[..e];
        assert AskedReferences(earlier + entries[e]) == AskedReferences(earlier) + AskedReferences(entries[e]);
        NewSplits(seenKeyOf, {}, AskedReferences(earlier), AskedReferences(entries[e]));
        assert {} + KeysOf(seenKeyOf, AskedReferences(earlier)) == seen;
        bibliography := AddEntry(entries[e], bibliography);
      }
      assert entries[..|entries|] == entries;
      if maxItems.Some? && |bibliography| > maxItems.value {
        assert Unnumbered(bibliography[..maxItems.value]) == Unnumbered(bibliography)[..maxItems.value];
        bibliography := bibliography[..maxItems.value];
      }
    }

    /**
     The whole run.  What is expected is taken, in order.  Budget and downloads
     are conserved, every candidate is settled, item numbers run from 1, the
     queue has no repetitions, the breaker governs the bibliography, and no
     bibliography item or recent work repeats.
     */
    method Acquire(entries: seq<seq<Reference>>, maxItems: Option<nat>, dois: seq<string>, works: seq<Work>)
      returns (bibliography: seq<Item>)
      requires Valid() && candidates == [] && seen == {} && !openalexDegraded && (maxItems.Some? ==> maxItems.value > 0)
      modifies this
      ensures Valid() && NoRepeats(seenKeyOf, ItemsOf(candidates), seen)
      ensures |bibliography| <= |candidates| && bibliography == ItemsOf(candidates[..|bibliography|])
      ensures BreakerHolds(candidates[..|bibliography|])
      ensures maxItems.Some? ==> |bibliography| <= maxItems.value
      ensures Unnumbered(ItemsOf(candidates)) == Expected(seenKeyOf, entries, maxItems, dois, works)
      ensures var resolved := |bibliography| + |Filter(IsGiven, dois)|;
              resolved <= |candidates| && Answered(world.resolve, candidates[..resolved])
    {
      bibliography := CollectBibliography(entries, maxItems);
      ResolveGiven(bibliography, dois);
      ghost var given := candidates;
      AddRecent(works);
      PrefixOf(given, candidates, |bibliography|);
      assert candidates[..|bibliography| + |Filter(IsGiven, dois)|] == given;
    }
  }
}
