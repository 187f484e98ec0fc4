/**
 The derived search index: filled passage by passage while files are ingested,
 and rebuilt from the corpus on request.  `titles` remembers, for the proofs,
 the title each document's rows were made from.
 */
module SearchIndex {
  import opened Wrappers
  import opened Text
  import opened Corpus
  import opened Lines
  import opened Tokenizer

  datatype IndexRow = IndexRow(passage: Id, title: string, body: string)

  predicate Titled(titles: map<Id, string>, passages: seq<Passage>) {
    forall i :: 0 <= i < |passages| ==> passages[i].document in titles
  }

  function RowOf(n: string -> string, titles: map<Id, string>, p: Passage): IndexRow
    requires p.document in titles
  {
    IndexRow(p.id, n(titles[p.document]), n(p.text))
  }

  /** The index rows of the first `k` passages, under these titles. */
  function RowsOf(n: string -> string, titles: map<Id, string>, passages: seq<Passage>, k: nat): multiset<IndexRow>
    requires Titled(titles, passages) && k <= |passages|
  {
    if k == 0 then multiset{}
    else RowsOf(n, titles, passages, k - 1) + multiset{RowOf(n, titles, passages[k - 1])}
  }

  function Rows(n: string -> string, titles: map<Id, string>, passages: seq<Passage>): multiset<IndexRow>
    requires Titled(titles, passages)
  {
    RowsOf(n, titles, passages, |passages|)
  }

  function CurrentTitles(c: Corpus): map<Id, string> {
    map d | d in c.documents :: c.documents[d].title
  }

  datatype State = State(corpus: Corpus, index: multiset<IndexRow>, titles: map<Id, string>)

  const EMPTY_STATE := State(EMPTY_CORPUS, multiset{}, map[])

  /** The index agrees with the corpus, under the titles it was made from. */
  ghost predicate Consistent(n: string -> string, s: State) {
    && Valid(s.corpus)
    && s.titles.Keys == s.corpus.documents.Keys
    && s.index == Rows(n, s.titles, s.corpus.passages)
  }

  /** The index is what a rebuild would make of the corpus now. */
  ghost predicate Fresh(n: string -> string, s: State) {
    Valid(s.corpus) && s.index == Rows(n, CurrentTitles(s.corpus), s.corpus.passages)
  }

  // ----- the transactions that touch the corpus or the index -----

  datatype Step =
    | Ingested(project: Id, upload: Upload)
    | Revised(document: Id, edit: Edit)
    | Reindexed

  ghost function After(n: string -> string, s: State, step: Step): State
    requires Valid(s.corpus)
  {
    match step
    case Ingested(project, u) =>
      if Stored(s.corpus, u.contentHash) then s.(corpus := Ingest(s.corpus, project, u))
      else if !Insertable(s.corpus, u) then s
      else
        var corpus, titles := Ingest(s.corpus, project, u), s.titles[u.document := u.title];
        var rows := PassageRows(u.document, u.passageIds, u.chunks, 1);
        State(corpus, s.index + Rows(n, map[u.document := u.title], rows), titles)
    case Revised(document, edit) =>
      if document in s.corpus.documents then s.(corpus := Revise(s.corpus, document, edit)) else s
    case Reindexed => State(s.corpus, Rows(n, CurrentTitles(s.corpus), s.corpus.passages), CurrentTitles(s.corpus))
  }

  // ----- rows -----

  lemma {:induction false} SameTitles(n: string -> string, a: map<Id, string>, b: map<Id, string>, passages: seq<Passage>,
                                      k: nat)
    requires Titled(a, passages) && Titled(b, passages) && k <= |passages|
    requires forall i :: 0 <= i < k ==> n(a[passages[i].document]) == n(b[passages[i].document])
    ensures RowsOf(n, a, passages, k) == RowsOf(n, b, passages, k)
  {
    if k > 0 {
      SameTitles(n, a, b, passages, k - 1);
    }
  }

  lemma {:induction false} RowsOfConcat(n: string -> string, titles: map<Id, string>, a: seq<Passage>, b: seq<Passage>, k: nat)
    requires Titled(titles, a) && Titled(titles, b) && Titled(titles, a + b) && k <= |b|
    ensures RowsOf(n, titles, a + b, |a| + k) == Rows(n, titles, a) + RowsOf(n, titles, b, k)
  {
    if k == 0 {
      RowsOfFirst(n, titles, a, b, |a|);
    } else {
      RowsOfConcat(n, titles, a, b, k - 1);
      assert (a + b)[|a| + k - 1] == b[k - 1];
    }
  }

  lemma {:induction false} RowsOfFirst(n: string -> string, titles: map<Id, string>, a: seq<Passage>, b: seq<Passage>, k: nat)
    requires Titled(titles, a) && Titled(titles, a + b) && k <= |a|
    ensures RowsOf(n, titles, a + b, k) == RowsOf(n, titles, a, k)
  {
    if k > 0 {
      RowsOfFirst(n, titles, a, b, k - 1);
    }
  }

  lemma {:induction false} RowsCount(n: string -> string, titles: map<Id, string>, passages: seq<Passage>, k: nat)
    requires Titled(titles, passages) && k <= |passages|
    ensures |RowsOf(n, titles, passages, k)| == k
  {
    if k > 0 {
      RowsCount(n, titles, passages, k - 1);
    }
  }

  lemma {:induction false} RowsMembers(n: string -> string, titles: map<Id, string>, passages: seq<Passage>, k: nat, row: IndexRow)
    requires Titled(titles, passages) && k <= |passages|
    ensures row in RowsOf(n, titles, passages, k) <==> exists i :: 0 <= i < k && row == RowOf(n, titles, passages[i])
  {
    if k > 0 {
      RowsMembers(n, titles, passages, k - 1, row);
    }
  }

  // ----- what every run keeps -----

  /** Passages of a new document add their own rows and leave the others as they are. */
  lemma NewRows(n: string -> string, titles: map<Id, string>, passages: seq<Passage>, document: Id, title: string,
                rows: seq<Passage>)
    requires Titled(titles, passages) && document !in titles && forall i :: 0 <= i < |rows| ==> rows[i].document == document
    ensures var after := titles[document := title];
            && Titled(after, passages + rows)
            && Rows(n, after, passages + rows) == Rows(n, titles, passages) + Rows(n, map[document := title], rows)
  {
    var after := titles[document := title];
    OldRows(n, titles, passages, document, title);
    OwnRows(n, titles, document, title, rows);
    RowsConcat(n, after, passages, rows);
  }

  lemma RowsConcat(n: string -> string, titles: map<Id, string>, a: seq<Passage>, b: seq<Passage>)
    requires Titled(titles, a) && Titled(titles, b)
    ensures Titled(titles, a + b) && Rows(n, titles, a + b) == Rows(n, titles, a) + Rows(n, titles, b)
  {
    TitledConcat(titles, a, b);
    RowsOfConcat(n, titles, a, b, |b|);
  }

  lemma OldRows(n: string -> string, titles: map<Id, string>, passages: seq<Passage>, document: Id, title: string)
    requires Titled(titles, passages) && document !in titles
    ensures Titled(titles[document := title], passages)
    ensures Rows(n, titles[document := title], passages) == Rows(n, titles, passages)
  {
    SameTitles(n, titles, titles[document := title], passages, |passages|);
  }

  lemma OwnRows(n: string -> string, titles: map<Id, string>, document: Id, title: string, rows: seq<Passage>)
    requires forall i :: 0 <= i < |rows| ==> rows[i].document == document
    ensures Titled(titles[document := title], rows)
    ensures Rows(n, titles[document := title], rows) == Rows(n, map[document := title], rows)
  {
    SameTitles(n, map[document := title], titles[document := title], rows, |rows|);
  }

  lemma TitledConcat(titles: map<Id, string>, a: seq<Passage>, b: seq<Passage>)
    requires Titled(titles, a) && Titled(titles, b)
    ensures Titled(titles, a + b)
  {
  }

  lemma IngestKeepsConsistent(n: string -> string, s: State, project: Id, u: Upload)
    requires Consistent(n, s) && !Stored(s.corpus, u.contentHash) && Insertable(s.corpus, u)
    ensures Consistent(n, After(n, s, Ingested(project, u)))
  {
    NewRows(n, s.titles, s.corpus.passages, u.document, u.title, PassageRows(u.document, u.passageIds, u.chunks, 1));
  }

  lemma StepKeepsConsistent(n: string -> string, s: State, step: Step)
    requires Consistent(n, s)
    ensures Consistent(n, After(n, s, step))
  {
    if step.Ingested? && !Stored(s.corpus, step.upload.contentHash) && Insertable(s.corpus, step.upload) {
      IngestKeepsConsistent(n, s, step.project, step.upload);
    }
  }

  ghost function Run(n: string -> string, s: State, steps: seq<Step>): (r: State)
    requires Consistent(n, s)
    ensures Consistent(n, r)
    decreases |steps|
  {
    if steps == [] then s
    else
      StepKeepsConsistent(n, s, steps[0]);
      Run(n, After(n, s, steps[0]), steps[1..])
  }

  /** Every passage has exactly one row, and that row's body is current. */
  lemma RowsMatchPassages(n: string -> string, s: State)
    requires Consistent(n, s)
    ensures |s.index| == |s.corpus.passages|
    ensures forall p :: p in s.corpus.passages ==> RowOf(n, s.titles, p) in s.index
    ensures forall p, row :: p in s.corpus.passages && row in s.index && row.passage == p.id ==> row == RowOf(n, s.titles, p)
  {
    var passages := s.corpus.passages;
    RowsCount(n, s.titles, passages, |passages|);
    forall p | p in passages ensures RowOf(n, s.titles, p) in s.index {
      RowsMembers(n, s.titles, passages, |passages|, RowOf(n, s.titles, p));
    }
    forall p, row | p in passages && row in s.index && row.passage == p.id ensures row == RowOf(n, s.titles, p) {
      OneRow(n, s.titles, passages, p, row);
    }
  }

  lemma OneRow(n: string -> string, titles: map<Id, string>, passages: seq<Passage>, p: Passage, row: IndexRow)
    requires Titled(titles, passages) && p in passages && row in Rows(n, titles, passages) && row.passage == p.id
    requires forall q :: q in passages && q.id == p.id ==> q == p
    ensures row == RowOf(n, titles, p)
  {
    RowsMembers(n, titles, passages, |passages|, row);
    var i :| 0 <= i < |passages| && row == RowOf(n, titles, passages[i]);
    assert passages[i] in passages;
  }

  /** The title that a rebuild would index reads the same as the one indexed. */
  predicate TitleIsCurrent(n: string -> string, s: State, document: Id)
    requires document in s.titles && document in s.corpus.documents
  {
    n(s.titles[document]) == n(s.corpus.documents[document].title)
  }

  /** The kept index equals a rebuild just when no document with passages has changed its title terms. */
  lemma FreshIff(n: string -> string, s: State)
    requires Consistent(n, s)
    ensures Fresh(n, s) <==> forall p :: p in s.corpus.passages ==> TitleIsCurrent(n, s, p.document)
  {
    var now := CurrentTitles(s.corpus);
    if forall p :: p in s.corpus.passages ==> TitleIsCurrent(n, s, p.document) {
      SameTitles(n, s.titles, now, s.corpus.passages, |s.corpus.passages|);
    }
    if Fresh(n, s) {
      RowsMatchPassages(n, s);
      forall p | p in s.corpus.passages ensures TitleIsCurrent(n, s, p.document) {
        RowsMembers(n, now, s.corpus.passages, |s.corpus.passages|, RowOf(n, now, p));
      }
    }
  }

  /** A file, and then a new title for its document. */
  function Retitling(title: string, text: string, retitled: string): seq<Step> {
    [Ingested(0, Upload(0, 0, title, "", [0], [text])), Revised(0, Edit(Some(retitled), None))]
  }

  lemma FirstFile(n: string -> string, title: string, text: string)
    ensures Consistent(n, EMPTY_STATE)
    ensures var s := After(n, EMPTY_STATE, Ingested(0, Upload(0, 0, title, "", [0], [text])));
            && Consistent(n, s) && s.titles == map[0 := title]
            && s.corpus.documents == map[0 := Document(0, title, Some(""))] && s.corpus.passages == [Passage(0, 0, 1, text)]
  {
    var step := Ingested(0, Upload(0, 0, title, "", [0], [text]));
    StepKeepsConsistent(n, EMPTY_STATE, step);
  }

  lemma Retitled(n: string -> string, s: State, title: string, retitled: string)
    requires Consistent(n, s) && s.corpus.documents == map[0 := Document(0, title, Some(""))]
    ensures var t := After(n, s, Revised(0, Edit(Some(retitled), None)));
            && Consistent(n, t) && t.titles == s.titles && t.corpus.passages == s.corpus.passages
            && 0 in t.corpus.documents && t.corpus.documents[0].title == Strip(retitled)
  {
    StepKeepsConsistent(n, s, Revised(0, Edit(Some(retitled), None)));
  }

  lemma RunOfTwo(n: string -> string, s: State, first: Step, second: Step)
    requires Consistent(n, s)
    ensures Consistent(n, After(n, s, first))
    ensures Run(n, s, [first, second]) == After(n, After(n, s, first), second)
  {
    StepKeepsConsistent(n, s, first);
    StepKeepsConsistent(n, After(n, s, first), second);
    assert [first, second][1..] == [second] && [second][1..] == [];
    assert Run(n, After(n, s, first), [second]) == Run(n, After(n, After(n, s, first), second), []);
  }

  lemma OneDocumentFreshIff(n: string -> string, t: State, text: string)
    requires Consistent(n, t) && t.corpus.passages == [Passage(0, 0, 1, text)]
    ensures 0 in t.titles && 0 in t.corpus.documents && (Fresh(n, t) <==> TitleIsCurrent(n, t, 0))
  {
    FreshIff(n, t);
    assert t.corpus.passages[0] in t.corpus.passages;
  }

  /** After these two steps from the empty state the index is fresh just when both titles read the same. */
  lemma RetitledIsStale(n: string -> string, title: string, text: string, retitled: string)
    ensures Consistent(n, EMPTY_STATE)
    ensures Fresh(n, Run(n, EMPTY_STATE, Retitling(title, text, retitled))) <==> n(title) == n(Strip(retitled))
  {
    var steps := Retitling(title, text, retitled);
    FirstFile(n, title, text);
    RunOfTwo(n, EMPTY_STATE, steps[0], steps[1]);
    var s := After(n, EMPTY_STATE, steps[0]);
    Retitled(n, s, title, retitled);
    OneDocumentFreshIff(n, After(n, s, steps[1]), text);
  }

  predicate EditsNoTitle(step: Step) {
    step.Revised? ==> step.edit.title.None?
  }

  /** Ingesting, with or without deduplication, and edits of other metadata keep the index fresh. */
  lemma StepKeepsFresh(n: string -> string, s: State, step: Step)
    requires Consistent(n, s) && Fresh(n, s) && EditsNoTitle(step)
    ensures Fresh(n, After(n, s, step))
  {
    var t := After(n, s, step);
    StepKeepsConsistent(n, s, step);
    FreshIff(n, s);
    FreshIff(n, t);
    match step
    case Ingested(project, u) =>
      if !Stored(s.corpus, u.contentHash) && Insertable(s.corpus, u) {
        IngestKeepsTitles(n, s, project, u);
      }
    case Revised(document, edit) =>
      if document in s.corpus.documents {
        EditKeepsTitles(s.corpus, document, edit);
      }
    case Reindexed =>
  }

  lemma IngestKeepsTitles(n: string -> string, s: State, project: Id, u: Upload)
    requires Consistent(n, s) && !Stored(s.corpus, u.contentHash) && Insertable(s.corpus, u)
    requires forall p :: p in s.corpus.passages ==> TitleIsCurrent(n, s, p.document)
    ensures var t := After(n, s, Ingested(project, u));
            Consistent(n, t) && forall p :: p in t.corpus.passages ==> TitleIsCurrent(n, t, p.document)
  {
    var t := After(n, s, Ingested(project, u));
    IngestKeepsConsistent(n, s, project, u);
    forall p | p in t.corpus.passages ensures TitleIsCurrent(n, t, p.document) {
      if p in s.corpus.passages {
        assert TitleIsCurrent(n, s, p.document) && p.document != u.document;
      } else {
        assert p.document == u.document;
      }
    }
  }

  lemma EditKeepsTitles(c: Corpus, document: Id, edit: Edit)
    requires document in c.documents && edit.title.None?
    ensures CurrentTitles(Revise(c, document, edit)) == CurrentTitles(c)
  {
  }

  /** Reindexing makes the index fresh, and doing it again changes nothing. */
  lemma ReindexIsIdempotent(n: string -> string, s: State)
    requires Consistent(n, s)
    ensures Fresh(n, After(n, s, Reindexed))
    ensures After(n, After(n, s, Reindexed), Reindexed) == After(n, s, Reindexed)
  {
    StepKeepsConsistent(n, s, Reindexed);
    FreshIff(n, After(n, s, Reindexed));
  }

  lemma {:induction false} RunKeepsFresh(n: string -> string, s: State, steps: seq<Step>)
    requires Consistent(n, s) && Fresh(n, s) && forall step :: step in steps ==> EditsNoTitle(step)
    ensures Fresh(n, Run(n, s, steps))
    decreases |steps|
  {
    if steps != [] {
      StepKeepsConsistent(n, s, steps[0]);
      StepKeepsFresh(n, s, steps[0]);
      RunKeepsFresh(n, After(n, s, steps[0]), steps[1..]);
    }
  }

  lemma {:induction false} RunConcat(n: string -> string, s: State, a: seq<Step>, b: seq<Step>)
    requires Consistent(n, s)
    ensures Run(n, s, a + b) == Run(n, Run(n, s, a), b)
    decreases |a|
  {
    if a == [] {
      assert a + b == b;
    } else {
      StepKeepsConsistent(n, s, a[0]);
      var t := After(n, s, a[0]);
      assert (a + b)[0] == a[0] && (a + b)[1..] == a[1..] + b;
      assert Run(n, s, a + b) == Run(n, t, a[1..] + b);
      RunConcat(n, t, a[1..], b);
    }
  }

  /**
   After any run, the index equals a rebuild if no title was edited since the
   beginning or since the last reindexing.
   */
  lemma FreshSinceReindex(n: string -> string, before: seq<Step>, since: seq<Step>)
    requires forall step :: step in since ==> EditsNoTitle(step)
    ensures Fresh(n, Run(n, EMPTY_STATE, since))
    ensures Fresh(n, Run(n, EMPTY_STATE, before + [Reindexed] + since))
  {
    RunKeepsFresh(n, EMPTY_STATE, since);
    var s := Run(n, EMPTY_STATE, before);
    ReindexIsIdempotent(n, s);
    StepKeepsConsistent(n, s, Reindexed);
    RunConcat(n, EMPTY_STATE, before, [Reindexed] + since);
    assert before + [Reindexed] + since == before + ([Reindexed] + since);
    assert ([Reindexed] + since)[1..] == since;
    RunKeepsFresh(n, After(n, s, Reindexed), since);
  }

  // ----- key clashes -----

  /** The first `n` of the new keys are distinct and not in use. */
  ghost predicate NoClash(stored: seq<Passage>, ids: seq<Id>, n: nat) {
    && n <= |ids|
    && (forall i, j :: 0 <= i < j < n ==> ids[i] != ids[j])
    && (forall k, i :: 0 <= k < |stored| && 0 <= i < n ==> stored[k].id != ids[i])
  }

  lemma ClashIff(stored: seq<Passage>, rows: seq<Passage>, ids: seq<Id>, n: nat)
    requires n < |ids| == |rows| && NoClash(stored, ids, n) && forall k :: 0 <= k < |rows| ==> rows[k].id == ids[k]
    ensures Lookup(stored + rows[..n], ids[n]).None? <==> NoClash(stored, ids, n + 1)
    ensures Lookup(stored + rows[..n], ids[n]).Some? ==> !NoClash(stored, ids, |ids|)
  {
    var found := Lookup(stored + rows[..n], ids[n]);
    if found.Some? {
      if found.value !in stored {
        var k :| 0 <= k < n && rows[..n][k] == found.value;
        assert ids[k] == ids[n];
      }
    } else {
      forall k | 0 <= k < n ensures ids[k] != ids[n] {
        assert rows[k] in stored + rows[..n];
      }
      forall k | 0 <= k < |stored| ensures stored[k].id != ids[n] {
        assert stored[k] in stored + rows[..n];
      }
    }
  }

  lemma NextRow(stored: seq<Passage>, rows: seq<Passage>, n: nat)
    requires n < |rows|
    ensures rows[..n + 1] == rows[..n] + [rows[n]]
    ensures stored + rows[..n + 1] == (stored + rows[..n]) + [rows[n]]
  {
  }

  lemma InsertableIff(c: Corpus, u: Upload)
    requires |u.passageIds| == |u.chunks|
    ensures Insertable(c, u) <==> u.document !in c.documents && NoClash(c.passages, u.passageIds, |u.passageIds|)
  {
    if u.document !in c.documents && NoClash(c.passages, u.passageIds, |u.passageIds|) {
      forall p | p in c.passages ensures p.id !in u.passageIds {
        var k :| 0 <= k < |c.passages| && c.passages[k] == p;
      }
    }
    if Insertable(c, u) {
      forall k, i | 0 <= k < |c.passages| && 0 <= i < |u.passageIds| ensures c.passages[k].id != u.passageIds[i] {
        assert c.passages[k] in c.passages && u.passageIds[i] in u.passageIds;
      }
    }
  }

  // ----- the database -----

  class SearchDatabase {
    /** NFKC with case folding, str.isalnum, and what the two make of a text's terms. */
    const fold: string -> string
    const alnum: char -> bool
    const normalizer: string -> string
    var corpus: Corpus
    var index: multiset<IndexRow>
    ghost var titles: map<Id, string>

    ghost function View(): State
      reads this
    {
      State(corpus, index, titles)
    }

    ghost predicate Valid()
      reads this
    {
      Consistent(normalizer, View()) && Tokenizes()
    }

    /** The index stores the terms of the folded text, joined by spaces. */
    ghost predicate Tokenizes() {
      forall text :: normalizer(text) == Join(" ", Terms(alnum, fold(text)))
    }

    constructor (fold: string -> string, alnum: char -> bool)
      ensures Valid() && this.fold == fold && this.alnum == alnum && View() == EMPTY_STATE
    {
      this.fold, this.alnum := fold, alnum;
      normalizer := text => Join(" ", Terms(alnum, fold(text)));
      corpus := EMPTY_CORPUS;
      index := multiset{};
      titles := map[];
    }

    /** Adds the row of one passage. */
    method IndexPassage(passage: Id, title: string, body: string)
      requires Tokenizes()
      modifies this`index
      ensures index == old(index) + multiset{IndexRow(passage, normalizer(title), normalizer(body))}
    {
      var titleTerms, titleTokens := NormalizeSearchTerms(alnum, fold(title));
      var bodyTerms, bodyTokens := NormalizeSearchTerms(alnum, fold(body));
      index := index + multiset{IndexRow(passage, titleTerms, bodyTerms)};
    }

    /** Links a file that is stored already, or stores and indexes it chunk by chunk; a key clash undoes it all. */
    method IngestFile(project: Id, u: Upload) returns (done: bool)
      requires Valid() && |u.passageIds| == |u.chunks|
      modifies this
      ensures Valid() && View() == After(normalizer, old(View()), Ingested(project, u))
      ensures done == (Stored(old(corpus), u.contentHash) || Insertable(old(corpus), u))
    {
      ghost var before := View();
      StepKeepsConsistent(normalizer, before, Ingested(project, u));
      if d :| d in corpus.documents && corpus.documents[d].contentHash == u.contentHash {
        corpus := corpus.(sources := corpus.sources + {(project, d)});
        return true;
      }
      if u.document in corpus.documents {
        return false;
      }
      var stored, indexed := corpus, index;
      corpus := corpus.(documents := corpus.documents[u.document := Document(u.contentHash, u.title, Some(u.sourceVersion))]);
      InsertableIff(before.corpus, u);
      done := InsertPassages(u);
      if !done {
        corpus, index := stored, indexed;
        return;
      }
      corpus := corpus.(sources := corpus.sources + {(project, u.document)});
      titles := titles[u.document := u.title];
    }

    /** Inserts and indexes one passage, unless its key is in use. */
    method InsertPassage(p: Passage, title: string) returns (done: bool)
      requires Tokenizes()
      modifies this`corpus, this`index
      ensures done == Lookup(old(corpus.passages), p.id).None?
      ensures done ==> corpus == old(corpus).(passages := old(corpus.passages) + [p])
                       && index == old(index) + multiset{IndexRow(p.id, normalizer(title), normalizer(p.text))}
    {
      if Lookup(corpus.passages, p.id).Some? {
        return false;
      }
      corpus := corpus.(passages := corpus.passages + [p]);
      IndexPassage(p.id, title, p.text);
      return true;
    }

    /** Inserts and indexes the passages in order, until a key clashes. */
    method InsertPassages(u: Upload) returns (done: bool)
      requires |u.passageIds| == |u.chunks| && Tokenizes()
      modifies this`corpus, this`index
      ensures done == NoClash(old(corpus.passages), u.passageIds, |u.passageIds|)
      ensures done ==> var rows := PassageRows(u.document, u.passageIds, u.chunks, 1);
                       && corpus == old(corpus).(passages := old(corpus.passages) + rows)
                       && index == old(index) + Rows(normalizer, map[u.document := u.title], rows)
    {
      ghost var rows := PassageRows(u.document, u.passageIds, u.chunks, 1);
      ghost var stored := corpus.passages;
      ghost var titled := map[u.document := u.title];
      for ordinal := 0 to |u.chunks|
        invariant corpus == old(corpus).(passages := stored + rows[..ordinal])
        invariant index == old(index) + RowsOf(normalizer, titled, rows, ordinal)
        invariant NoClash(stored, u.passageIds, ordinal)
      {
        ClashIff(stored, rows, u.passageIds, ordinal);
        NextRow(stored, rows, ordinal);
        done := InsertPassage(Passage(u.passageIds[ordinal], u.document, ordinal + 1, u.chunks[ordinal]), u.title);
        if !done {
          return;
        }
      }
      assert rows[..|u.chunks|] == rows;
      return true;
    }

    /** Corrects metadata; the index is left alone, even when the title changes. */
    method UpdateMetadata(document: Id, edit: Edit)
      requires Valid()
      modifies this
      ensures Valid() && View() == After(normalizer, old(View()), Revised(document, edit))
      ensures index == old(index)
    {
      StepKeepsConsistent(normalizer, View(), Revised(document, edit));
      if document in corpus.documents {
        corpus := Revise(corpus, document, edit);
      }
    }

    /** Empties the index and fills it again; the counts always match, so the source's refusal is never taken. */
    method Reindex() returns (count: nat, matches: bool)
      requires Valid()
      modifies this
      ensures Valid() && View() == After(normalizer, old(View()), Reindexed)
      ensures count == |corpus.passages| && matches
    {
      StepKeepsConsistent(normalizer, View(), Reindexed);
      titles := CurrentTitles(corpus);
      FillIndex();
      RowsCount(normalizer, titles, corpus.passages, |corpus.passages|);
      count := |corpus.passages|;
      matches := |index| == count;
    }

    /** Deletes every row and inserts one for each passage. */
    method FillIndex()
      requires Titled(CurrentTitles(corpus), corpus.passages) && Tokenizes()
      modifies this`index
      ensures index == Rows(normalizer, CurrentTitles(corpus), corpus.passages)
    {
      ghost var now := CurrentTitles(corpus);
      index := multiset{};
      for i := 0 to |corpus.passages|
        invariant index == RowsOf(normalizer, now, corpus.passages, i)
      {
        var p := corpus.passages[i];
        IndexPassage(p.id, corpus.documents[p.document].title, p.text);
      }
    }
  }
}
