/**
 Sources and passages: what an administrator ingests, and what the research
 tools read.  Documents keep their content hash for ever and passages are
 append-only; only descriptive metadata may be corrected.
 */
module Corpus {
  import opened Wrappers
  import opened Text

  /** A generated row identifier (a random UUID in the source). */
  type Id = nat

  datatype Document = Document(contentHash: nat, title: string, sourceVersion: Option<string>)

  datatype Passage = Passage(id: Id, document: Id, ordinal: nat, text: string)

  datatype Corpus = Corpus(
    documents: map<Id, Document>,
    passages: seq<Passage>,
    sources: set<(Id, Id)>)

  const EMPTY_CORPUS := Corpus(map[], [], {})

  /** The passage with this primary key. */
  function Lookup(passages: seq<Passage>, id: Id): (p: Option<Passage>)
    ensures p.Some? ==> p.value in passages && p.value.id == id
    ensures p.None? ==> forall q :: q in passages ==> q.id != id
  {
    if passages == [] then None
    else if passages[0].id == id then Some(passages[0])
    else Lookup(passages[1..], id)
  }

  lemma {:induction false} LookupGrows(passages: seq<Passage>, more: seq<Passage>, id: Id)
    requires Lookup(passages, id).Some?
    ensures Lookup(passages + more, id) == Lookup(passages, id)
  {
    assert (passages + more)[0] == passages[0];
    if passages[0].id != id {
      assert (passages + more)[1..] == passages[1..] + more;
      LookupGrows(passages[1..], more, id);
    }
  }

  predicate LinkedTo(c: Corpus, project: Id, document: Id) {
    (project, document) in c.sources
  }

  /** A passage joined to its document, when the project may read it. */
  function PassageInProject(c: Corpus, project: Id, passage: Id): (r: Option<(Passage, Document)>)
    ensures r.Some? ==> Lookup(c.passages, passage) == Some(r.value.0)
                        && r.value.0.document in c.documents
                        && c.documents[r.value.0.document] == r.value.1
                        && LinkedTo(c, project, r.value.0.document)
  {
    match Lookup(c.passages, passage)
    case None => None
    case Some(p) =>
      if p.document in c.documents && LinkedTo(c, project, p.document)
      then Some((p, c.documents[p.document])) else None
  }

  /** COALESCE(source_version, 'unknown'). */
  function VersionOf(d: Document): string {
    match d.sourceVersion case Some(v) => v case None => "unknown"
  }

  /** Every passage belongs to a stored document, and passage keys are unique. */
  ghost predicate Valid(c: Corpus) {
    && (forall p :: p in c.passages ==> p.document in c.documents)
    && (forall i, j :: 0 <= i < j < |c.passages| ==> c.passages[i].id != c.passages[j].id)
    && (forall d, e | d in c.documents && e in c.documents ::
          c.documents[d].contentHash == c.documents[e].contentHash ==> d == e)
  }

  /** What no later step may undo: content hashes and passages. */
  ghost predicate Extends(c: Corpus, later: Corpus) {
    && c.passages <= later.passages
    && c.sources <= later.sources
    && forall d :: d in c.documents ==>
      d in later.documents && later.documents[d].contentHash == c.documents[d].contentHash
  }

  lemma ExtendsKeepsLookup(c: Corpus, later: Corpus, id: Id)
    requires Extends(c, later)
    ensures Lookup(c.passages, id).Some? ==> Lookup(later.passages, id) == Lookup(c.passages, id)
  {
    if Lookup(c.passages, id).Some? {
      assert later.passages == c.passages + later.passages[|c.passages|..];
      LookupGrows(c.passages, later.passages[|c.passages|..], id);
    }
  }

  /** An extracted file: its hash, the identifiers its rows will carry, its chunks. */
  datatype Upload = Upload(document: Id, contentHash: nat, title: string,
                           sourceVersion: string, passageIds: seq<Id>, chunks: seq<string>)

  function PassageRows(document: Id, ids: seq<Id>, chunks: seq<string>, first: nat): (r: seq<Passage>)
    requires |ids| == |chunks|
    ensures |r| == |ids|
    ensures forall k :: 0 <= k < |r| ==> r[k] == Passage(ids[k], document, first + k, chunks[k])
  {
    if ids == [] then [] else
    [Passage(ids[0], document, first, chunks[0])] + PassageRows(document, ids[1..], chunks[1..], first + 1)
  }

  /** The document that already carries this content hash. */
  predicate Stored(c: Corpus, contentHash: nat) {
    exists d :: d in c.documents && c.documents[d].contentHash == contentHash
  }

  ghost function StoredAs(c: Corpus, contentHash: nat): (d: Id)
    requires Stored(c, contentHash)
    ensures d in c.documents && c.documents[d].contentHash == contentHash
  {
    var d :| d in c.documents && c.documents[d].contentHash == contentHash;
    d
  }

  /** Key clashes make the database abort the insert. */
  predicate Insertable(c: Corpus, u: Upload) {
    && |u.passageIds| == |u.chunks|
    && u.document !in c.documents
    && (forall i, j :: 0 <= i < j < |u.passageIds| ==> u.passageIds[i] != u.passageIds[j])
    && (forall p :: p in c.passages ==> p.id !in u.passageIds)
  }

  /**
   Storing a file.  A hash that is already stored only links the existing
   document to the project; otherwise the document, its passages and the link
   are added together.
   */
  ghost function Ingest(c: Corpus, project: Id, u: Upload): (r: Corpus)
    requires Stored(c, u.contentHash) || Insertable(c, u)
    ensures Extends(c, r)
    ensures Valid(c) ==> Valid(r)
  {
    if Stored(c, u.contentHash) then
      c.(sources := c.sources + {(project, StoredAs(c, u.contentHash))})
    else
      Corpus(
        c.documents[u.document := Document(u.contentHash, u.title, Some(u.sourceVersion))],
        c.passages + PassageRows(u.document, u.passageIds, u.chunks, 1),
        c.sources + {(project, u.document)})
  }

  /** The metadata fields an edit names; a version may be cleared to NULL. */
  datatype Edit = Edit(title: Option<string>, sourceVersion: Option<Option<string>>)

  function Edited(d: Document, e: Edit): Document {
    var titled := match e.title case None => d case Some(t) => d.(title := Strip(t));
    match e.sourceVersion
    case None => titled
    case Some(None) => titled.(sourceVersion := None)
    case Some(Some(v)) => titled.(sourceVersion := Some(Strip(v)))
  }

  function Revise(c: Corpus, document: Id, e: Edit): (r: Corpus)
    requires document in c.documents
    ensures Extends(c, r)
    ensures Valid(c) ==> Valid(r)
    ensures forall d :: d in c.documents && d != document ==> r.documents[d] == c.documents[d]
  {
    c.(documents := c.documents[document := Edited(c.documents[document], e)])
  }
}
