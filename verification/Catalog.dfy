/**
 The catalog scan: each file of the source tree becomes a record, processed
 records are kept in a progress file, and an interrupted scan is resumed from
 it, reusing records whose cache key still matches.
 */
module Catalog {
  import opened Wrappers

  type Key = nat

  // ----- statuses -----

  datatype ProbeStatus =
    | ProbePending | ProbeNotRun | ProbeSkippedPrivate | ProbeSkippedDerivative | ProbeSkippedRepository
    | ProbeOk | ProbeNeedsOcr | ProbeEncrypted | ProbeUnavailable | ProbeDoubtful | ProbeFailed

  datatype Technical =
    | Unprobed | ReadyForManifest | NeedsMetadata | NeedsOcr | Encrypted | NeedsExtraction | Corrupt
    | PrivacyReview | GeneratedDerivative | SoftwareOrCache | MediaDeferred | UnsupportedFormat
    | ChangedDuringScan | HashingDeferred | LegacyDuplicate

  datatype Metadata = Bibliographic | Verified | FileCreator | FilenameInferred | UnknownMetadata | Partial

  datatype HashStatus = NotRequested | HashPending | HashComplete | HashDeferred | HashUnavailable | HashUnstable

  datatype Change = New | Modified | Unchanged

  datatype Duplicate = NoDuplicate | ExactDuplicate | PossibleDuplicate

  datatype Selection = Undecided | Excluded | NotSelected | Candidate | UnderPrivacyReview | NotPresent

  // ----- files and records -----

  datatype FileKind = Link | Document | Media | Software | OtherFile

  /** What the path and the policy say about a file. */
  datatype Class = Class(extension: string, kind: FileKind, supported: bool, private: bool, derivative: bool,
                         ocrFragment: bool, repository: bool, projectDocument: bool)

  /** What a bounded probe of the content says. */
  datatype Probe = Probe(status: ProbeStatus, metadata: Metadata, metadataReady: bool, textLayer: bool)

  /** A file of the tree; no quick fingerprint means that it cannot be read. */
  datatype Entry = Entry(key: Key, size: nat, modified: nat, classified: Class, quick: Option<nat>, probe: Probe)

  datatype Record = Record(
    key: Key, size: nat, signature: (nat, nat), classified: Class, policy: nat, quick: Option<nat>,
    probe: ProbeStatus, technical: Technical, metadata: Metadata, metadataReady: bool, textLayer: bool,
    hash: HashStatus, sha: Option<nat>, present: bool, change: Change,
    bucketed: bool, duplicate: Duplicate, selection: Selection)

  const PROBE_POLICY := 8

  function BaseRecord(e: Entry, previous: Option<Record>): Record {
    var link := e.classified.kind == Link;
    Record(e.key, e.size, (e.size, e.modified), e.classified, PROBE_POLICY, None,
           if link then ProbeNotRun else ProbePending,
           if link then UnsupportedFormat else Unprobed,
           UnknownMetadata, false, false,
           if link then NotRequested else HashPending, None, true,
           if previous.Some? && previous.value.present then Modified else New,
           false, NoDuplicate, if link then Excluded else Undecided)
  }

  /** The cached record still describes the file. */
  predicate CacheMatches(previous: Record, e: Entry, quick: nat) {
    && previous.present && previous.policy == PROBE_POLICY
    && previous.signature == (e.size, e.modified) && previous.quick == Some(quick)
    && previous.probe != ProbePending && previous.probe != ProbeNotRun
  }

  function TechnicalOf(p: Probe): Technical {
    match p.status
    case ProbeOk => if p.metadata == Bibliographic || p.metadata == Verified then ReadyForManifest else NeedsMetadata
    case ProbeNeedsOcr => NeedsOcr
    case ProbeEncrypted => Encrypted
    case ProbePending => NeedsExtraction
    case ProbeUnavailable => NeedsExtraction
    case ProbeDoubtful => NeedsExtraction
    case _ => Corrupt
  }

  /** A file that is not answered from the cache. */
  function Classified(e: Entry, base: Record): Record {
    var c := e.classified;
    if c.private then base.(technical := PrivacyReview, probe := ProbeSkippedPrivate, hash := NotRequested)
    else if c.derivative then base.(technical := GeneratedDerivative, probe := ProbeSkippedDerivative, hash := NotRequested)
    else if c.repository || c.projectDocument then
      base.(technical := SoftwareOrCache, probe := ProbeSkippedRepository, hash := NotRequested)
    else if !c.supported then
      base.(technical := match c.kind case Media => MediaDeferred case Software => SoftwareOrCache case _ => UnsupportedFormat,
            probe := ProbeNotRun, hash := NotRequested)
    else base.(technical := TechnicalOf(e.probe), probe := e.probe.status, metadata := e.probe.metadata,
               metadataReady := e.probe.metadataReady, textLayer := e.probe.textLayer, hash := HashPending)
  }

  /** Processing of one file that does not change meanwhile. */
  function ProcessOne(e: Entry, previous: Option<Record>): (r: Record)
    ensures r.key == e.key || (previous.Some? && r.key == previous.value.key)
  {
    var base := BaseRecord(e, previous);
    if e.classified.kind == Link then base
    else match e.quick
      case None => base.(technical := Corrupt, probe := ProbeUnavailable, hash := HashUnavailable)
      case Some(quick) =>
        if previous.Some? && CacheMatches(previous.value, e, quick) then
          previous.value.(present := true, change := Unchanged, size := e.size, signature := (e.size, e.modified))
        else Classified(e, base.(quick := Some(quick)))
  }

  // ----- resuming -----

  /** The record of a scan that has never seen the file. */
  function Fresh(e: Entry): Record {
    ProcessOne(e, None)
  }

  /** Equal but for the change state (and the timestamps, which are not modelled). */
  predicate SameRecord(a: Record, b: Record) {
    a.(change := New) == b.(change := New)
  }

  /** A cache hit gives what processing the file afresh would give. */
  lemma CacheIsInvisible(e: Entry, previous: Record)
    requires SameRecord(previous, Fresh(e))
    ensures SameRecord(ProcessOne(e, Some(previous)), Fresh(e))
  {
    if e.classified.kind != Link && e.quick.Some? {
      assert Fresh(e) == Classified(e, BaseRecord(e, None).(quick := e.quick));
    }
  }

  predicate DistinctKeys(tree: seq<Entry>) {
    forall i, j :: 0 <= i < j < |tree| ==> tree[i].key != tree[j].key
  }

  // ----- the dictionary of records, in the order of insertion -----

  function Locate(existing: seq<Record>, key: Key): (i: Option<nat>)
    ensures i.Some? ==> i.value < |existing| && existing[i.value].key == key
    ensures i.None? ==> forall k :: 0 <= k < |existing| ==> existing[k].key != key
  {
    if existing == [] then None
    else if existing[|existing| - 1].key == key then Some(|existing| - 1)
    else Locate(existing[..|existing| - 1], key)
  }

  /** existing[record.key] = record */
  function PutRecord(existing: seq<Record>, r: Record): seq<Record> {
    match Locate(existing, r.key) case Some(i) => existing[i := r] case None => existing + [r]
  }

  /** The records of a progress file; a later row of a file replaces an earlier one. */
  function ReadRows(rows: seq<Record>): seq<Record> {
    if rows == [] then [] else PutRecord(ReadRows(rows[..|rows| - 1]), rows[|rows| - 1])
  }

  ghost predicate SameRecords(a: seq<Record>, b: seq<Record>) {
    |a| == |b| && forall i :: 0 <= i < |a| ==> SameRecord(a[i], b[i])
  }

  /** The records that an uninterrupted first scan makes. */
  function FreshRecords(tree: seq<Entry>): (rs: seq<Record>)
    ensures |rs| == |tree|
  {
    seq(|tree|, i requires 0 <= i < |tree| => Fresh(tree[i]))
  }

  /** The files up to some point of the tree, in its order, as a fresh scan describes them. */
  ghost predicate InOrder(tree: seq<Entry>, existing: seq<Record>) {
    |existing| <= |tree| && forall k :: 0 <= k < |existing| ==> SameRecord(existing[k], Fresh(tree[k]))
  }

  /** Each row describes a file that the rows before it have reached. */
  ghost predicate GoodRows(tree: seq<Entry>, rows: seq<Record>) {
    rows == []
    || (var init, row := rows[..|rows| - 1], rows[|rows| - 1];
        GoodRows(tree, init) && exists i: nat :: i < |tree| && i <= |ReadRows(init)| && SameRecord(row, Fresh(tree[i])))
  }

  lemma PutInOrder(tree: seq<Entry>, existing: seq<Record>, i: nat, r: Record)
    requires DistinctKeys(tree) && InOrder(tree, existing) && i < |tree| && i <= |existing|
    requires SameRecord(r, Fresh(tree[i]))
    ensures PutRecord(existing, r) == if i < |existing| then existing[i := r] else existing + [r]
    ensures InOrder(tree, PutRecord(existing, r))
  {
    assert r.key == tree[i].key && forall k :: 0 <= k < |existing| ==> existing[k].key == tree[k].key;
    var at := Locate(existing, r.key);
    assert at.Some? ==> at.value == i;
  }

  lemma {:induction false} RowsInOrder(tree: seq<Entry>, rows: seq<Record>)
    requires DistinctKeys(tree) && GoodRows(tree, rows)
    ensures InOrder(tree, ReadRows(rows))
  {
    if rows != [] {
      var init, row := rows[..|rows| - 1], rows[|rows| - 1];
      RowsInOrder(tree, init);
      var i: nat :| i < |tree| && i <= |ReadRows(init)| && SameRecord(row, Fresh(tree[i]));
      PutInOrder(tree, ReadRows(init), i, row);
    }
  }

  lemma {:induction false} GoodPrefix(tree: seq<Entry>, rows: seq<Record>, kept: nat)
    requires GoodRows(tree, rows) && kept <= |rows|
    ensures GoodRows(tree, rows[..kept])
  {
    if kept == |rows| {
      assert rows[..kept] == rows;
    } else {
      var init := rows[..|rows| - 1];
      GoodPrefix(tree, init, kept);
      assert init[..kept] == rows[..kept];
    }
  }

  lemma RowAdded(tree: seq<Entry>, rows: seq<Record>, i: nat, row: Record)
    requires DistinctKeys(tree) && GoodRows(tree, rows) && i < |tree| && i <= |ReadRows(rows)|
    requires SameRecord(row, Fresh(tree[i]))
    ensures GoodRows(tree, rows + [row]) && ReadRows(rows + [row]) == PutRecord(ReadRows(rows), row)
    ensures |ReadRows(rows + [row])| >= i + 1
  {
    assert (rows + [row])[..|rows|] == rows;
    RowsInOrder(tree, rows);
    PutInOrder(tree, ReadRows(rows), i, row);
  }

  /** A first scan of an unchanging tree, with its progress file. */
  class CatalogScanner {
    const tree: seq<Entry>
    var partialRows: seq<Record>

    ghost predicate Valid()
      reads this
    {
      DistinctKeys(tree) && GoodRows(tree, partialRows)
    }

    constructor (tree: seq<Entry>)
      requires DistinctKeys(tree)
      ensures Valid() && this.tree == tree && partialRows == []
    {
      this.tree := tree;
      partialRows := [];
    }

    /** Reads the progress file. */
    method ReadPartial() returns (existing: seq<Record>)
      ensures existing == ReadRows(partialRows)
    {
      existing := [];
      for k := 0 to |partialRows|
        invariant existing == ReadRows(partialRows[..k])
      {
        assert partialRows[..k + 1][..k] == partialRows[..k];
        existing := PutRecord(existing, partialRows[k]);
      }
      assert partialRows[..|partialRows|] == partialRows;
    }

    /**
     Processes the files in order, appending each record to the progress file.
     A scan that completes gives the records of an uninterrupted first scan, in
     the same order, whatever was interrupted before.
     */
    method Scan(stopAfter: Option<nat>) returns (done: Option<seq<Record>>)
      requires Valid()
      modifies this
      ensures Valid()
      ensures stopAfter.None? ==> done.Some?
      ensures done.Some? ==> SameRecords(done.value, FreshRecords(tree)) && partialRows == []
    {
      var existing := ReadPartial();
      for processed := 0 to |tree|
        invariant Valid() && existing == ReadRows(partialRows) && processed <= |existing|
      {
        existing := Advance(processed, existing);
        if stopAfter.Some? && processed + 1 >= stopAfter.value {
          return None;
        }
      }
      RowsInOrder(tree, partialRows);
      RemovePartial();
      return Some(existing);
    }

    /** Processes one file, from the cache if its record is there, and records it. */
    method Advance(i: nat, before: seq<Record>) returns (existing: seq<Record>)
      requires Valid() && before == ReadRows(partialRows) && i < |tree| && i <= |before|
      modifies this
      ensures Valid() && existing == ReadRows(partialRows) && i + 1 <= |existing|
    {
      var e := tree[i];
      var at := Locate(before, e.key);
      var previous := if at.Some? then Some(before[at.value]) else None;
      RowsInOrder(tree, partialRows);
      if previous.Some? {
        assert before[at.value].key == tree[at.value].key;
        CacheIsInvisible(e, previous.value);
      }
      var record := ProcessOne(e, previous);
      RowAdded(tree, partialRows, i, record);
      existing := PutRecord(before, record);
      partialRows := partialRows + [record];
    }

    method RemovePartial()
      requires Valid()
      modifies this
      ensures Valid() && partialRows == []
    {
      partialRows := [];
    }

    /** A crash may lose rows that were not flushed, or tear the last one, which is then ignored. */
    method Crash(kept: nat)
      requires Valid() && kept <= |partialRows|
      modifies this
      ensures Valid() && partialRows == old(partialRows)[..kept]
    {
      GoodPrefix(tree, partialRows, kept);
      partialRows := partialRows[..kept];
    }
  }
}
