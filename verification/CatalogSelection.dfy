/** The bounded choice of candidates, ready records first. */
module CatalogSelection {
  import opened Sorting
  import opened Catalog
  import opened CatalogStages
  import opened CatalogDuplicates

  /** The record may go into the first batch without review. */
  predicate IsReady(r: Record) {
    && r.present && r.technical in {ReadyForManifest, NeedsMetadata}
    && r.hash == HashComplete && r.duplicate == NoDuplicate
    && !r.classified.private && !r.classified.repository && !r.classified.projectDocument
    && !r.classified.derivative && !r.classified.ocrFragment
    && (r.classified.extension == ".pdf" ==> r.textLayer)
    && r.metadataReady
  }

  /** The record is offered for review instead. */
  predicate NeedsReview(r: Record) {
    && r.present && !IsReady(r)
    && !r.classified.private && !r.classified.repository && !r.classified.projectDocument && !r.classified.derivative
    && r.classified.supported && r.classified.kind == Document
  }

  /** Selection status before the ready candidates are chosen. */
  function FirstStatus(r: Record): Selection {
    if !r.present then NotPresent
    else if IsReady(r) then NotSelected
    else if r.classified.private then UnderPrivacyReview
    else if r.classified.repository || r.classified.projectDocument || r.classified.derivative then Excluded
    else if r.classified.supported && r.classified.kind == Document then Candidate
    else Excluded
  }

  function CandidateRank(cfg: Config): Record -> int {
    (r: Record) => cfg.candidateOrder(r.classified.kind == Document, r.metadata == Partial, r.size, r.key)
  }

  /** The records with their selection status, and the positions of the chosen ones in order. */
  datatype Choice = Choice(records: seq<Record>, ready: seq<nat>, review: seq<nat>)

  function Limit(cfg: Config): nat {
    AtLeastOne(cfg.candidateLimit)
  }

  function ReadyOf(cfg: Config, rs: seq<Record>): (ready: seq<nat>)
    ensures |ready| <= Limit(cfg)
  {
    Best(rs, IsReady, CandidateRank(cfg), Limit(cfg))
  }

  function ReviewOf(cfg: Config, rs: seq<Record>, limit: nat): (review: seq<nat>)
    ensures |review| <= limit
  {
    Best(rs, NeedsReview, CandidateRank(cfg), limit)
  }

  function WithStatus(rs: seq<Record>, ready: seq<nat>): (r: seq<Record>)
    ensures |r| == |rs|
  {
    seq(|rs|, i requires 0 <= i < |rs| => rs[i].(selection := if i in ready then Candidate else FirstStatus(rs[i])))
  }

  /**
   Reference definition: the best ready records up to the limit, then the best
   records for review in what is left, both in the order of their sort keys.
   */
  function Choose(cfg: Config, rs: seq<Record>): Choice {
    var ready := ReadyOf(cfg, rs);
    Choice(WithStatus(rs, ready), ready, ReviewOf(cfg, rs, Limit(cfg) - |ready|))
  }

  /** Two ready records never have the same content. */
  lemma ReadyHashesDiffer(rs: seq<Record>, i: nat, j: nat)
    requires Analyzed(rs) && AllStored(rs) && i < |rs| && j < |rs| && i != j && IsReady(rs[i]) && IsReady(rs[j])
    ensures rs[i].sha.Some? && rs[i].sha != rs[j].sha
  {
    assert HashIsStored(rs[i]) && HashIsStored(rs[j]);
    assert !IsExact(rs, i);
    assert IsHashed(rs[i]) && IsHashed(rs[j]);
  }

  /** The ready records chosen are the best by rank, in that order, and no two have the same content. */
  lemma ReadyAreBest(cfg: Config, rs: seq<Record>)
    ensures IsBest(RankAt(rs, CandidateRank(cfg)), Positions(rs, IsReady), Limit(cfg), Choose(cfg, rs).ready)
    ensures Analyzed(rs) && AllStored(rs) ==>
              forall i, j :: i in Choose(cfg, rs).ready && j in Choose(cfg, rs).ready && i != j ==>
                i < |rs| && j < |rs| && rs[i].sha != rs[j].sha
  {
    var ready := ReadyOf(cfg, rs);
    BestIsBest(rs, IsReady, CandidateRank(cfg), Limit(cfg));
    forall i | i in ready ensures i < |rs| && IsReady(rs[i]) {
      assert i in Positions(rs, IsReady);
    }
    ReadyAreDistinct(rs, ready);
  }

  /** The records for review are the best by rank, in that order. */
  lemma ReviewIsBest(cfg: Config, rs: seq<Record>, limit: nat)
    ensures IsBest(RankAt(rs, CandidateRank(cfg)), Positions(rs, NeedsReview), limit, ReviewOf(cfg, rs, limit))
  {
    BestIsBest(rs, NeedsReview, CandidateRank(cfg), limit);
  }

  lemma ReadyAreDistinct(rs: seq<Record>, ready: seq<nat>)
    requires forall i :: i in ready ==> i < |rs| && IsReady(rs[i])
    ensures Analyzed(rs) && AllStored(rs) ==>
              forall i, j :: i in ready && j in ready && i != j ==> i < |rs| && j < |rs| && rs[i].sha != rs[j].sha
  {
    forall i, j | Analyzed(rs) && AllStored(rs) && i in ready && j in ready && i != j ensures rs[i].sha != rs[j].sha {
      ReadyHashesDiffer(rs, i, j);
    }
  }

  class CandidateSelection {
    const cfg: Config
    var records: seq<Record>

    constructor (cfg: Config, records: seq<Record>)
      ensures this.cfg == cfg && this.records == records
    {
      this.cfg, this.records := cfg, records;
    }

    /** Sets the status of every record and lists the ones that need review. */
    method FirstPass() returns (review: seq<nat>)
      modifies this`records
      ensures records == WithStatus(old(records), [])
      ensures review == Positions(old(records), NeedsReview)
    {
      review := [];
      for i := 0 to |records|
        invariant |records| == |old(records)|
        invariant forall j :: i <= j < |records| ==> records[j] == old(records[j])
        invariant forall j :: 0 <= j < i ==> records[j] == old(records[j]).(selection := FirstStatus(old(records[j])))
        invariant review == Positions(old(records)[..i], NeedsReview)
      {
        var r := records[i];
        records := records[i := r.(selection := FirstStatus(r))];
        assert old(records)[..i + 1][..i] == old(records)[..i];
        if NeedsReview(r) {
          review := review + [i];
        }
      }
      assert old(records)[..|records|] == old(records);
    }

    /**
     Chooses the best ready records up to the limit, and fills the rest of the
     limit with records to be reviewed.
     */
    method SelectCandidates() returns (ready: seq<nat>, review: seq<nat>)
      modifies this`records
      ensures Choice(records, ready, review) == Choose(cfg, old(records))
    {
      ghost var before := records;
      var pending;
      ready, pending := SelectReady();
      review := SelectReview(before, pending, Limit(cfg) - |ready|);
    }

    method SelectReview(ghost before: seq<Record>, pending: seq<nat>, limit: nat) returns (review: seq<nat>)
      requires StatusAside(before, records) && pending == Positions(before, NeedsReview)
      ensures review == ReviewOf(cfg, before, limit)
    {
      ReviewOrder(cfg, before, records, pending, limit);
      review := FirstBy(RankAt(records, CandidateRank(cfg)), pending, limit);
    }

    method SelectReady() returns (ready: seq<nat>, pending: seq<nat>)
      modifies this`records
      ensures records == WithStatus(old(records), ready) && ready == ReadyOf(cfg, old(records))
      ensures pending == Positions(old(records), NeedsReview)
    {
      ghost var before := records;
      pending := FirstPass();
      StatusIsNoEvidence(cfg, before);
      ready := Best(records, IsReady, CandidateRank(cfg), Limit(cfg));
      ReadyAreRecords(cfg, before);
      MarkCandidates(ready);
    }

    method MarkCandidates(ready: seq<nat>)
      requires forall k :: 0 <= k < |ready| ==> ready[k] < |records|
      modifies this`records
      ensures |records| == |old(records)|
      ensures forall i :: 0 <= i < |records| ==>
                records[i] == if i in ready then old(records[i]).(selection := Candidate) else old(records[i])
    {
      for k := 0 to |ready|
        invariant |records| == |old(records)|
        invariant forall i :: 0 <= i < |records| ==>
                    records[i] == if i in ready[..k] then old(records[i]).(selection := Candidate) else old(records[i])
      {
        assert ready[..k + 1] == ready[..k] + [ready[k]];
        records := records[ready[k] := records[ready[k]].(selection := Candidate)];
      }
      assert ready[..|ready|] == ready;
    }
  }

  /** Equal but for the selection status. */
  ghost predicate StatusAside(a: seq<Record>, b: seq<Record>) {
    |a| == |b| && forall i :: 0 <= i < |a| ==> a[i] == b[i].(selection := a[i].selection)
  }

  lemma StatusIsNoEvidence(cfg: Config, rs: seq<Record>)
    ensures Best(WithStatus(rs, []), IsReady, CandidateRank(cfg), Limit(cfg)) == ReadyOf(cfg, rs)
  {
    var after := WithStatus(rs, []);
    PositionsSame(after, rs, IsReady);
    SortCongruence(RankAt(after, CandidateRank(cfg)), RankAt(rs, CandidateRank(cfg)), Positions(rs, IsReady));
  }

  lemma ReadyAreRecords(cfg: Config, rs: seq<Record>)
    ensures forall k :: 0 <= k < |ReadyOf(cfg, rs)| ==> ReadyOf(cfg, rs)[k] < |rs|
  {
    BestIsBest(rs, IsReady, CandidateRank(cfg), Limit(cfg));
    forall k | 0 <= k < |ReadyOf(cfg, rs)| ensures ReadyOf(cfg, rs)[k] < |rs| {
      assert ReadyOf(cfg, rs)[k] in ReadyOf(cfg, rs);
    }
  }

  lemma ReviewOrder(cfg: Config, before: seq<Record>, after: seq<Record>, positions: seq<nat>, limit: nat)
    requires StatusAside(before, after)
    ensures FirstBy(RankAt(after, CandidateRank(cfg)), positions, limit) == FirstBy(RankAt(before, CandidateRank(cfg)), positions, limit)
  {
    SortCongruence(RankAt(after, CandidateRank(cfg)), RankAt(before, CandidateRank(cfg)), positions);
  }
}
