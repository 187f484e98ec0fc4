/**
 From a file of the tree to its place in the catalog: what a completed first run
 says of each file, in terms of the files alone.
 */
module CatalogOutcome {
  import opened Wrappers
  import opened Sorting
  import opened Catalog
  import opened CatalogStages
  import opened CatalogDuplicates
  import opened CatalogSelection
  import opened CatalogRun

  // ----- derivatives -----

  predicate IsText(c: Class) {
    c.extension == ".txt" || c.extension == ".md" || c.extension == ".html" || c.extension == ".htm"
  }

  /** A text file beside a PDF of the same directory and stem. */
  ghost predicate IsCopy(cfg: Config, tree: seq<Entry>, i: nat)
    requires i < |tree|
  {
    IsText(tree[i].classified)
    && exists j :: 0 <= j < |tree| && tree[j].classified.extension == ".pdf" && cfg.stem(tree[j].key) == cfg.stem(tree[i].key)
  }

  /** The class of a file once derivatives are marked. */
  ghost function FinalClass(cfg: Config, tree: seq<Entry>, i: nat): Class
    requires i < |tree|
  {
    tree[i].classified.(derivative := tree[i].classified.derivative || IsCopy(cfg, tree, i))
  }

  ghost function Marked(cfg: Config, tree: seq<Entry>): (rs: seq<Record>)
    ensures |rs| == |tree|
  {
    WithDerivatives(cfg, FreshRecords(tree))
  }

  ghost function Analyzable(cfg: Config, tree: seq<Entry>): (rs: seq<Record>)
    ensures |rs| == |tree|
  {
    Analysis(cfg, Marked(cfg, tree))
  }

  lemma FreshClass(e: Entry)
    ensures Fresh(e).present && Fresh(e).classified == e.classified && Fresh(e).key == e.key && Fresh(e).size == e.size
  {
  }

  lemma CopyIsPartner(cfg: Config, tree: seq<Entry>, i: nat)
    requires i < |tree|
    ensures IsCopy(cfg, tree, i) <==> HasPartner(FreshRecords(tree), IsTextCopy, IsPdf, StemKind(cfg), i)
  {
    var rs := FreshRecords(tree);
    forall k | 0 <= k < |tree| ensures rs[k].present && rs[k].classified == tree[k].classified && rs[k].key == tree[k].key {
      FreshClass(tree[k]);
    }
    if IsCopy(cfg, tree, i) {
      var j :| 0 <= j < |tree| && tree[j].classified.extension == ".pdf" && cfg.stem(tree[j].key) == cfg.stem(tree[i].key);
      assert j != i && IsPdf(rs[j]) && StemKind(cfg)(rs[j]) == StemKind(cfg)(rs[i]);
    }
    if HasPartner(rs, IsTextCopy, IsPdf, StemKind(cfg), i) {
      var j :| 0 <= j < |rs| && j != i && IsPdf(rs[j]) && StemKind(cfg)(rs[j]) == StemKind(cfg)(rs[i]);
      assert tree[j].classified.extension == ".pdf";
    }
  }

  lemma MarkedClass(cfg: Config, tree: seq<Entry>, i: nat)
    requires i < |tree|
    ensures Marked(cfg, tree)[i].present && Marked(cfg, tree)[i].classified == FinalClass(cfg, tree, i)
  {
    FreshClass(tree[i]);
    CopyIsPartner(cfg, tree, i);
  }

  /** Just the text files beside a PDF of their stem become derivatives; every other class stays as the file has it. */
  lemma ClassesEnd(cfg: Config, tree: seq<Entry>, i: nat)
    requires i < |tree|
    ensures |Catalogued(cfg, FreshRecords(tree)).records| == |tree|
    ensures Catalogued(cfg, FreshRecords(tree)).records[i].classified == FinalClass(cfg, tree, i)
  {
    MarkedClass(cfg, tree, i);
    AnalysisKeepsFiles(cfg, Marked(cfg, tree));
    assert SameFile(Marked(cfg, tree)[i], Analyzable(cfg, tree)[i]);
  }

  /** A derivative is never chosen. */
  lemma DerivativesAreNotChosen(cfg: Config, tree: seq<Entry>, i: nat)
    requires i < |tree| && (IsCopy(cfg, tree, i) || tree[i].classified.derivative)
    ensures i !in Catalogued(cfg, FreshRecords(tree)).ready && i !in Catalogued(cfg, FreshRecords(tree)).review
  {
    var rs := Analyzable(cfg, tree);
    ClassesEnd(cfg, tree, i);
    ChosenPass(cfg, rs, i);
  }

  lemma ChosenPass(cfg: Config, rs: seq<Record>, i: nat)
    ensures i in Choose(cfg, rs).ready ==> i < |rs| && IsReady(rs[i])
    ensures i in Choose(cfg, rs).review ==> i < |rs| && NeedsReview(rs[i])
  {
    BestIsBest(rs, IsReady, CandidateRank(cfg), Limit(cfg));
    BestIsBest(rs, NeedsReview, CandidateRank(cfg), Limit(cfg) - |ReadyOf(cfg, rs)|);
    assert i in ReadyOf(cfg, rs) ==> i in Positions(rs, IsReady);
  }

  // ----- technical status and hash -----

  /** The file could be read and its text probed. */
  predicate IsProbed(e: Entry) {
    var c := e.classified;
    c.kind != Link && e.quick.Some? && c.supported && !c.private && !c.derivative && !c.repository && !c.projectDocument
    && e.probe.status == ProbeOk
  }

  predicate IsDocumentary(t: Technical) {
    t == ReadyForManifest || t == NeedsMetadata
  }

  lemma FreshTechnical(e: Entry)
    ensures IsDocumentary(Fresh(e).technical) <==> IsProbed(e)
    ensures Fresh(e).technical != LegacyDuplicate && Fresh(e).hash != HashComplete
    ensures IsProbed(e) ==> Fresh(e).textLayer == e.probe.textLayer && Fresh(e).metadataReady == e.probe.metadataReady
    ensures IsHashable(Fresh(e).technical) <==> CanBeHashed(e)
    ensures Fresh(e).quick == if e.classified.kind == Link then None else e.quick
  {
  }

  /** The kind of file that is hashed at all when asked. */
  predicate CanBeHashed(e: Entry) {
    var c := e.classified;
    && c.kind != Link && e.quick.Some? && c.supported && !c.private && !c.derivative && !c.repository && !c.projectDocument
    && e.probe.status in {ProbeOk, ProbeNeedsOcr, ProbePending, ProbeUnavailable, ProbeDoubtful}
  }

  /** What marking and the reset leave to the hashing. */
  ghost function Opened(cfg: Config, tree: seq<Entry>): (rs: seq<Record>)
    ensures |rs| == |tree|
  {
    Bucketed(Marked(cfg, tree))
  }

  /** A copy that was probed is no longer to be hashed. */
  ghost predicate IsHashCandidate(cfg: Config, tree: seq<Entry>, i: nat)
    requires i < |tree|
  {
    CanBeHashed(tree[i]) && !(IsProbed(tree[i]) && IsCopy(cfg, tree, i))
  }

  /** What the marking, or the reset after it, leaves of a fresh record. */
  ghost predicate IsOpen(cfg: Config, tree: seq<Entry>, i: nat, r: Record)
    requires i < |tree|
  {
    var e := tree[i];
    && r.present && r.hash != HashComplete && r.key == e.key && r.size == e.size
    && r.classified == FinalClass(cfg, tree, i) && r.quick == Fresh(e).quick && r.technical != LegacyDuplicate
    && (IsDocumentary(r.technical) <==> IsProbed(e) && !IsCopy(cfg, tree, i))
    && (IsHashable(r.technical) <==> IsHashCandidate(cfg, tree, i))
    && r.textLayer == Fresh(e).textLayer && r.metadataReady == Fresh(e).metadataReady
  }

  lemma MarkedIsOpen(cfg: Config, tree: seq<Entry>, i: nat)
    requires i < |tree|
    ensures IsOpen(cfg, tree, i, Marked(cfg, tree)[i])
  {
    FreshTechnical(tree[i]);
    MarkedClass(cfg, tree, i);
    CopyIsPartner(cfg, tree, i);
  }

  lemma ResetStaysOpen(cfg: Config, tree: seq<Entry>, i: nat, r: Record)
    requires i < |tree| && IsOpen(cfg, tree, i, r)
    ensures IsOpen(cfg, tree, i, Reset(r)) && IsOpen(cfg, tree, i, AsBucketed()(Reset(r)))
  {
  }

  lemma OpenedIsOpen(cfg: Config, tree: seq<Entry>, i: nat)
    requires i < |tree|
    ensures IsOpen(cfg, tree, i, Opened(cfg, tree)[i])
  {
    MarkedIsOpen(cfg, tree, i);
    ResetStaysOpen(cfg, tree, i, Marked(cfg, tree)[i]);
  }

  /** A request to hash this record would complete. */
  predicate WouldComplete(cfg: Config, r: Record) {
    r.present && IsHashable(r.technical) && r.size <= AtLeastOne(cfg.maxHashBytes) && cfg.digest(r.key).Sha?
  }

  /** One request or two: the hash is complete just when the first request could complete, and then the record is otherwise as it was. */
  lemma RequestCompletesIff(cfg: Config, r: Record)
    requires r.hash != HashComplete && r.present
    ensures Hashed(cfg, r).hash == HashComplete <==> WouldComplete(cfg, r)
    ensures Hashed(cfg, Hashed(cfg, r)).hash == HashComplete <==> WouldComplete(cfg, r)
    ensures WouldComplete(cfg, r) ==>
              && Hashed(cfg, r) == r.(hash := HashComplete, sha := Some(cfg.digest(r.key).value))
              && Hashed(cfg, Hashed(cfg, r)) == Hashed(cfg, r)
  {
  }

  /** Another file has the same size, extension and quick fingerprint. */
  ghost predicate HasQuickTwin(tree: seq<Entry>, i: nat)
    requires i < |tree|
  {
    && tree[i].classified.kind != Link && tree[i].quick.Some?
    && exists j :: 0 <= j < |tree| && j != i && tree[j].classified.kind != Link && tree[j].size == tree[i].size
                   && tree[j].classified.extension == tree[i].classified.extension && tree[j].quick == tree[i].quick
  }

  lemma TwinIsPartner(cfg: Config, tree: seq<Entry>, i: nat)
    requires i < |tree|
    ensures HasQuickTwin(tree, i) <==> HasPartner(Opened(cfg, tree), IsFingerprinted, IsFingerprinted, QuickKind(), i)
  {
    var rs := Opened(cfg, tree);
    forall k | 0 <= k < |tree|
      ensures (IsFingerprinted(rs[k]) <==> tree[k].classified.kind != Link && tree[k].quick.Some?)
      ensures IsFingerprinted(rs[k]) ==>
                QuickKind()(rs[k]) == (tree[k].size, tree[k].classified.extension, tree[k].quick)
    {
      OpenedIsOpen(cfg, tree, k);
      FreshTechnical(tree[k]);
    }
    if HasQuickTwin(tree, i) {
      var j :| 0 <= j < |tree| && j != i && tree[j].classified.kind != Link && tree[j].size == tree[i].size
               && tree[j].classified.extension == tree[i].classified.extension && tree[j].quick == tree[i].quick;
      assert IsFingerprinted(rs[j]);
    }
    if HasPartner(rs, IsFingerprinted, IsFingerprinted, QuickKind(), i) {
      var j :| 0 <= j < |rs| && j != i && IsFingerprinted(rs[j]) && QuickKind()(rs[j]) == QuickKind()(rs[i]);
      assert IsFingerprinted(rs[i]) && tree[j].quick == tree[i].quick;
    }
  }

  /** The file has a quick twin, or is among the best of the eligible ones. */
  ghost predicate IsAsked(cfg: Config, tree: seq<Entry>, i: nat)
    requires i < |tree|
  {
    HasQuickTwin(tree, i) || i in Best(TwinsHashed(cfg, Opened(cfg, tree)), IsEligible, HashRank(cfg), Budget(cfg))
  }

  lemma HashedAt(cfg: Config, tree: seq<Entry>, i: nat)
    requires i < |tree|
    ensures var r, h := Opened(cfg, tree)[i], EligibleHashed(cfg, TwinsHashed(cfg, Opened(cfg, tree)))[i];
            h == r || h == Hashed(cfg, r) || h == Hashed(cfg, Hashed(cfg, r))
    ensures var r, h := Opened(cfg, tree)[i], EligibleHashed(cfg, TwinsHashed(cfg, Opened(cfg, tree)))[i];
            h != r ==> IsAsked(cfg, tree, i)
    ensures var r, h := Opened(cfg, tree)[i], EligibleHashed(cfg, TwinsHashed(cfg, Opened(cfg, tree)))[i];
            IsAsked(cfg, tree, i) ==> h == Hashed(cfg, r) || h == Hashed(cfg, Hashed(cfg, r))
  {
    TwinIsPartner(cfg, tree, i);
  }

  lemma ClassedAt(rs: seq<Record>, i: nat)
    requires i < |rs|
    ensures Classed(rs)[i] == rs[i].(duplicate := Classed(rs)[i].duplicate)
  {
  }

  /** The record that the analysis ends with, apart from its class. */
  lemma AnalyzedAt(cfg: Config, tree: seq<Entry>, i: nat)
    requires i < |tree|
    ensures var r, final := Opened(cfg, tree)[i], Analyzable(cfg, tree)[i];
            && (final.hash == HashComplete <==> IsAsked(cfg, tree, i) && WouldComplete(cfg, r))
            && (final.hash == HashComplete ==>
                  final == r.(hash := HashComplete, sha := Some(cfg.digest(r.key).value), duplicate := final.duplicate))
  {
    var r := Opened(cfg, tree)[i];
    OpenedIsOpen(cfg, tree, i);
    RequestCompletesIff(cfg, r);
    HashedAt(cfg, tree, i);
    ClassedAt(EligibleHashed(cfg, TwinsHashed(cfg, Opened(cfg, tree))), i);
  }

  /**
   Just which files have a complete hash after a first run: those that can be
   hashed, within the size limit and readable, if they have a quick twin or are
   among the best of the eligible files; and the hash is their digest.
   */
  lemma HashIsCompleteIff(cfg: Config, tree: seq<Entry>, i: nat)
    requires i < |tree|
    ensures var final, e := Analyzable(cfg, tree)[i], tree[i];
            && (final.hash == HashComplete <==>
                  && IsAsked(cfg, tree, i) && IsHashCandidate(cfg, tree, i)
                  && e.size <= AtLeastOne(cfg.maxHashBytes) && cfg.digest(e.key).Sha?)
            && (final.hash == HashComplete ==> cfg.digest(e.key).Sha? && final.sha == Some(cfg.digest(e.key).value))
  {
    OpenedIsOpen(cfg, tree, i);
    AnalyzedAt(cfg, tree, i);
  }

  /** Another file has the same size and extension. */
  ghost predicate HasSizeTwin(tree: seq<Entry>, i: nat)
    requires i < |tree|
  {
    && tree[i].classified.kind != Link
    && exists j :: 0 <= j < |tree| && j != i && tree[j].classified.kind != Link && tree[j].size == tree[i].size
                   && tree[j].classified.extension == tree[i].classified.extension
  }

  lemma SizeTwinIsPartner(cfg: Config, tree: seq<Entry>, i: nat)
    requires i < |tree|
    ensures HasSizeTwin(tree, i) <==> HasPartner(ResetAll(Marked(cfg, tree)), IsFile, IsFile, SizeKind(), i)
  {
    var rs := ResetAll(Marked(cfg, tree));
    forall k | 0 <= k < |tree|
      ensures (IsFile(rs[k]) <==> tree[k].classified.kind != Link)
      ensures SizeKind()(rs[k]) == (tree[k].size, tree[k].classified.extension)
    {
      MarkedIsOpen(cfg, tree, k);
      ResetStaysOpen(cfg, tree, k, Marked(cfg, tree)[k]);
    }
    if HasSizeTwin(tree, i) {
      var j :| 0 <= j < |tree| && j != i && tree[j].classified.kind != Link && tree[j].size == tree[i].size
               && tree[j].classified.extension == tree[i].classified.extension;
      assert IsFile(rs[j]);
    }
    if HasPartner(rs, IsFile, IsFile, SizeKind(), i) {
      var j :| 0 <= j < |rs| && j != i && IsFile(rs[j]) && SizeKind()(rs[j]) == SizeKind()(rs[i]);
      assert IsFile(rs[i]);
    }
  }

  lemma RequestKeepsBucket(cfg: Config, r: Record)
    ensures Hashed(cfg, r).bucketed == r.bucketed
  {
  }

  /** A file ends in a size bucket just when it shares size and extension with another. */
  lemma BucketIff(cfg: Config, tree: seq<Entry>, i: nat)
    requires i < |tree|
    ensures Analyzable(cfg, tree)[i].bucketed <==> HasSizeTwin(tree, i)
  {
    var r := Opened(cfg, tree)[i];
    SizeTwinIsPartner(cfg, tree, i);
    MarkedIsOpen(cfg, tree, i);
    HashedAt(cfg, tree, i);
    RequestKeepsBucket(cfg, r);
    RequestKeepsBucket(cfg, Hashed(cfg, r));
    ClassedAt(EligibleHashed(cfg, TwinsHashed(cfg, Opened(cfg, tree))), i);
  }

  // ----- who is ready -----

  /** What the file itself must be to go into the first batch. */
  ghost predicate IsSuitable(cfg: Config, tree: seq<Entry>, i: nat)
    requires i < |tree|
  {
    var e := tree[i];
    && IsProbed(e) && !IsCopy(cfg, tree, i) && !e.classified.ocrFragment && e.probe.metadataReady
    && (e.classified.extension == ".pdf" ==> e.probe.textLayer)
  }

  /** A file is ready just when it is suitable, hashed, and no duplicate of another. */
  lemma ReadyIff(cfg: Config, tree: seq<Entry>, i: nat)
    requires i < |tree|
    ensures var final := Analyzable(cfg, tree)[i];
            IsReady(final) <==> IsSuitable(cfg, tree, i) && final.hash == HashComplete && final.duplicate == NoDuplicate
  {
    FreshTechnical(tree[i]);
    OpenedIsOpen(cfg, tree, i);
    AnalyzedAt(cfg, tree, i);
  }

  /** A file is offered for review just when it is a supported document of no special kind and not ready. */
  lemma ReviewIff(cfg: Config, tree: seq<Entry>, i: nat)
    requires i < |tree|
    ensures var final, c := Analyzable(cfg, tree)[i], tree[i].classified;
            NeedsReview(final) <==>
              && c.kind == Document && c.supported && !c.private && !c.repository && !c.projectDocument
              && !c.derivative && !IsCopy(cfg, tree, i) && !IsReady(final)
  {
    ClassesEnd(cfg, tree, i);
    MarkedClass(cfg, tree, i);
    AnalysisKeepsFiles(cfg, Marked(cfg, tree));
  }

  /** The selection status that a file ends with. */
  lemma StatusIs(cfg: Config, tree: seq<Entry>, i: nat)
    requires i < |tree|
    ensures var chosen, c := Catalogued(cfg, FreshRecords(tree)), tree[i].classified;
            chosen.records[i].selection ==
              if i in chosen.ready then Candidate
              else if IsReady(Analyzable(cfg, tree)[i]) then NotSelected
              else if c.private then UnderPrivacyReview
              else if c.repository || c.projectDocument || c.derivative || IsCopy(cfg, tree, i) then Excluded
              else if c.supported && c.kind == Document then Candidate
              else Excluded
  {
    ClassesEnd(cfg, tree, i);
    MarkedClass(cfg, tree, i);
    AnalysisKeepsFiles(cfg, Marked(cfg, tree));
  }

  /** A small catalog: every eligible file is asked for its hash, and every suitable one within the limits is ready or a duplicate. */
  lemma SmallCatalogsAreHashed(cfg: Config, tree: seq<Entry>, i: nat)
    requires i < |tree| <= Budget(cfg) && IsSuitable(cfg, tree, i)
    requires tree[i].size <= AtLeastOne(cfg.maxHashBytes) && cfg.digest(tree[i].key).Sha?
    ensures Analyzable(cfg, tree)[i].hash == HashComplete
    ensures IsReady(Analyzable(cfg, tree)[i]) <==> Analyzable(cfg, tree)[i].duplicate == NoDuplicate
  {
    var twins := TwinsHashed(cfg, Opened(cfg, tree));
    OpenedIsOpen(cfg, tree, i);
    RequestCompletesIff(cfg, Opened(cfg, tree)[i]);
    assert IsEligible(twins[i]);
    EveryoneIsBest(twins, IsEligible, HashRank(cfg), Budget(cfg), i);
    HashIsCompleteIff(cfg, tree, i);
    ReadyIff(cfg, tree, i);
  }

  lemma {:induction false} PositionsBounded(rs: seq<Record>, test: Record -> bool)
    ensures |Positions(rs, test)| <= |rs|
  {
    if rs != [] {
      PositionsBounded(rs[..|rs| - 1], test);
    }
  }

  lemma EveryoneIsBest(rs: seq<Record>, test: Record -> bool, rank: Record -> int, limit: nat, i: nat)
    requires |rs| <= limit && i < |rs| && test(rs[i])
    ensures i in Best(rs, test, rank, limit)
  {
    var positions := Positions(rs, test);
    PositionsBounded(rs, test);
    SortByKeeps(RankAt(rs, rank), positions);
    assert i in positions && i in multiset(positions);
    assert Best(rs, test, rank, limit) == SortBy(RankAt(rs, rank), positions);
    assert i in multiset(SortBy(RankAt(rs, rank), positions));
  }
}
