/**
 With distinct sort keys, the result of a catalog run does not depend on the order
 in which the records are listed either.
 */
module CatalogOrder {
  import opened Catalog
  import opened CatalogStages
  import opened CatalogDuplicates
  import opened CatalogSelection
  import opened CatalogRun

  /** No two records have the same sort key, in either order. */
  ghost predicate SortKeysDiffer(cfg: Config, rs: seq<Record>) {
    forall i, j :: 0 <= i < j < |rs| ==>
      HashRank(cfg)(rs[i]) != HashRank(cfg)(rs[j]) && CandidateRank(cfg)(rs[i]) != CandidateRank(cfg)(rs[j])
  }

  /** Equal in what the sort keys are made of. */
  ghost predicate SameSortKeys(before: seq<Record>, after: seq<Record>) {
    |before| == |after|
    && forall i :: 0 <= i < |before| ==>
      && before[i].key == after[i].key && before[i].size == after[i].size && before[i].metadata == after[i].metadata
      && before[i].classified.kind == after[i].classified.kind
  }

  lemma SortKeysKept(cfg: Config, before: seq<Record>, after: seq<Record>)
    requires SortKeysDiffer(cfg, before) && SameSortKeys(before, after)
    ensures SortKeysDiffer(cfg, after)
  {
    forall i | 0 <= i < |after|
      ensures HashRank(cfg)(after[i]) == HashRank(cfg)(before[i]) && CandidateRank(cfg)(after[i]) == CandidateRank(cfg)(before[i])
    {
    }
  }

  lemma DerivativesAgree(cfg: Config, a: seq<Record>, b: seq<Record>)
    requires Agree(a, b)
    ensures Agree(WithDerivatives(cfg, a), WithDerivatives(cfg, b))
  {
    ChangedAgree(a, b, IsTextCopy, IsPdf, StemKind(cfg), AsDerivative());
  }

  lemma BucketsAgree(a: seq<Record>, b: seq<Record>)
    requires Agree(a, b)
    ensures Agree(Bucketed(a), Bucketed(b))
  {
    StageAgrees(a, b, ResetAll(a), ResetAll(b));
    ChangedAgree(ResetAll(a), ResetAll(b), IsFile, IsFile, SizeKind(), AsBucketed());
  }

  lemma TwinsAgree(cfg: Config, a: seq<Record>, b: seq<Record>)
    requires Agree(a, b)
    ensures Agree(TwinsHashed(cfg, a), TwinsHashed(cfg, b))
  {
    HashingIsTimeless(cfg);
    ChangedAgree(a, b, IsFingerprinted, IsFingerprinted, QuickKind(), AsHashed(cfg));
  }

  lemma EligibleAgree(cfg: Config, a: seq<Record>, b: seq<Record>)
    requires Agree(a, b) && SortKeysDiffer(cfg, a) && SortKeysDiffer(cfg, b)
    ensures Agree(EligibleHashed(cfg, a), EligibleHashed(cfg, b))
  {
    HashingIsTimeless(cfg);
    BestChangedAgree(a, b, IsEligible, HashRank(cfg), Budget(cfg), AsHashed(cfg));
  }

  lemma ClassesAgree(a: seq<Record>, b: seq<Record>)
    requires Agree(a, b)
    ensures Agree(Classed(a), Classed(b))
  {
    ChangedAgree(a, b, IsHashed, IsHashed, ShaKind(), AsExact());
    var exactA := Changed(a, IsHashed, IsHashed, ShaKind(), AsExact());
    var exactB := Changed(b, IsHashed, IsHashed, ShaKind(), AsExact());
    ChangedAgree(exactA, exactB, IsFingerprinted, IsFingerprinted, QuickKind(), AsPossible());
  }

  lemma BucketsKeepSortKeys(rs: seq<Record>)
    ensures SameSortKeys(rs, Bucketed(rs))
  {
    forall i | 0 <= i < |rs| ensures Bucketed(rs)[i] == Reset(rs[i]).(bucketed := Bucketed(rs)[i].bucketed) {
      BucketedAt(rs, i);
    }
  }

  lemma TwinsKeepSortKeys(cfg: Config, rs: seq<Record>)
    ensures SameSortKeys(rs, TwinsHashed(cfg, rs))
  {
    ChangedKeepsFiles(rs, IsFingerprinted, QuickKind(), AsHashed(cfg));
  }

  lemma AnalysisAgrees(cfg: Config, a: seq<Record>, b: seq<Record>)
    requires Agree(a, b) && SortKeysDiffer(cfg, a) && SortKeysDiffer(cfg, b)
    ensures Agree(Analysis(cfg, a), Analysis(cfg, b))
  {
    BucketsAgree(a, b);
    BucketsKeepSortKeys(a);
    BucketsKeepSortKeys(b);
    SortKeysKept(cfg, a, Bucketed(a));
    SortKeysKept(cfg, b, Bucketed(b));
    HashedAgree(cfg, Bucketed(a), Bucketed(b));
    ClassesAgree(EligibleHashed(cfg, TwinsHashed(cfg, Bucketed(a))), EligibleHashed(cfg, TwinsHashed(cfg, Bucketed(b))));
  }

  lemma HashedAgree(cfg: Config, a: seq<Record>, b: seq<Record>)
    requires Agree(a, b) && SortKeysDiffer(cfg, a) && SortKeysDiffer(cfg, b)
    ensures Agree(EligibleHashed(cfg, TwinsHashed(cfg, a)), EligibleHashed(cfg, TwinsHashed(cfg, b)))
  {
    TwinsAgree(cfg, a, b);
    TwinsKeepSortKeys(cfg, a);
    TwinsKeepSortKeys(cfg, b);
    SortKeysKept(cfg, a, TwinsHashed(cfg, a));
    SortKeysKept(cfg, b, TwinsHashed(cfg, b));
    EligibleAgree(cfg, TwinsHashed(cfg, a), TwinsHashed(cfg, b));
  }

  // ----- the selection -----

  /** The keys of the chosen records. */
  ghost function ChosenKeys(rs: seq<Record>, test: Record -> bool, rank: Record -> int, limit: nat): set<Key> {
    set i | 0 <= i < |rs| && i in Best(rs, test, rank, limit) :: rs[i].key
  }

  lemma ChosenKeysContained(a: seq<Record>, b: seq<Record>, test: Record -> bool, rank: Record -> int, limit: nat)
    requires Agree(a, b) && Timeless(test) && Timeless(rank) && RanksDiffer(a, test, rank)
    ensures ChosenKeys(a, test, rank, limit) <= ChosenKeys(b, test, rank, limit)
  {
    forall key | key in ChosenKeys(a, test, rank, limit) ensures key in ChosenKeys(b, test, rank, limit) {
      var i :| 0 <= i < |a| && i in Best(a, test, rank, limit) && a[i].key == key;
      assert Has(b, a[i]);
      var j :| 0 <= j < |b| && SameRecord(b[j], a[i]);
      ChosenAgree(a, b, test, rank, limit, i, j);
    }
  }

  lemma ChosenKeysAgree(a: seq<Record>, b: seq<Record>, test: Record -> bool, rank: Record -> int, limit: nat)
    requires Agree(a, b) && Timeless(test) && Timeless(rank) && RanksDiffer(a, test, rank) && RanksDiffer(b, test, rank)
    ensures ChosenKeys(a, test, rank, limit) == ChosenKeys(b, test, rank, limit)
    ensures |Best(a, test, rank, limit)| == |Best(b, test, rank, limit)|
  {
    ChosenKeysContained(a, b, test, rank, limit);
    AgreeIsSymmetric(a, b);
    ChosenKeysContained(b, a, test, rank, limit);
    SameNumberPasses(a, b, test);
    BestIsBest(a, test, rank, limit);
    BestIsBest(b, test, rank, limit);
  }

  lemma ReadyAgree(cfg: Config, a: seq<Record>, b: seq<Record>)
    requires Agree(a, b) && SortKeysDiffer(cfg, a) && SortKeysDiffer(cfg, b)
    ensures ChosenKeys(a, IsReady, CandidateRank(cfg), Limit(cfg)) == ChosenKeys(b, IsReady, CandidateRank(cfg), Limit(cfg))
    ensures |ReadyOf(cfg, a)| == |ReadyOf(cfg, b)|
  {
    ChosenKeysAgree(a, b, IsReady, CandidateRank(cfg), Limit(cfg));
  }

  lemma ReviewAgree(cfg: Config, a: seq<Record>, b: seq<Record>, limit: nat)
    requires Agree(a, b) && SortKeysDiffer(cfg, a) && SortKeysDiffer(cfg, b)
    ensures ChosenKeys(a, NeedsReview, CandidateRank(cfg), limit) == ChosenKeys(b, NeedsReview, CandidateRank(cfg), limit)
  {
    ChosenKeysAgree(a, b, NeedsReview, CandidateRank(cfg), limit);
  }

  /** The records as the selection finds them. */
  ghost function Analyzable(cfg: Config, scanned: seq<Record>): seq<Record> {
    Analysis(cfg, WithDerivatives(cfg, scanned))
  }

  /**
   Two listings of the same scan, in any orders and whatever their change states:
   every file has the same record and class, and the same files are chosen.
   */
  lemma OrderIsInvisible(cfg: Config, a: seq<Record>, b: seq<Record>)
    requires Agree(a, b) && SortKeysDiffer(cfg, a) && SortKeysDiffer(cfg, b)
    ensures var x, y, rank := Analyzable(cfg, a), Analyzable(cfg, b), CandidateRank(cfg);
            && Agree(x, y)
            && ChosenKeys(x, IsReady, rank, Limit(cfg)) == ChosenKeys(y, IsReady, rank, Limit(cfg))
            && |ReadyOf(cfg, x)| == |ReadyOf(cfg, y)|
            && ChosenKeys(x, NeedsReview, rank, Limit(cfg) - |ReadyOf(cfg, x)|)
               == ChosenKeys(y, NeedsReview, rank, Limit(cfg) - |ReadyOf(cfg, x)|)
  {
    DerivativesAgree(cfg, a, b);
    DerivativesKeepSortKeys(cfg, a);
    DerivativesKeepSortKeys(cfg, b);
    SortKeysKept(cfg, a, WithDerivatives(cfg, a));
    SortKeysKept(cfg, b, WithDerivatives(cfg, b));
    AnalysisAgrees(cfg, WithDerivatives(cfg, a), WithDerivatives(cfg, b));
    AnalysisKeepsSortKeys(cfg, WithDerivatives(cfg, a));
    AnalysisKeepsSortKeys(cfg, WithDerivatives(cfg, b));
    ReadyAgree(cfg, Analyzable(cfg, a), Analyzable(cfg, b));
    ReviewAgree(cfg, Analyzable(cfg, a), Analyzable(cfg, b), Limit(cfg) - |ReadyOf(cfg, Analyzable(cfg, a))|);
  }

  lemma DerivativesKeepSortKeys(cfg: Config, rs: seq<Record>)
    ensures SameSortKeys(rs, WithDerivatives(cfg, rs))
  {
  }

  lemma AnalysisKeepsSortKeys(cfg: Config, rs: seq<Record>)
    requires SortKeysDiffer(cfg, rs)
    ensures SortKeysDiffer(cfg, Analysis(cfg, rs))
  {
    AnalysisKeepsFiles(cfg, rs);
    SortKeysKept(cfg, rs, Analysis(cfg, rs));
  }
}
