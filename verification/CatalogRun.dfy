/**
 A whole first catalog run: scan, derivatives, duplicate classes and candidates.
 However often the scan was interrupted, the result is that of one uninterrupted run.
 */
module CatalogRun {
  import opened Wrappers
  import opened Catalog
  import opened CatalogStages
  import opened CatalogDuplicates
  import opened CatalogSelection

  /** Reference definition: what the stages after the scan make of its records. */
  ghost function Catalogued(cfg: Config, scanned: seq<Record>): Choice {
    Choose(cfg, Analysis(cfg, WithDerivatives(cfg, scanned)))
  }

  /** The stages after the scan, in the order of the source. */
  method Complete(cfg: Config, scanned: seq<Record>) returns (c: Choice)
    ensures c == Catalogued(cfg, scanned)
  {
    var analysis := new CatalogAnalysis(cfg, scanned);
    analysis.MarkDerivatives();
    analysis.AnalyzeDuplicates();
    var selection := new CandidateSelection(cfg, analysis.records);
    var ready, review := selection.SelectCandidates();
    c := Choice(selection.records, ready, review);
  }

  // ----- the change state is invisible -----

  ghost predicate SameChoice(a: Choice, b: Choice) {
    SameRecords(a.records, b.records) && a.ready == b.ready && a.review == b.review
  }

  lemma DerivativesSame(cfg: Config, a: seq<Record>, b: seq<Record>)
    requires SameRecords(a, b)
    ensures SameRecords(WithDerivatives(cfg, a), WithDerivatives(cfg, b))
  {
    ChangedSame(a, b, IsTextCopy, IsPdf, StemKind(cfg), AsDerivative());
  }

  lemma BucketsSame(a: seq<Record>, b: seq<Record>)
    requires SameRecords(a, b)
    ensures SameRecords(Bucketed(a), Bucketed(b))
  {
    ChangedSame(ResetAll(a), ResetAll(b), IsFile, IsFile, SizeKind(), AsBucketed());
  }

  lemma HashedSame(cfg: Config, r: Record, s: Record)
    requires SameRecord(r, s)
    ensures SameRecord(Hashed(cfg, r), Hashed(cfg, s))
  {
    assert r == s.(change := r.change);
  }

  lemma HashingIsTimeless(cfg: Config)
    ensures TimelessChange(AsHashed(cfg))
  {
    forall r, s | SameRecord(r, s) ensures SameRecord(AsHashed(cfg)(r), AsHashed(cfg)(s)) {
      HashedSame(cfg, r, s);
    }
  }

  lemma TwinsSame(cfg: Config, a: seq<Record>, b: seq<Record>)
    requires SameRecords(a, b)
    ensures SameRecords(TwinsHashed(cfg, a), TwinsHashed(cfg, b))
  {
    HashingIsTimeless(cfg);
    ChangedSame(a, b, IsFingerprinted, IsFingerprinted, QuickKind(), AsHashed(cfg));
  }

  lemma EligibleSame(cfg: Config, a: seq<Record>, b: seq<Record>)
    requires SameRecords(a, b)
    ensures SameRecords(EligibleHashed(cfg, a), EligibleHashed(cfg, b))
  {
    HashingIsTimeless(cfg);
    BestChangedSame(a, b, IsEligible, HashRank(cfg), Budget(cfg), AsHashed(cfg));
  }

  lemma ClassesSame(a: seq<Record>, b: seq<Record>)
    requires SameRecords(a, b)
    ensures SameRecords(Classed(a), Classed(b))
  {
    ChangedSame(a, b, IsHashed, IsHashed, ShaKind(), AsExact());
    var exactA := Changed(a, IsHashed, IsHashed, ShaKind(), AsExact());
    var exactB := Changed(b, IsHashed, IsHashed, ShaKind(), AsExact());
    ChangedSame(exactA, exactB, IsFingerprinted, IsFingerprinted, QuickKind(), AsPossible());
  }

  lemma AnalysisSame(cfg: Config, a: seq<Record>, b: seq<Record>)
    requires SameRecords(a, b)
    ensures SameRecords(Analysis(cfg, a), Analysis(cfg, b))
  {
    BucketsSame(a, b);
    TwinsSame(cfg, Bucketed(a), Bucketed(b));
    EligibleSame(cfg, TwinsHashed(cfg, Bucketed(a)), TwinsHashed(cfg, Bucketed(b)));
    ClassesSame(EligibleHashed(cfg, TwinsHashed(cfg, Bucketed(a))), EligibleHashed(cfg, TwinsHashed(cfg, Bucketed(b))));
  }

  lemma ReadySame(cfg: Config, a: seq<Record>, b: seq<Record>)
    requires SameRecords(a, b)
    ensures ReadyOf(cfg, a) == ReadyOf(cfg, b)
  {
    BestSame(a, b, IsReady, CandidateRank(cfg), Limit(cfg));
  }

  lemma ReviewSame(cfg: Config, a: seq<Record>, b: seq<Record>, limit: nat)
    requires SameRecords(a, b)
    ensures ReviewOf(cfg, a, limit) == ReviewOf(cfg, b, limit)
  {
    BestSame(a, b, NeedsReview, CandidateRank(cfg), limit);
  }

  lemma StatusSame(a: seq<Record>, b: seq<Record>, ready: seq<nat>)
    requires SameRecords(a, b)
    ensures SameRecords(WithStatus(a, ready), WithStatus(b, ready))
  {
  }

  lemma ChoiceSame(cfg: Config, a: seq<Record>, b: seq<Record>)
    requires SameRecords(a, b)
    ensures SameChoice(Choose(cfg, a), Choose(cfg, b))
  {
    ReadySame(cfg, a, b);
    ReviewSame(cfg, a, b, Limit(cfg) - |ReadyOf(cfg, a)|);
    StatusSame(a, b, ReadyOf(cfg, a));
  }

  /** Scans that agree up to change states lead to the same classes and the same candidates. */
  lemma ChangeStateIsInvisible(cfg: Config, a: seq<Record>, b: seq<Record>)
    requires SameRecords(a, b)
    ensures SameChoice(Catalogued(cfg, a), Catalogued(cfg, b))
  {
    DerivativesSame(cfg, a, b);
    AnalysisSame(cfg, WithDerivatives(cfg, a), WithDerivatives(cfg, b));
    ChoiceSame(cfg, Analysis(cfg, WithDerivatives(cfg, a)), Analysis(cfg, WithDerivatives(cfg, b)));
  }

  // ----- interruption is invisible -----

  /**
   A first run that may be interrupted again.  A run that completes ends with the
   records, classes and candidates of one uninterrupted first run.
   */
  method Run(scanner: CatalogScanner, cfg: Config, stopAfter: Option<nat>) returns (done: Option<Choice>)
    requires scanner.Valid()
    modifies scanner
    ensures scanner.Valid() && (stopAfter.None? ==> done.Some?)
    ensures done.Some? ==> SameChoice(done.value, Catalogued(cfg, FreshRecords(scanner.tree)))
  {
    var scanned := scanner.Scan(stopAfter);
    if scanned.None? {
      return None;
    }
    ChangeStateIsInvisible(cfg, scanned.value, FreshRecords(scanner.tree));
    var c := Complete(cfg, scanned.value);
    return Some(c);
  }

  /** A run that is asked to stop after some files, or a crash that leaves some rows of the progress file. */
  datatype Disturbance = Stopped(after: nat) | Crashed(kept: nat)

  /** Any history of stops and crashes, and then the run that completes. */
  method RunThrough(tree: seq<Entry>, cfg: Config, history: seq<Disturbance>) returns (c: Choice)
    requires DistinctKeys(tree)
    ensures SameChoice(c, Catalogued(cfg, FreshRecords(tree)))
  {
    var scanner := new CatalogScanner(tree);
    for i := 0 to |history|
      invariant scanner.Valid() && fresh(scanner) && scanner.tree == tree
    {
      match history[i]
      case Crashed(kept) => scanner.Crash(Min(kept, |scanner.partialRows|));
      case Stopped(after) =>
        var done := Run(scanner, cfg, Some(after));
        if done.Some? {
          return done.value;
        }
    }
    var done := Run(scanner, cfg, None);
    return done.value;
  }

  /** Whatever happened before they completed, two runs end with the same records, classes and candidates. */
  method InterruptionIsInvisible(tree: seq<Entry>, cfg: Config, first: seq<Disturbance>, second: seq<Disturbance>)
    returns (a: Choice, b: Choice)
    requires DistinctKeys(tree)
    ensures SameChoice(a, b)
    ensures |a.records| == |tree| && forall i :: 0 <= i < |tree| ==>
              a.records[i].key == b.records[i].key == tree[i].key && a.records[i].duplicate == b.records[i].duplicate
  {
    a := RunThrough(tree, cfg, first);
    b := RunThrough(tree, cfg, second);
    CataloguedKeepsKeys(cfg, FreshRecords(tree));
  }

  lemma CataloguedKeepsKeys(cfg: Config, rs: seq<Record>)
    ensures |Catalogued(cfg, rs).records| == |rs|
    ensures forall i :: 0 <= i < |rs| ==> Catalogued(cfg, rs).records[i].key == rs[i].key
  {
    AnalysisKeepsFiles(cfg, WithDerivatives(cfg, rs));
  }

  /** On the records of a first scan the classes are exact, and the ready candidates differ in content. */
  lemma FirstRunIsSound(cfg: Config, tree: seq<Entry>)
    ensures var analyzed := Analysis(cfg, WithDerivatives(cfg, FreshRecords(tree)));
            && Analyzed(analyzed) && AllStored(analyzed) && TwinsDecided(analyzed)
            && forall i, j :: i in ReadyOf(cfg, analyzed) && j in ReadyOf(cfg, analyzed) && i != j ==>
                 i < |tree| && j < |tree| && analyzed[i].sha != analyzed[j].sha
  {
    var marked := WithDerivatives(cfg, FreshRecords(tree));
    FreshHashesOpen(tree);
    AnalysisClassifies(cfg, marked);
    AnalysisKeepsStored(cfg, marked);
    AnalysisDecidesTwins(cfg, marked);
    ReadyAreBest(cfg, Analysis(cfg, marked));
  }

  lemma FreshHashesOpen(tree: seq<Entry>)
    ensures forall i :: 0 <= i < |tree| ==> FreshRecords(tree)[i].hash != HashComplete
  {
    forall i | 0 <= i < |tree| ensures Fresh(tree[i]).hash != HashComplete {
    }
  }
}
