/**
 Derivative marking and duplicate classes over the records of a completed scan:
 the methods that change the records, and the function of the records they compute.
 */
module CatalogDuplicates {
  import opened Wrappers
  import opened Grouping
  import opened Catalog
  import opened CatalogStages

  datatype Digest = Sha(value: nat) | Unreadable | ChangedMeanwhile

  /**
   The limits of a run, the file system's answers, and the two sort keys: size,
   alias and path for hashing; kind, metadata, size, alias and path for candidates.
   `stem` numbers the directory and normalized stem of a path.
   */
  datatype Config = Config(candidateLimit: nat, maxHashBytes: nat, digest: Key -> Digest, stem: Key -> int,
                           hashOrder: (nat, Key) -> int, candidateOrder: (bool, bool, nat, Key) -> int)

  function AtLeastOne(n: nat): nat {
    if n == 0 then 1 else n
  }

  // ----- derivatives -----

  predicate IsTextCopy(r: Record) {
    r.present && r.classified.extension in {".txt", ".md", ".html", ".htm"}
  }

  predicate IsPdf(r: Record) {
    r.present && r.classified.extension == ".pdf"
  }

  function StemKind(cfg: Config): Record -> int {
    (r: Record) => cfg.stem(r.key)
  }

  function AsDerivative(): Record -> Record {
    (r: Record) => r.(classified := r.classified.(derivative := true),
                      technical := if r.technical in {ReadyForManifest, NeedsMetadata} then GeneratedDerivative else r.technical)
  }

  /** Text files beside a PDF of the same stem are its derivatives. */
  ghost function WithDerivatives(cfg: Config, rs: seq<Record>): (r: seq<Record>)
    ensures |r| == |rs|
  {
    Changed(rs, IsTextCopy, IsPdf, StemKind(cfg), AsDerivative())
  }

  // ----- hashing -----

  predicate IsHashable(t: Technical) {
    t !in {PrivacyReview, UnsupportedFormat, MediaDeferred, SoftwareOrCache, Corrupt, Encrypted, ChangedDuringScan,
           GeneratedDerivative}
  }

  /** The record after a request to hash the file. */
  function Hashed(cfg: Config, r: Record): Record {
    if !r.present || r.hash == HashComplete then r
    else if !IsHashable(r.technical) then r.(hash := NotRequested)
    else if r.size > AtLeastOne(cfg.maxHashBytes) then
      r.(hash := HashDeferred,
         technical := if r.technical in {ReadyForManifest, NeedsMetadata, Unprobed} then HashingDeferred else r.technical)
    else match cfg.digest(r.key)
      case Unreadable => r.(hash := HashUnavailable, technical := Corrupt)
      case ChangedMeanwhile => r.(technical := ChangedDuringScan, hash := HashUnstable, sha := None)
      case Sha(value) => r.(sha := Some(value), hash := HashComplete)
  }

  /** A complete hash is there to be compared. */
  predicate HashIsStored(r: Record) {
    r.hash == HashComplete ==> r.sha.Some?
  }

  predicate AllStored(rs: seq<Record>) {
    forall i :: 0 <= i < |rs| ==> HashIsStored(rs[i])
  }

  // ----- the stages of the analysis -----

  predicate IsHashed(r: Record) {
    r.present && r.hash == HashComplete && r.sha.Some?
  }

  predicate IsFile(r: Record) {
    r.present && r.classified.kind != Link
  }

  predicate IsFingerprinted(r: Record) {
    IsFile(r) && r.quick.Some?
  }

  predicate IsEligible(r: Record) {
    r.present && r.technical in {ReadyForManifest, NeedsMetadata, Unprobed}
    && !r.classified.private && !r.classified.derivative && !r.classified.repository
  }

  function Budget(cfg: Config): nat {
    if AtLeastOne(cfg.candidateLimit) * 4 < 2000 then 2000 else AtLeastOne(cfg.candidateLimit) * 4
  }

  function HashRank(cfg: Config): Record -> int {
    (r: Record) => cfg.hashOrder(r.size, r.key)
  }

  type QuickTriple = (nat, string, Option<nat>)

  function SizeKind(): Record -> (nat, string) {
    (r: Record) => (r.size, r.classified.extension)
  }

  function QuickKind(): Record -> QuickTriple {
    (r: Record) => (r.size, r.classified.extension, r.quick)
  }

  function ShaKind(): Record -> Option<nat> {
    (r: Record) => r.sha
  }

  /** Clears the classes of a previous scan. */
  function Reset(r: Record): Record {
    if !r.present then r else
    var technical :=
      if r.technical != LegacyDuplicate then r.technical
      else if r.probe == ProbeOk then
        if r.metadata == Partial || r.metadata == Bibliographic then ReadyForManifest else NeedsMetadata
      else if r.probe == ProbePending || r.probe == ProbeUnavailable then NeedsExtraction
      else r.technical;
    r.(technical := technical, duplicate := NoDuplicate, bucketed := false)
  }

  function ResetAll(rs: seq<Record>): (r: seq<Record>)
    ensures |r| == |rs|
  {
    seq(|rs|, i requires 0 <= i < |rs| => Reset(rs[i]))
  }

  function AsBucketed(): Record -> Record {
    (r: Record) => r.(bucketed := true)
  }

  function AsHashed(cfg: Config): Record -> Record {
    (r: Record) => Hashed(cfg, r)
  }

  function AsExact(): Record -> Record {
    (r: Record) => r.(duplicate := ExactDuplicate)
  }

  function AsPossible(): Record -> Record {
    (r: Record) => if !IsHashed(r) && r.duplicate == NoDuplicate then r.(duplicate := PossibleDuplicate) else r
  }

  ghost function Bucketed(rs: seq<Record>): (r: seq<Record>)
    ensures |r| == |rs|
  {
    Changed(ResetAll(rs), IsFile, IsFile, SizeKind(), AsBucketed())
  }

  /** Every quick twin is hashed. */
  ghost function TwinsHashed(cfg: Config, rs: seq<Record>): (r: seq<Record>)
    ensures |r| == |rs|
  {
    Changed(rs, IsFingerprinted, IsFingerprinted, QuickKind(), AsHashed(cfg))
  }

  /** The smallest eligible records are hashed, up to the budget. */
  function EligibleHashed(cfg: Config, rs: seq<Record>): (r: seq<Record>)
    ensures |r| == |rs|
  {
    BestChanged(rs, IsEligible, HashRank(cfg), Budget(cfg), AsHashed(cfg))
  }

  ghost function Classed(rs: seq<Record>): (r: seq<Record>)
    ensures |r| == |rs|
  {
    Changed(Changed(rs, IsHashed, IsHashed, ShaKind(), AsExact()), IsFingerprinted, IsFingerprinted, QuickKind(), AsPossible())
  }

  /** Reference definition: what the duplicate analysis makes of the records. */
  ghost function Analysis(cfg: Config, rs: seq<Record>): (r: seq<Record>)
    ensures |r| == |rs|
  {
    Classed(EligibleHashed(cfg, TwinsHashed(cfg, Bucketed(rs))))
  }

  // ----- the methods -----

  /** Changes every member of a group of two or more. */
  method ChangeTwins<K(==,!new)>(rs: seq<Record>, member: Record -> bool, kind: Record -> K, change: Record -> Record)
    returns (changed: seq<Record>)
    ensures changed == Changed(rs, member, member, kind, change)
  {
    var members := Positions(rs, member);
    var crowded := Crowded(members, KindAt(rs, kind));
    forall i | 0 <= i < |rs| ensures i in crowded <==> HasPartner(rs, member, member, kind, i) {
      TwinIff(rs, member, kind, members, i);
    }
    forall k | 0 <= k < |crowded| ensures crowded[k] < |rs| {
      assert crowded[k] in crowded && crowded[k] in members;
    }
    changed := ChangeAll(rs, crowded, change);
  }

  function KindAt<K>(rs: seq<Record>, kind: Record -> K): nat -> Option<K> {
    (i: nat) => if i < |rs| then Some(kind(rs[i])) else None
  }

  lemma TwinIff<K(!new)>(rs: seq<Record>, member: Record -> bool, kind: Record -> K, members: seq<nat>, i: nat)
    requires i < |rs| && Passing(rs, member, members)
    ensures HasPartner(rs, member, member, kind, i) <==> i in members && HasTwin(KindAt(rs, kind), members, i)
  {
    if HasPartner(rs, member, member, kind, i) {
      var j :| 0 <= j < |rs| && j != i && member(rs[j]) && kind(rs[j]) == kind(rs[i]);
      assert j in members && KindAt(rs, kind)(j) == KindAt(rs, kind)(i);
    }
    if i in members && HasTwin(KindAt(rs, kind), members, i) {
      var j :| j in members && j != i && KindAt(rs, kind)(j) == KindAt(rs, kind)(i);
      assert member(rs[j]);
    }
  }

  /** Applies a change to the records at these positions. */
  method ChangeAll(rs: seq<Record>, positions: seq<nat>, change: Record -> Record) returns (changed: seq<Record>)
    requires Distinct(positions) && forall k :: 0 <= k < |positions| ==> positions[k] < |rs|
    ensures |changed| == |rs|
    ensures forall i :: 0 <= i < |rs| ==> changed[i] == if i in positions then change(rs[i]) else rs[i]
  {
    changed := rs;
    for k := 0 to |positions|
      invariant |changed| == |rs|
      invariant forall i :: 0 <= i < |rs| ==> changed[i] == if i in positions[..k] then change(rs[i]) else rs[i]
    {
      assert positions[..k + 1] == positions[..k] + [positions[k]];
      assert positions[k] !in positions[..k];
      changed := changed[positions[k] := change(changed[positions[k]])];
    }
    assert positions[..|positions|] == positions;
  }

  class CatalogAnalysis {
    const cfg: Config
    var records: seq<Record>

    constructor (cfg: Config, records: seq<Record>)
      ensures this.cfg == cfg && this.records == records
    {
      this.cfg, this.records := cfg, records;
    }

    method MarkDerivatives()
      modifies this`records
      ensures records == WithDerivatives(cfg, old(records))
    {
      var rs, pdfs := records, Positions(records, IsPdf);
      for i := 0 to |rs|
        invariant |records| == |rs|
        invariant forall k :: 0 <= k < |rs| ==>
                    records[k] == if k < i && HasPartner(rs, IsTextCopy, IsPdf, StemKind(cfg), k) then AsDerivative()(rs[k]) else rs[k]
      {
        if IsTextCopy(rs[i]) && exists k :: 0 <= k < |pdfs| && cfg.stem(rs[pdfs[k]].key) == cfg.stem(rs[i].key) {
          PdfIsPartner(rs, pdfs, i);
          records := records[i := AsDerivative()(rs[i])];
        } else {
          PdfIsPartner(rs, pdfs, i);
        }
      }
    }

    lemma PdfIsPartner(rs: seq<Record>, pdfs: seq<nat>, i: nat)
      requires i < |rs| && Passing(rs, IsPdf, pdfs) && forall k :: 0 <= k < |pdfs| ==> pdfs[k] < |rs|
      ensures HasPartner(rs, IsTextCopy, IsPdf, StemKind(cfg), i)
              <==> IsTextCopy(rs[i]) && exists k :: 0 <= k < |pdfs| && cfg.stem(rs[pdfs[k]].key) == cfg.stem(rs[i].key)
    {
      if HasPartner(rs, IsTextCopy, IsPdf, StemKind(cfg), i) {
        var j :| 0 <= j < |rs| && j != i && IsPdf(rs[j]) && StemKind(cfg)(rs[j]) == StemKind(cfg)(rs[i]);
        assert j in pdfs;
        var k :| 0 <= k < |pdfs| && pdfs[k] == j;
      }
      if IsTextCopy(rs[i]) && exists k :: 0 <= k < |pdfs| && cfg.stem(rs[pdfs[k]].key) == cfg.stem(rs[i].key) {
        var k :| 0 <= k < |pdfs| && cfg.stem(rs[pdfs[k]].key) == cfg.stem(rs[i].key);
        assert pdfs[k] in pdfs && IsPdf(rs[pdfs[k]]) && pdfs[k] != i;
      }
    }

    method ResetClasses()
      modifies this`records
      ensures records == ResetAll(old(records))
    {
      for i := 0 to |records|
        invariant |records| == |old(records)|
        invariant forall j :: 0 <= j < |records| ==> records[j] == if j < i then Reset(old(records[j])) else old(records[j])
      {
        records := records[i := Reset(records[i])];
      }
    }

    /** Hashes every file that shares size, extension and quick fingerprint with another. */
    method HashTwins()
      modifies this`records
      ensures records == TwinsHashed(cfg, old(records))
    {
      records := ChangeTwins(records, IsFingerprinted, QuickKind(), AsHashed(cfg));
    }

    /** Hashes the smallest eligible records, up to the budget. */
    method HashEligible()
      modifies this`records
      ensures records == EligibleHashed(cfg, old(records))
    {
      var best := Best(records, IsEligible, HashRank(cfg), Budget(cfg));
      BestIsBest(records, IsEligible, HashRank(cfg), Budget(cfg));
      forall k | 0 <= k < |best| ensures best[k] < |records| {
        assert best[k] in best;
      }
      records := ChangeAll(records, best, AsHashed(cfg));
    }

    /** Notes which files share size and extension with another. */
    method MarkSizeBuckets()
      modifies this`records
      ensures records == Changed(old(records), IsFile, IsFile, SizeKind(), AsBucketed())
    {
      records := ChangeTwins(records, IsFile, SizeKind(), AsBucketed());
    }

    /** Marks the records whose complete hash another has, then the unhashed quick twins without a class. */
    method MarkClasses()
      modifies this`records
      ensures records == Classed(old(records))
    {
      records := ChangeTwins(records, IsHashed, ShaKind(), AsExact());
      records := ChangeTwins(records, IsFingerprinted, QuickKind(), AsPossible());
    }

    method AnalyzeDuplicates()
      modifies this`records
      ensures records == Analysis(cfg, old(records))
    {
      ResetClasses();
      MarkSizeBuckets();
      HashTwins();
      HashEligible();
      MarkClasses();
    }
  }

  // ----- what the classes mean -----

  /** Another present record has the same complete hash. */
  ghost predicate IsExact(rs: seq<Record>, i: nat)
    requires i < |rs|
  {
    IsHashed(rs[i]) && exists j :: 0 <= j < |rs| && j != i && IsHashed(rs[j]) && rs[j].sha == rs[i].sha
  }

  predicate SameQuick(a: Record, b: Record) {
    a.size == b.size && a.classified.extension == b.classified.extension && a.quick == b.quick
  }

  /** The own hash is incomplete, and another file has the same size, extension and quick fingerprint. */
  ghost predicate IsPossible(rs: seq<Record>, i: nat)
    requires i < |rs|
  {
    IsFingerprinted(rs[i]) && !IsHashed(rs[i])
    && exists j :: 0 <= j < |rs| && j != i && IsFingerprinted(rs[j]) && SameQuick(rs[j], rs[i])
  }

  /** Every present record carries exactly its duplicate class. */
  ghost predicate Analyzed(rs: seq<Record>) {
    forall i :: 0 <= i < |rs| && rs[i].present ==>
      && (rs[i].duplicate == ExactDuplicate <==> IsExact(rs, i))
      && (rs[i].duplicate == PossibleDuplicate <==> IsPossible(rs, i))
  }

  /** Equal in everything that decides the class. */
  ghost predicate SameEvidence(before: seq<Record>, after: seq<Record>) {
    |before| == |after|
    && forall i :: 0 <= i < |before| ==> before[i] == after[i].(duplicate := before[i].duplicate)
  }

  lemma ClassesDependOnEvidence(before: seq<Record>, after: seq<Record>, i: nat)
    requires SameEvidence(before, after) && i < |before|
    ensures IsExact(before, i) <==> IsExact(after, i)
    ensures IsPossible(before, i) <==> IsPossible(after, i)
  {
    if IsExact(before, i) {
      var j :| 0 <= j < |before| && j != i && IsHashed(before[j]) && before[j].sha == before[i].sha;
      assert IsHashed(after[j]);
    }
    if IsExact(after, i) {
      var j :| 0 <= j < |before| && j != i && IsHashed(after[j]) && after[j].sha == after[i].sha;
      assert IsHashed(before[j]);
    }
    if IsPossible(before, i) {
      var j :| 0 <= j < |before| && j != i && IsFingerprinted(before[j]) && SameQuick(before[j], before[i]);
      assert IsFingerprinted(after[j]);
    }
    if IsPossible(after, i) {
      var j :| 0 <= j < |before| && j != i && IsFingerprinted(after[j]) && SameQuick(after[j], after[i]);
      assert IsFingerprinted(before[j]);
    }
  }

  lemma ExactIsPartner(rs: seq<Record>, i: nat)
    requires i < |rs|
    ensures IsExact(rs, i) <==> HasPartner(rs, IsHashed, IsHashed, ShaKind(), i)
  {
    if IsExact(rs, i) {
      var j :| 0 <= j < |rs| && j != i && IsHashed(rs[j]) && rs[j].sha == rs[i].sha;
      assert ShaKind()(rs[j]) == ShaKind()(rs[i]);
    }
  }

  lemma PossibleIsPartner(rs: seq<Record>, i: nat)
    requires i < |rs|
    ensures IsPossible(rs, i) <==> HasPartner(rs, IsFingerprinted, IsFingerprinted, QuickKind(), i) && !IsHashed(rs[i])
  {
    if IsPossible(rs, i) {
      var j :| 0 <= j < |rs| && j != i && IsFingerprinted(rs[j]) && SameQuick(rs[j], rs[i]);
      assert QuickKind()(rs[j]) == QuickKind()(rs[i]);
    }
    if HasPartner(rs, IsFingerprinted, IsFingerprinted, QuickKind(), i) {
      var j :| 0 <= j < |rs| && j != i && IsFingerprinted(rs[j]) && QuickKind()(rs[j]) == QuickKind()(rs[i]);
      assert SameQuick(rs[j], rs[i]);
    }
  }

  /** Marking gives a record without a class exactly the class that it has. */
  lemma ClassedExactly(rs: seq<Record>, i: nat)
    requires i < |rs| && rs[i].duplicate == NoDuplicate
    ensures Classed(rs)[i].duplicate == ExactDuplicate <==> IsExact(Classed(rs), i)
    ensures Classed(rs)[i].duplicate == PossibleDuplicate <==> IsPossible(Classed(rs), i)
  {
    var exact := Changed(rs, IsHashed, IsHashed, ShaKind(), AsExact());
    ExactIsPartner(rs, i);
    PossibleIsPartner(exact, i);
    ClassesDependOnEvidence(rs, exact, i);
    ClassesDependOnEvidence(exact, Classed(rs), i);
  }

  // ----- what the analysis keeps -----

  /** Equal in everything that the analysis leaves alone; a record of a removed file is left alone entirely. */
  predicate SameFile(a: Record, b: Record) {
    && a == b.(hash := a.hash, sha := a.sha, technical := a.technical, bucketed := a.bucketed, duplicate := a.duplicate)
    && (!a.present ==> a == b)
  }

  ghost predicate SameFiles(before: seq<Record>, after: seq<Record>) {
    |before| == |after| && forall i :: 0 <= i < |before| ==> SameFile(before[i], after[i])
  }

  lemma SameFilesTwice(a: seq<Record>, b: seq<Record>, c: seq<Record>)
    requires SameFiles(a, b) && SameFiles(b, c)
    ensures SameFiles(a, c)
  {
  }

  lemma ChangedKeepsFiles<K(!new)>(rs: seq<Record>, member: Record -> bool, kind: Record -> K, change: Record -> Record)
    requires forall r :: member(r) ==> SameFile(r, change(r))
    ensures SameFiles(rs, Changed(rs, member, member, kind, change))
  {
  }

  lemma BestKeepsFiles(rs: seq<Record>, test: Record -> bool, rank: Record -> int, limit: nat, change: Record -> Record)
    requires forall r :: test(r) ==> SameFile(r, change(r))
    ensures SameFiles(rs, BestChanged(rs, test, rank, limit, change))
  {
    BestIsBest(rs, test, rank, limit);
    forall i | 0 <= i < |rs| && i in Best(rs, test, rank, limit) ensures test(rs[i]) {
      assert i in Positions(rs, test);
    }
  }

  /** The analysis changes hash, technical status, bucket and class of present records, and nothing else. */
  lemma AnalysisKeepsFiles(cfg: Config, rs: seq<Record>)
    ensures SameFiles(rs, Analysis(cfg, rs))
  {
    assert SameFiles(rs, ResetAll(rs));
    ChangedKeepsFiles(ResetAll(rs), IsFile, SizeKind(), AsBucketed());
    SameFilesTwice(rs, ResetAll(rs), Bucketed(rs));
    StagesKeepFiles(cfg, Bucketed(rs));
    SameFilesTwice(rs, Bucketed(rs), Analysis(cfg, rs));
  }

  lemma StagesKeepFiles(cfg: Config, bucketed: seq<Record>)
    ensures SameFiles(bucketed, Classed(EligibleHashed(cfg, TwinsHashed(cfg, bucketed))))
  {
    var twins := TwinsHashed(cfg, bucketed);
    var hashed := EligibleHashed(cfg, twins);
    TwinsKeepFiles(cfg, bucketed);
    EligibleKeepFiles(cfg, twins);
    ClassingKeepsFiles(hashed);
    SameFilesTwice(bucketed, twins, hashed);
    SameFilesTwice(bucketed, hashed, Classed(hashed));
  }

  lemma TwinsKeepFiles(cfg: Config, rs: seq<Record>)
    ensures SameFiles(rs, TwinsHashed(cfg, rs))
  {
    ChangedKeepsFiles(rs, IsFingerprinted, QuickKind(), AsHashed(cfg));
  }

  lemma EligibleKeepFiles(cfg: Config, rs: seq<Record>)
    ensures SameFiles(rs, EligibleHashed(cfg, rs))
  {
    BestKeepsFiles(rs, IsEligible, HashRank(cfg), Budget(cfg), AsHashed(cfg));
  }

  lemma ClassingKeepsFiles(rs: seq<Record>)
    ensures SameFiles(rs, Classed(rs))
  {
    var exact := Changed(rs, IsHashed, IsHashed, ShaKind(), AsExact());
    ChangedKeepsFiles(rs, IsHashed, ShaKind(), AsExact());
    ChangedKeepsFiles(exact, IsFingerprinted, QuickKind(), AsPossible());
    SameFilesTwice(rs, exact, Classed(rs));
  }

  // ----- hashes -----

  lemma ChangedKeepsAll<K(!new)>(rs: seq<Record>, member: Record -> bool, kind: Record -> K, change: Record -> Record,
                                 good: Record -> bool)
    requires forall r :: good(r) ==> good(change(r))
    requires forall i :: 0 <= i < |rs| ==> good(rs[i])
    ensures forall i :: 0 <= i < |rs| ==> good(Changed(rs, member, member, kind, change)[i])
  {
  }

  /** Every complete hash is stored, if it was before. */
  lemma AnalysisKeepsStored(cfg: Config, rs: seq<Record>)
    requires AllStored(rs)
    ensures AllStored(Analysis(cfg, rs))
  {
    var bucketed := Bucketed(rs);
    var twins := TwinsHashed(cfg, bucketed);
    var hashed := EligibleHashed(cfg, twins);
    var exact := Changed(hashed, IsHashed, IsHashed, ShaKind(), AsExact());
    ChangedKeepsAll(ResetAll(rs), IsFile, SizeKind(), AsBucketed(), HashIsStored);
    ChangedKeepsAll(bucketed, IsFingerprinted, QuickKind(), AsHashed(cfg), HashIsStored);
    ChangedKeepsAll(hashed, IsHashed, ShaKind(), AsExact(), HashIsStored);
    ChangedKeepsAll(exact, IsFingerprinted, QuickKind(), AsPossible(), HashIsStored);
  }

  lemma BestKeepsAll(rs: seq<Record>, test: Record -> bool, rank: Record -> int, limit: nat, change: Record -> Record,
                     good: Record -> bool)
    requires forall r :: good(r) ==> good(change(r))
    requires forall i :: 0 <= i < |rs| ==> good(rs[i])
    ensures forall i :: 0 <= i < |rs| ==> good(BestChanged(rs, test, rank, limit, change)[i])
  {
  }

  predicate IsUnclassed(r: Record) {
    r.present ==> r.duplicate == NoDuplicate
  }

  /** After the reset no present record has a class, and hashing gives it none. */
  lemma HashedIsUnclassed(cfg: Config, rs: seq<Record>)
    ensures forall i :: 0 <= i < |rs| ==> IsUnclassed(EligibleHashed(cfg, TwinsHashed(cfg, Bucketed(rs)))[i])
  {
    assert forall i :: 0 <= i < |rs| ==> IsUnclassed(ResetAll(rs)[i]);
    ChangedKeepsAll(ResetAll(rs), IsFile, SizeKind(), AsBucketed(), IsUnclassed);
    ChangedKeepsAll(Bucketed(rs), IsFingerprinted, QuickKind(), AsHashed(cfg), IsUnclassed);
    BestKeepsAll(TwinsHashed(cfg, Bucketed(rs)), IsEligible, HashRank(cfg), Budget(cfg), AsHashed(cfg), IsUnclassed);
  }

  /** After the analysis every present record carries exactly its duplicate class. */
  lemma AnalysisClassifies(cfg: Config, rs: seq<Record>)
    ensures Analyzed(Analysis(cfg, rs))
  {
    AnalysisKeepsFiles(cfg, rs);
    forall i | 0 <= i < |rs| && Analysis(cfg, rs)[i].present
      ensures (Analysis(cfg, rs)[i].duplicate == ExactDuplicate <==> IsExact(Analysis(cfg, rs), i))
              && (Analysis(cfg, rs)[i].duplicate == PossibleDuplicate <==> IsPossible(Analysis(cfg, rs), i))
    {
      HashedIsUnclassed(cfg, rs);
      PresentBefore(EligibleHashed(cfg, TwinsHashed(cfg, Bucketed(rs))), i);
      ClassedExactly(EligibleHashed(cfg, TwinsHashed(cfg, Bucketed(rs))), i);
    }
  }

  /** No quick twin still waits for its hash. */
  ghost predicate TwinsDecided(rs: seq<Record>) {
    forall i :: 0 <= i < |rs| && IsPossible(rs, i) ==> rs[i].hash != HashPending
  }

  /** Classing changes the class alone. */
  lemma PresentBefore(rs: seq<Record>, i: nat)
    requires i < |rs|
    ensures Classed(rs)[i] == rs[i].(duplicate := Classed(rs)[i].duplicate)
  {
  }

  /** What a stored or refused hash becomes after the twins were hashed. */
  lemma HashStays(cfg: Config, twins: seq<Record>, i: nat)
    requires i < |twins|
    ensures var final := Classed(EligibleHashed(cfg, twins))[i];
            && final.present == twins[i].present
            && (twins[i].hash == HashComplete ==> final.hash == HashComplete && final.sha == twins[i].sha)
            && (twins[i].hash != HashPending ==> final.hash != HashPending)
  {
    EligibleAt(cfg, twins, i);
    HashedFacts(cfg, twins[i]);
    PresentBefore(EligibleHashed(cfg, twins), i);
  }

  lemma EligibleAt(cfg: Config, twins: seq<Record>, i: nat)
    requires i < |twins|
    ensures EligibleHashed(cfg, twins)[i] == twins[i] || EligibleHashed(cfg, twins)[i] == Hashed(cfg, twins[i])
  {
  }

  /** A complete hash stays, and an answered request stays answered. */
  lemma HashedFacts(cfg: Config, r: Record)
    ensures Hashed(cfg, r).present == r.present
    ensures r.hash == HashComplete ==> Hashed(cfg, r) == r
    ensures r.hash != HashPending || r.present ==> Hashed(cfg, r).hash != HashPending
  {
  }

  lemma TwinAt(cfg: Config, rs: seq<Record>, i: nat)
    requires i < |rs| && HasPartner(rs, IsFingerprinted, IsFingerprinted, QuickKind(), i)
    ensures TwinsHashed(cfg, rs)[i] == Hashed(cfg, rs[i]) && rs[i].present
  {
  }

  /** Whoever is a quick twin at the end was one before hashing, and had its hash asked for. */
  lemma AnalysisDecidesTwins(cfg: Config, rs: seq<Record>)
    ensures TwinsDecided(Analysis(cfg, rs))
  {
    forall i | 0 <= i < |rs| && IsPossible(Analysis(cfg, rs), i) ensures Analysis(cfg, rs)[i].hash != HashPending {
      TwinDecided(cfg, Bucketed(rs), i);
    }
  }

  lemma TwinDecided(cfg: Config, bucketed: seq<Record>, i: nat)
    requires i < |bucketed| && IsPossible(Classed(EligibleHashed(cfg, TwinsHashed(cfg, bucketed))), i)
    ensures Classed(EligibleHashed(cfg, TwinsHashed(cfg, bucketed)))[i].hash != HashPending
  {
    TwinBefore(cfg, bucketed, i);
    TwinAt(cfg, bucketed, i);
    HashedFacts(cfg, bucketed[i]);
    HashStays(cfg, TwinsHashed(cfg, bucketed), i);
  }

  lemma TwinBefore(cfg: Config, bucketed: seq<Record>, i: nat)
    requires i < |bucketed| && IsPossible(Classed(EligibleHashed(cfg, TwinsHashed(cfg, bucketed))), i)
    ensures HasPartner(bucketed, IsFingerprinted, IsFingerprinted, QuickKind(), i)
  {
    var final := Classed(EligibleHashed(cfg, TwinsHashed(cfg, bucketed)));
    StagesKeepFiles(cfg, bucketed);
    SameTwins(bucketed, final, i);
  }

  lemma SameTwins(before: seq<Record>, after: seq<Record>, i: nat)
    requires SameFiles(before, after) && i < |after| && IsPossible(after, i)
    ensures HasPartner(before, IsFingerprinted, IsFingerprinted, QuickKind(), i)
  {
    var j :| 0 <= j < |after| && j != i && IsFingerprinted(after[j]) && SameQuick(after[j], after[i]);
    assert SameFile(before[i], after[i]) && SameFile(before[j], after[j]);
    assert IsFingerprinted(before[j]) && QuickKind()(before[j]) == QuickKind()(before[i]);
  }

  /** A file whose hash the analysis would take if asked. */
  predicate HashesTo(cfg: Config, r: Record, value: nat) {
    && IsFingerprinted(r) && r.hash != HashComplete && IsHashable(Reset(r).technical)
    && r.size <= AtLeastOne(cfg.maxHashBytes) && cfg.digest(r.key) == Sha(value)
  }

  /** Two quick twins with the same content are exact duplicates, both of them. */
  lemma EqualFilesAreExact(cfg: Config, rs: seq<Record>, i: nat, j: nat, value: nat)
    requires i < |rs| && j < |rs| && i != j && HashesTo(cfg, rs[i], value) && HashesTo(cfg, rs[j], value)
    requires SameQuick(rs[i], rs[j])
    ensures Analysis(cfg, rs)[i].duplicate == ExactDuplicate && Analysis(cfg, rs)[j].duplicate == ExactDuplicate
  {
    TwinIsHashed(cfg, rs, i, j, value);
    TwinIsHashed(cfg, rs, j, i, value);
    AnalysisClassifies(cfg, rs);
    var final := Analysis(cfg, rs);
    assert IsHashed(final[i]) && IsHashed(final[j]);
  }

  lemma TwinIsHashed(cfg: Config, rs: seq<Record>, i: nat, j: nat, value: nat)
    requires i < |rs| && j < |rs| && i != j && HashesTo(cfg, rs[i], value) && IsFingerprinted(rs[j]) && SameQuick(rs[i], rs[j])
    ensures Analysis(cfg, rs)[i].present
    ensures Analysis(cfg, rs)[i].hash == HashComplete && Analysis(cfg, rs)[i].sha == Some(value)
  {
    var bucketed := Bucketed(rs);
    BucketedAt(rs, i);
    BucketedAt(rs, j);
    assert IsFingerprinted(bucketed[i]) && IsFingerprinted(bucketed[j]) && QuickKind()(bucketed[j]) == QuickKind()(bucketed[i]);
    assert HasPartner(bucketed, IsFingerprinted, IsFingerprinted, QuickKind(), i);
    TwinAt(cfg, bucketed, i);
    HashStays(cfg, TwinsHashed(cfg, bucketed), i);
  }

  lemma BucketedAt(rs: seq<Record>, i: nat)
    requires i < |rs|
    ensures Bucketed(rs)[i] == Reset(rs[i]).(bucketed := Bucketed(rs)[i].bucketed)
  {
  }
}
