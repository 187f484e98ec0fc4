/**
 What the policy levels share and what the causal one loses: neither of the two
 deepest levels asks for all that the other does.
 */
module RiskLevels {
  import opened Text
  import opened RiskFindings
  import opened RiskRules
  import opened RiskMonotone
  import opened RiskSections

  // ----- what the levels share -----

  lemma {:induction false} InEachIff<T>(items: seq<T>, rule: (nat, T) -> seq<Finding>, f: Finding)
    ensures f in Each(items, rule) <==> exists i: nat :: i < |items| && f in rule(i, items[i])
  {
    if items != [] {
      var last := |items| - 1;
      InEachIff(items[..last], rule, f);
      if i: nat :| i < last && f in rule(i, items[i]) {
        assert items[..last][i] == items[i];
      }
    }
  }

  lemma BlankCriteria(tests: seq<string>, f: Finding)
    ensures f in Each(tests, CriterionRule())
            <==> exists i: nat :: i < |tests| && Blank(tests[i]) && f == Finding(ExclusionMissing, ReviewItems, At(i))
  {
    InEachIff(tests, CriterionRule(), f);
  }

  lemma BlankNotes(rivals: seq<Hypothesis>, f: Finding)
    ensures f in Each(rivals, SimplicityRule())
            <==> exists i: nat :: i < |rivals| && Blank(rivals[i].simplicityNote) && f == Finding(SimplicityReview, ReviewItems, At(i))
  {
    InEachIff(rivals, SimplicityRule(), f);
  }

  lemma InCriteria(lower: string -> string, d: Design, level: Level, locked: bool, s: Sidecars, hash: string, f: Finding)
    requires SectionOf(f.rule) == Criteria
    ensures f in Findings(lower, d, level, locked, s, hash) <==> f in Each(d.exclusionTests, CriterionRule())
  {
    FoundInItsSection(lower, d, level, locked, s, hash, f);
  }

  lemma InSimplicity(lower: string -> string, d: Design, level: Level, locked: bool, s: Sidecars, hash: string, f: Finding)
    requires SectionOf(f.rule) == Simplicity
    ensures f in Findings(lower, d, level, locked, s, hash) <==> f in Each(d.rivals, SimplicityRule())
  {
    FoundInItsSection(lower, d, level, locked, s, hash, f);
  }

  /** At every level, a missing exclusion criterion is an item to review for each blank one and nothing else. */
  lemma CriteriaAtEveryLevel(lower: string -> string, d: Design, level: Level, locked: bool, s: Sidecars, hash: string, f: Finding)
    requires f.rule == ExclusionMissing
    ensures f in Findings(lower, d, level, locked, s, hash)
            <==> exists i: nat :: i < |d.exclusionTests| && Blank(d.exclusionTests[i]) && f == Finding(ExclusionMissing, ReviewItems, At(i))
  {
    InCriteria(lower, d, level, locked, s, hash, f);
    BlankCriteria(d.exclusionTests, f);
  }

  /** At every level, the simplicity review is asked of each rival without a note and of no other. */
  lemma SimplicityAtEveryLevel(lower: string -> string, d: Design, level: Level, locked: bool, s: Sidecars, hash: string, f: Finding)
    requires f.rule == SimplicityReview
    ensures f in Findings(lower, d, level, locked, s, hash)
            <==> exists i: nat :: i < |d.rivals| && Blank(d.rivals[i].simplicityNote) && f == Finding(SimplicityReview, ReviewItems, At(i))
  {
    InSimplicity(lower, d, level, locked, s, hash, f);
    BlankNotes(d.rivals, f);
  }

  // ----- what the causal level loses -----

  /** The rules on materials, common sources and chronology are asked at the genealogical level alone. */
  lemma GenealogyAtItsLevelAlone(lower: string -> string, d: Design, level: Level, locked: bool, s: Sidecars, hash: string, f: Finding)
    requires SectionOf(f.rule) == Genealogy
    ensures f in Findings(lower, d, level, locked, s, hash) <==> level == Genealogical && f in GenealogicalFindings(d, locked)
  {
    FoundInItsSection(lower, d, level, locked, s, hash, f);
  }

  /** A second rival is asked at the genealogical level alone. */
  ghost function SecondRival(d: Design): set<(Rule, Bucket)> {
    if |d.rivals| == 1 then {(RivalMissing, Errors), (RivalMissing, ApprovalBlockers)} else {}
  }

  lemma OpeningLoses(d: Design)
    ensures Kinds(OpeningFindings(d, Genealogical)) - Kinds(OpeningFindings(d, Causal)) == SecondRival(d)
  {
  }

  lemma KindsInSection(lower: string -> string, d: Design, level: Level, locked: bool, s: Sidecars, hash: string, kind: (Rule, Bucket))
    ensures kind in Kinds(Findings(lower, d, level, locked, s, hash))
            <==> kind in Kinds(Part(lower, d, level, locked, s, hash, SectionOf(kind.0)))
  {
    forall f: Finding | f.rule == kind.0
      ensures f in Findings(lower, d, level, locked, s, hash)
              <==> f in Part(lower, d, level, locked, s, hash, SectionOf(kind.0))
    {
      FoundInItsSection(lower, d, level, locked, s, hash, f);
    }
  }

  lemma DeepLevelsShare(lower: string -> string, d: Design, locked: bool, s: Sidecars, hash: string, section: Section)
    requires section != Opening && section != Genealogy && section != Causality
    ensures Part(lower, d, Genealogical, locked, s, hash, section) == Part(lower, d, Causal, locked, s, hash, section)
  {
  }

  lemma KindsOfGenealogy(d: Design, locked: bool, kind: (Rule, Bucket))
    requires kind in Kinds(GenealogicalFindings(d, locked))
    ensures SectionOf(kind.0) == Genealogy
  {
    GenealogyEmits(d, locked);
  }

  lemma SecondRivalIsOpening(d: Design, kind: (Rule, Bucket))
    requires kind in SecondRival(d)
    ensures SectionOf(kind.0) == Opening
  {
  }

  lemma OpeningKindLost(lower: string -> string, d: Design, locked: bool, s: Sidecars, hash: string, kind: (Rule, Bucket))
    ensures kind in Kinds(Part(lower, d, Genealogical, locked, s, hash, Opening)) && kind !in Kinds(Part(lower, d, Causal, locked, s, hash, Opening))
            <==> kind in SecondRival(d)
  {
    OpeningLoses(d);
  }

  lemma GenealogyKindLost(lower: string -> string, d: Design, locked: bool, s: Sidecars, hash: string, kind: (Rule, Bucket))
    ensures kind in Kinds(Part(lower, d, Genealogical, locked, s, hash, Genealogy)) && kind !in Kinds(Part(lower, d, Causal, locked, s, hash, Genealogy))
            <==> kind in Kinds(GenealogicalFindings(d, locked))
  {
  }

  lemma CausalKindLost(lower: string -> string, d: Design, locked: bool, s: Sidecars, hash: string, kind: (Rule, Bucket))
    ensures kind !in Kinds(Part(lower, d, Genealogical, locked, s, hash, Causality))
  {
  }

  lemma PartKindLost(lower: string -> string, d: Design, locked: bool, s: Sidecars, hash: string, section: Section, kind: (Rule, Bucket))
    requires section == SectionOf(kind.0)
    ensures kind in Kinds(Part(lower, d, Genealogical, locked, s, hash, section)) && kind !in Kinds(Part(lower, d, Causal, locked, s, hash, section))
            <==> kind in Kinds(GenealogicalFindings(d, locked)) || kind in SecondRival(d)
  {
    if kind in SecondRival(d) {
      SecondRivalIsOpening(d, kind);
    }
    if kind in Kinds(GenealogicalFindings(d, locked)) {
      KindsOfGenealogy(d, locked, kind);
    }
    match section
    case Opening => OpeningKindLost(lower, d, locked, s, hash, kind);
    case Genealogy => GenealogyKindLost(lower, d, locked, s, hash, kind);
    case Causality => CausalKindLost(lower, d, locked, s, hash, kind);
    case _ => DeepLevelsShare(lower, d, locked, s, hash, section);
  }

  lemma LostKind(lower: string -> string, d: Design, locked: bool, s: Sidecars, hash: string, kind: (Rule, Bucket))
    ensures kind in Kinds(Findings(lower, d, Genealogical, locked, s, hash)) && kind !in Kinds(Findings(lower, d, Causal, locked, s, hash))
            <==> kind in Kinds(GenealogicalFindings(d, locked)) || kind in SecondRival(d)
  {
    KindsInSection(lower, d, Genealogical, locked, s, hash, kind);
    KindsInSection(lower, d, Causal, locked, s, hash, kind);
    PartKindLost(lower, d, locked, s, hash, SectionOf(kind.0), kind);
  }

  /** The pairs of rule and bucket that raising the level from genealogical to causal takes away. */
  lemma LostToCausal(lower: string -> string, d: Design, locked: bool, s: Sidecars, hash: string)
    ensures Kinds(Findings(lower, d, Genealogical, locked, s, hash)) - Kinds(Findings(lower, d, Causal, locked, s, hash))
            == Kinds(GenealogicalFindings(d, locked)) + SecondRival(d)
  {
    forall kind: (Rule, Bucket)
      ensures kind in Kinds(Findings(lower, d, Genealogical, locked, s, hash)) - Kinds(Findings(lower, d, Causal, locked, s, hash))
              <==> kind in Kinds(GenealogicalFindings(d, locked)) + SecondRival(d)
    {
      LostKind(lower, d, locked, s, hash, kind);
    }
  }

  predicate UnseenHoldouts(materials: seq<Material>) {
    forall k :: 0 <= k < |materials| ==> materials[k].role != Holdout || !materials[k].seenBeforeLock
  }

  /** What a design must hold for the genealogical rules to have nothing to say. */
  predicate Traced(d: Design, locked: bool) {
    var materials := EffectiveMaterials(d);
    && materials != [] && Validated(materials) && UnseenHoldouts(materials)
    && HasKind(d.rivals, SharedSource)
    && d.chronologyOnly != []
    && (locked ==> d.adversarialCompleted && (d.validationRequired ==> d.validationCompleted))
  }

  lemma HoldoutsClean(materials: seq<Material>)
    ensures Each(materials, HoldoutRule()) == [] <==> UnseenHoldouts(materials)
  {
    if materials != [] {
      var last := |materials| - 1;
      HoldoutsClean(materials[..last]);
      assert UnseenHoldouts(materials) <==> UnseenHoldouts(materials[..last]) && (materials[last].role != Holdout || !materials[last].seenBeforeLock);
    }
  }

  lemma TracedIff(d: Design, locked: bool)
    ensures GenealogicalFindings(d, locked) == [] <==> Traced(d, locked)
  {
    HoldoutsClean(EffectiveMaterials(d));
  }

  lemma NothingLost<T(!new)>(low: set<T>, high: set<T>, lost: set<T>, more: set<T>)
    requires low - high == lost + more
    ensures low <= high <==> lost == {} && more == {}
  {
    forall x | low - high == {} && x in low ensures x in high {
      assert x !in low - high;
    }
    assert forall x :: x in lost || x in more <==> x in low - high;
  }

  lemma NoKinds(findings: seq<Finding>)
    ensures Kinds(findings) == {} <==> findings == []
  {
    if findings != [] {
      assert (findings[0].rule, findings[0].bucket) in Kinds(findings);
    }
  }

  /**
   The causal level finds all that the genealogical one does exactly for the
   designs whose genealogy is complete and whose number of rivals is not one.
   */
  lemma CausalCoversIff(lower: string -> string, d: Design, locked: bool, s: Sidecars, hash: string)
    ensures Kinds(Findings(lower, d, Genealogical, locked, s, hash)) <= Kinds(Findings(lower, d, Causal, locked, s, hash))
            <==> Traced(d, locked) && |d.rivals| != 1
  {
    LostToCausal(lower, d, locked, s, hash);
    TracedIff(d, locked);
    NoKinds(GenealogicalFindings(d, locked));
    NothingLost(Kinds(Findings(lower, d, Genealogical, locked, s, hash)), Kinds(Findings(lower, d, Causal, locked, s, hash)),
                Kinds(GenealogicalFindings(d, locked)), SecondRival(d));
  }

  /** Without any material the genealogical level finds an error that the causal level does not. */
  lemma MaterialsMissedAtCausal(lower: string -> string, d: Design, locked: bool, s: Sidecars, hash: string)
    requires EffectiveMaterials(d) == []
    ensures Finding(MaterialsMissing, Errors, Whole) in Findings(lower, d, Genealogical, locked, s, hash)
    ensures forall f :: f in Findings(lower, d, Causal, locked, s, hash) ==> f.rule != MaterialsMissing
  {
    GenealogyAtItsLevelAlone(lower, d, Genealogical, locked, s, hash, Finding(MaterialsMissing, Errors, Whole));
    forall f: Finding | f.rule == MaterialsMissing ensures f !in Findings(lower, d, Causal, locked, s, hash) {
      GenealogyAtItsLevelAlone(lower, d, Causal, locked, s, hash, f);
    }
  }

  const NAMELESS: Hypothesis := Hypothesis("", OtherKind, false, "", [], "")

  /** A design that states nothing at all, with no material and a single rival. */
  const BARE: Design := Design(1, "", NAMELESS, [NAMELESS], [], [], [], 0, 0, [], [], [], [], OtherContribution, [], [],
                               false, false, false, [], false)

  /** Audited as genealogical, the bare design lacks materials and a second rival; audited as causal, it lacks neither. */
  lemma BareDesignLoses(lower: string -> string, s: Sidecars, hash: string)
    ensures {(MaterialsMissing, Errors), (RivalMissing, Errors), (RivalMissing, ApprovalBlockers)}
            <= Kinds(Findings(lower, BARE, Genealogical, false, s, hash)) - Kinds(Findings(lower, BARE, Causal, false, s, hash))
  {
    LostToCausal(lower, BARE, false, s, hash);
    var materials := Finding(MaterialsMissing, Errors, Whole);
    assert EffectiveMaterials(BARE) == [];
    assert GenealogicalFindings(BARE, false)[0] == materials;
    assert (materials.rule, materials.bucket) in Kinds(GenealogicalFindings(BARE, false));
  }
}
