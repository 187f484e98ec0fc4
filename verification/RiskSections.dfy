/** Each finding comes from one section of the rules, and is reported just when that section reports it. */
module RiskSections {
  import opened RiskFindings
  import opened RiskPairs
  import opened RiskRules

  datatype Section = Opening | Predictions | Discrimination | Outcomes | Controls | Genealogy | Causality
                   | History | Contributions | Bridges | Criteria | Simplicity | Semantics

  function SectionOf(rule: Rule): Section {
    if rule.RiskBearingMissing? || rule.FailureEffectMissing? || rule.RivalMissing? || rule.FalsificationMissing? then Opening
    else if rule.PredictionsMissing? then Predictions
    else if rule.NotDiscriminating? then Discrimination
    else if rule.BranchesMissing? || rule.AllOutcomesPreserve? then Outcomes
    else if rule.ControlMissing? || rule.ControlNotComparable? || rule.ControlNotCompleted? || rule.ControlPasses? then Controls
    else if rule.MaterialsMissing? || rule.ValidationOrHoldoutMissing? || rule.HoldoutContaminated? || rule.SharedSourceMissing?
            || rule.DiachronicMissing? || rule.ValidationIncomplete? || rule.AdversarialIncomplete? then Genealogy
    else if rule.ChainMissing? || rule.AlternativeMissing? || rule.FailureConditionsMissing? || rule.CounterfactualMissing? then Causality
    else if rule.LockedAtMissing? || rule.DriftUndisclosed? || rule.PostHocRelaxation? || rule.ChangeReview? then History
    else if rule.ContributionMismatch? then Contributions
    else if rule.StrengthAggregated? then Bridges
    else if rule.ExclusionMissing? then Criteria
    else if rule.SimplicityReview? then Simplicity
    else Semantics
  }

  ghost predicate Emits(findings: seq<Finding>, section: Section) {
    forall k :: 0 <= k < |findings| ==> SectionOf(findings[k].rule) == section
  }

  lemma {:induction false} EachEmits<T(!new)>(items: seq<T>, rule: (nat, T) -> seq<Finding>, section: Section)
    requires forall i: nat, x: T :: Emits(rule(i, x), section)
    ensures Emits(Each(items, rule), section)
  {
    if items != [] {
      var last := |items| - 1;
      EachEmits(items[..last], rule, section);
      assert Emits(rule(last, items[last]), section);
    }
  }

  lemma EmitsBoth(a: seq<Finding>, b: seq<Finding>, section: Section)
    requires Emits(a, section) && Emits(b, section)
    ensures Emits(a + b, section)
  {
  }

  lemma ThreeEmit(a: seq<Finding>, b: seq<Finding>, c: seq<Finding>, section: Section)
    requires Emits(a, section) && Emits(b, section) && Emits(c, section)
    ensures Emits(a + b + c, section)
  {
  }

  lemma FourEmit(found: seq<Finding>, a: seq<Finding>, b: seq<Finding>, c: seq<Finding>, section: Section)
    requires Emits(found, section) && Emits(a, section) && Emits(b, section) && Emits(c, section)
    ensures Emits(found + a + b + c, section)
  {
  }

  lemma PredictionsEmit(hs: seq<Hypothesis>)
    ensures Emits(Each(hs, PredictionRule()), Predictions)
  {
    EachEmits(hs, PredictionRule(), Predictions);
  }

  lemma PairsEmit(lower: string -> string, hs: seq<Hypothesis>)
    ensures Emits(Warned(lower, Pairs(hs)), Discrimination)
  {
    WarnedShape(lower, Pairs(hs));
  }

  lemma ControlRuleEmits(locked: bool, i: nat, c: Control)
    ensures Emits(ControlRule(locked)(i, c), Controls)
  {
  }

  lemma ControlsEmit(controls: seq<Control>, locked: bool)
    ensures Emits(ControlFindings(controls, locked), Controls)
  {
    forall i: nat, c: Control ensures Emits(ControlRule(locked)(i, c), Controls) {
      ControlRuleEmits(locked, i, c);
    }
    EachEmits(controls, ControlRule(locked), Controls);
    EmitsBoth(ControlsMissing(controls, locked), Each(controls, ControlRule(locked)), Controls);
  }

  lemma MaterialsEmit(materials: seq<Material>)
    ensures Emits(MaterialFindings(materials), Genealogy)
  {
    EachEmits(materials, HoldoutRule(), Genealogy);
    EmitsBoth(When(!Validated(materials), Blocking(ValidationOrHoldoutMissing, Whole)), Each(materials, HoldoutRule()), Genealogy);
  }

  lemma ReviewsEmit(d: Design, locked: bool)
    ensures Emits(When(locked, UnfinishedReviews(d)), Genealogy)
  {
  }

  lemma GenealogyEmits(d: Design, locked: bool)
    ensures Emits(GenealogicalFindings(d, locked), Genealogy)
  {
    MaterialsEmit(EffectiveMaterials(d));
    ReviewsEmit(d, locked);
    FourEmit(MaterialFindings(EffectiveMaterials(d)),
             When(!HasKind(d.rivals, SharedSource), [Finding(SharedSourceMissing, Errors, Whole)]),
             When(d.chronologyOnly == [], [Finding(DiachronicMissing, Errors, Whole)]),
             When(locked, UnfinishedReviews(d)), Genealogy);
  }

  lemma RevisionRuleEmits(locked: bool, i: nat, r: Revision)
    ensures Emits(RevisionRule(locked)(i, r), History)
  {
  }

  lemma HistoryEmits(d: Design, locked: bool)
    ensures Emits(HistoryFindings(d, locked), History)
  {
    forall i: nat, r: Revision ensures Emits(RevisionRule(locked)(i, r), History) {
      RevisionRuleEmits(locked, i, r);
    }
    EachEmits(d.history, RevisionRule(locked), History);
    EmitsBoth(When(locked, LockRecords(d)), Each(d.history, RevisionRule(locked)), History);
  }

  lemma BridgeRuleEmits(i: nat, b: Bridge)
    ensures Emits(BridgeRule()(i, b), Bridges)
  {
  }

  lemma BridgesEmit(bridges: seq<Bridge>)
    ensures Emits(Each(bridges, BridgeRule()), Bridges)
  {
    forall i: nat, b: Bridge ensures Emits(BridgeRule()(i, b), Bridges) {
      BridgeRuleEmits(i, b);
    }
    EachEmits(bridges, BridgeRule(), Bridges);
  }

  lemma CriteriaEmit(tests: seq<string>)
    ensures Emits(Each(tests, CriterionRule()), Criteria)
  {
    EachEmits(tests, CriterionRule(), Criteria);
  }

  lemma SimplicityEmits(rivals: seq<Hypothesis>)
    ensures Emits(Each(rivals, SimplicityRule()), Simplicity)
  {
    EachEmits(rivals, SimplicityRule(), Simplicity);
  }

  lemma ScopeRuleEmits(locked: bool, i: nat, c: Control)
    ensures Emits(ScopeRule(locked)(i, c), Semantics)
  {
  }

  lemma ScopesEmit(controls: seq<Control>, locked: bool)
    ensures Emits(Each(controls, ScopeRule(locked)), Semantics)
  {
    forall i: nat, c: Control ensures Emits(ScopeRule(locked)(i, c), Semantics) {
      ScopeRuleEmits(locked, i, c);
    }
    EachEmits(controls, ScopeRule(locked), Semantics);
  }

  lemma RoleRuleEmits(i: nat, m: Material)
    ensures Emits(RoleRule()(i, m), Semantics)
  {
  }

  lemma RolesEmit(materials: seq<Material>)
    ensures Emits(Each(materials, RoleRule()), Semantics)
  {
    forall i: nat, m: Material ensures Emits(RoleRule()(i, m), Semantics) {
      RoleRuleEmits(i, m);
    }
    EachEmits(materials, RoleRule(), Semantics);
  }

  lemma FirstGatesEmit(a: bool, b: bool, c: bool)
    ensures Emits(When(a, Blocking(EvidenceContaminated, Whole)) + When(b, Blocking(NoOpenCondition, Whole))
                  + When(c, Blocking(SupportedByFailureOnly, Whole)), Semantics)
  {
  }

  lemma LastGatesEmit(found: seq<Finding>, a: bool, b: bool)
    requires Emits(found, Semantics)
    ensures Emits(found + When(a, Blocking(PostLockMissing, Whole)) + When(b, Blocking(ChronologyUsed, Whole)), Semantics)
  {
  }

  /** Five gates in a row, whatever opens them. */
  lemma GatesEmit(a: bool, b: bool, c: bool, e: bool, g: bool)
    ensures Emits(When(a, Blocking(EvidenceContaminated, Whole)) + When(b, Blocking(NoOpenCondition, Whole))
                  + When(c, Blocking(SupportedByFailureOnly, Whole)) + When(e, Blocking(PostLockMissing, Whole))
                  + When(g, Blocking(ChronologyUsed, Whole)), Semantics)
  {
    FirstGatesEmit(a, b, c);
    LastGatesEmit(When(a, Blocking(EvidenceContaminated, Whole)) + When(b, Blocking(NoOpenCondition, Whole))
                  + When(c, Blocking(SupportedByFailureOnly, Whole)), e, g);
  }

  lemma EvidenceEmits(d: Design, level: Level, locked: bool, s: Sidecars)
    ensures Emits(EvidenceFindings(d, level, locked, s), Semantics)
  {
    var completed := locked && IsDeep(level) && d.validationCompleted;
    GatesEmit(completed && Contaminated(ObservationsOf(s)), locked && NoneOpen(d),
              s.results.Some? && SupportedByFailure(d.primary, s.results.value),
              completed && d.validationRequired && !ObservedAfterLock(ObservationsOf(s)),
              IsDeep(level) && OnlyChronology(d));
  }

  lemma ExcessEmits(d: Design)
    ensures Emits(BridgeExcess(d), Semantics)
  {
  }

  lemma HashesEmit(s: Sidecars, hash: string, locked: bool)
    ensures Emits(When(locked, HashFindings(s, hash)), Semantics)
  {
  }

  lemma BoundsEmit(d: Design, level: Level, locked: bool, s: Sidecars)
    ensures Emits(EvidenceFindings(d, level, locked, s) + BridgeExcess(d) + Each(d.controls, ScopeRule(locked)), Semantics)
  {
    EvidenceEmits(d, level, locked, s);
    ExcessEmits(d);
    ScopesEmit(d.controls, locked);
    ThreeEmit(EvidenceFindings(d, level, locked, s), BridgeExcess(d), Each(d.controls, ScopeRule(locked)), Semantics);
  }

  lemma RecordsEmit(found: seq<Finding>, d: Design, locked: bool, s: Sidecars, hash: string)
    requires Emits(found, Semantics)
    ensures Emits(found + When(d.mixed, [Finding(ResultMixed, Errors, Whole)]) + Each(EffectiveMaterials(d), RoleRule())
                  + When(locked, HashFindings(s, hash)), Semantics)
  {
    RolesEmit(EffectiveMaterials(d));
    HashesEmit(s, hash, locked);
    FourEmit(found, When(d.mixed, [Finding(ResultMixed, Errors, Whole)]), Each(EffectiveMaterials(d), RoleRule()),
             When(locked, HashFindings(s, hash)), Semantics);
  }

  lemma SemanticsEmit(d: Design, level: Level, locked: bool, s: Sidecars, hash: string)
    ensures Emits(SemanticFindings(d, level, locked, s, hash), Semantics)
  {
    BoundsEmit(d, level, locked, s);
    RecordsEmit(EvidenceFindings(d, level, locked, s) + BridgeExcess(d) + Each(d.controls, ScopeRule(locked)), d, locked, s, hash);
  }

  // ----- the findings, section by section -----

  lemma OpeningEmits(d: Design, level: Level)
    ensures Emits(OpeningFindings(d, level), Opening)
  {
  }

  lemma BranchesEmit(branches: seq<Branch>)
    ensures Emits(BranchFindings(branches), Outcomes)
  {
  }

  lemma CausalEmit(d: Design)
    ensures Emits(CausalFindings(d), Causality)
  {
  }

  lemma ContributionsEmit(d: Design)
    ensures Emits(ContributionFindings(d), Contributions)
  {
  }

  lemma WhenEmits(condition: bool, findings: seq<Finding>, section: Section)
    requires Emits(findings, section)
    ensures Emits(When(condition, findings), section)
  {
  }

  /** Seven lists of seven sections: a finding is in their concatenation iff it is in the list of its section. */
  lemma PickLevel(f: Finding, a: seq<Finding>, b: seq<Finding>, c: seq<Finding>, e: seq<Finding>, g: seq<Finding>,
                  h: seq<Finding>, i: seq<Finding>)
    requires Emits(a, Opening) && Emits(b, Predictions) && Emits(c, Discrimination) && Emits(e, Outcomes)
    requires Emits(g, Controls) && Emits(h, Genealogy) && Emits(i, Causality)
    ensures f in a + b + c + e + g + h + i <==> (match SectionOf(f.rule)
      case Opening => f in a case Predictions => f in b case Discrimination => f in c case Outcomes => f in e
      case Controls => f in g case Genealogy => f in h case Causality => f in i case _ => false)
  {
    assert f in a + b + c + e + g + h + i <==> f in a || f in b || f in c || f in e || f in g || f in h || f in i;
  }

  lemma PickDetail(f: Finding, a: seq<Finding>, b: seq<Finding>, c: seq<Finding>)
    requires Emits(a, Bridges) && Emits(b, Criteria) && Emits(c, Simplicity)
    ensures f in a + b + c <==> (match SectionOf(f.rule)
      case Bridges => f in a case Criteria => f in b case Simplicity => f in c case _ => false)
  {
    assert f in a + b + c <==> f in a || f in b || f in c;
  }

  /** What each section of the rules reports of a design. */
  ghost function Part(lower: string -> string, d: Design, level: Level, locked: bool, s: Sidecars, hash: string, section: Section)
    : seq<Finding>
  {
    match section
    case Opening => OpeningFindings(d, level)
    case Predictions => Each(Hypotheses(d), PredictionRule())
    case Discrimination => When(NeedsControls(level), Warned(lower, Pairs(Hypotheses(d))))
    case Outcomes => BranchFindings(d.branches)
    case Controls => When(NeedsControls(level), ControlFindings(d.controls, locked))
    case Genealogy => When(level == Genealogical, GenealogicalFindings(d, locked))
    case Causality => When(level == Causal, CausalFindings(d))
    case History => HistoryFindings(d, locked)
    case Contributions => ContributionFindings(d)
    case Bridges => Each(d.bridges, BridgeRule())
    case Criteria => Each(d.exclusionTests, CriterionRule())
    case Simplicity => Each(d.rivals, SimplicityRule())
    case Semantics => SemanticFindings(d, level, locked, s, hash)
  }

  predicate OfLevel(section: Section) {
    section.Opening? || section.Predictions? || section.Discrimination? || section.Outcomes? || section.Controls?
    || section.Genealogy? || section.Causality?
  }

  predicate OfDetails(section: Section) {
    section.Bridges? || section.Criteria? || section.Simplicity?
  }

  lemma LevelPart(lower: string -> string, d: Design, level: Level, locked: bool, s: Sidecars, hash: string, f: Finding)
    ensures f in LevelFindings(lower, d, level, locked)
            <==> OfLevel(SectionOf(f.rule)) && f in Part(lower, d, level, locked, s, hash, SectionOf(f.rule))
  {
    OpeningEmits(d, level);
    PredictionsEmit(Hypotheses(d));
    PairsEmit(lower, Hypotheses(d));
    ControlsEmit(d.controls, locked);
    GenealogyEmits(d, locked);
    CausalEmit(d);
    BranchesEmit(d.branches);
    WhenEmits(NeedsControls(level), Warned(lower, Pairs(Hypotheses(d))), Discrimination);
    WhenEmits(NeedsControls(level), ControlFindings(d.controls, locked), Controls);
    WhenEmits(level == Genealogical, GenealogicalFindings(d, locked), Genealogy);
    WhenEmits(level == Causal, CausalFindings(d), Causality);
    PickLevel(f, OpeningFindings(d, level), Each(Hypotheses(d), PredictionRule()),
              When(NeedsControls(level), Warned(lower, Pairs(Hypotheses(d)))), BranchFindings(d.branches),
              When(NeedsControls(level), ControlFindings(d.controls, locked)),
              When(level == Genealogical, GenealogicalFindings(d, locked)), When(level == Causal, CausalFindings(d)));
  }

  lemma DetailPart(lower: string -> string, d: Design, level: Level, locked: bool, s: Sidecars, hash: string, f: Finding)
    ensures f in DetailFindings(d)
            <==> OfDetails(SectionOf(f.rule)) && f in Part(lower, d, level, locked, s, hash, SectionOf(f.rule))
  {
    BridgesEmit(d.bridges);
    CriteriaEmit(d.exclusionTests);
    SimplicityEmits(d.rivals);
    PickDetail(f, Each(d.bridges, BridgeRule()), Each(d.exclusionTests, CriterionRule()), Each(d.rivals, SimplicityRule()));
  }

  lemma OtherParts(lower: string -> string, d: Design, level: Level, locked: bool, s: Sidecars, hash: string, f: Finding)
    ensures f in HistoryFindings(d, locked)
            <==> SectionOf(f.rule) == History && f in Part(lower, d, level, locked, s, hash, SectionOf(f.rule))
    ensures f in ContributionFindings(d)
            <==> SectionOf(f.rule) == Contributions && f in Part(lower, d, level, locked, s, hash, SectionOf(f.rule))
    ensures f in SemanticFindings(d, level, locked, s, hash)
            <==> SectionOf(f.rule) == Semantics && f in Part(lower, d, level, locked, s, hash, SectionOf(f.rule))
  {
    HistoryEmits(d, locked);
    ContributionsEmit(d);
    SemanticsEmit(d, level, locked, s, hash);
  }

  /** The parts of the audit, one after another: `part` is the list of the finding's own section. */
  lemma PickPart(f: Finding, part: seq<Finding>, levels: seq<Finding>, history: seq<Finding>, contributions: seq<Finding>,
                 details: seq<Finding>, semantics: seq<Finding>)
    requires f in levels <==> OfLevel(SectionOf(f.rule)) && f in part
    requires f in history <==> SectionOf(f.rule) == History && f in part
    requires f in contributions <==> SectionOf(f.rule) == Contributions && f in part
    requires f in details <==> OfDetails(SectionOf(f.rule)) && f in part
    requires f in semantics <==> SectionOf(f.rule) == Semantics && f in part
    ensures f in levels + history + contributions + details + semantics <==> f in part
  {
    assert f in levels + history + contributions + details + semantics
           <==> f in levels || f in history || f in contributions || f in details || f in semantics;
  }

  /** A finding is reported iff its own section of the rules reports it. */
  lemma FoundInItsSection(lower: string -> string, d: Design, level: Level, locked: bool, s: Sidecars, hash: string, f: Finding)
    ensures f in Findings(lower, d, level, locked, s, hash)
            <==> f in Part(lower, d, level, locked, s, hash, SectionOf(f.rule))
  {
    LevelPart(lower, d, level, locked, s, hash, f);
    DetailPart(lower, d, level, locked, s, hash, f);
    OtherParts(lower, d, level, locked, s, hash, f);
    PickPart(f, Part(lower, d, level, locked, s, hash, SectionOf(f.rule)), LevelFindings(lower, d, level, locked),
             HistoryFindings(d, locked), ContributionFindings(d), DetailFindings(d), SemanticFindings(d, level, locked, s, hash));
  }
}
