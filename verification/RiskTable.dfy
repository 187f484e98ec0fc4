/**
 The table of the audit: for every finding, what a design, its level and its
 result files must be for the audit to report it.
 */
module RiskTable {
  import opened Wrappers
  import opened Text
  import opened RiskFindings
  import opened RiskPairs
  import opened RiskRules
  import opened RiskSections
  import opened RiskLevels

  predicate Blocks(f: Finding) {
    f.bucket == Errors || f.bucket == ApprovalBlockers
  }

  // ----- the table -----

  predicate OpeningDue(f: Finding, d: Design, level: Level) {
    match f.rule
    case RiskBearingMissing => Blocks(f) && f.place == Whole && !d.primary.riskBearing
    case FailureEffectMissing => f.bucket == Errors && f.place == Whole && Blank(d.primary.failureEffect)
    case RivalMissing =>
      && Blocks(f)
      && (if level == Genealogical then f.place == Required(2) && |d.rivals| <= 1 else f.place == Required(1) && d.rivals == [])
    case FalsificationMissing => f.bucket == Errors && f.place == Whole && d.openAtLock == []
    case _ => false
  }

  predicate PredictsNothing(h: Hypothesis) {
    forall k :: 0 <= k < |h.predictions| ==> Blank(h.predictions[k].evidenceClass)
  }

  predicate PredictionsDue(f: Finding, d: Design) {
    && f.rule == PredictionsMissing && f.bucket == Warnings && f.place.Named?
    && ((d.primary.id == f.place.id && PredictsNothing(d.primary))
        || exists k :: 0 <= k < |d.rivals| && d.rivals[k].id == f.place.id && PredictsNothing(d.rivals[k]))
  }

  /** The first pair of hypotheses with these ids is told apart by no evidence. */
  ghost predicate PairDue(lower: string -> string, f: Finding, d: Design, level: Level) {
    && level != Interpretive && f.rule == NotDiscriminating && f.bucket == Warnings
    && exists k: nat :: k < |Pairs(Hypotheses(d))|
         && f.place == Between(Pairs(Hypotheses(d))[k].0.id, Pairs(Hypotheses(d))[k].1.id)
         && Settles(lower, Pairs(Hypotheses(d)), k, IdsOf(Pairs(Hypotheses(d))[k]))
  }

  predicate OutcomesDue(f: Finding, d: Design) {
    && Blocks(f) && f.place == Whole
    && match f.rule
       case BranchesMissing => d.branches == []
       case AllOutcomesPreserve =>
         d.branches != [] && forall k :: 0 <= k < |d.branches| ==>
           !d.branches[k].retractsPrimary && !d.branches[k].changesContribution && !d.branches[k].changesCenter
       case _ => false
  }

  predicate ControlsDue(f: Finding, d: Design, level: Level, locked: bool) {
    level != Interpretive && (match f.rule
    case ControlMissing => d.controls == [] && f.place == Whole && (f.bucket == Errors || (f.bucket == ApprovalBlockers && locked))
    case ControlNotComparable =>
      && f.bucket == Warnings
      && (match f.place
          case At(i) => i < |d.controls| && (Blank(d.controls[i].reason) || Blank(d.controls[i].expected))
          case StandardOf(i) => i < |d.controls| && !d.controls[i].sameStandard
          case _ => false)
    case ControlNotCompleted =>
      && (f.bucket == Warnings || (f.bucket == ApprovalBlockers && locked))
      && f.place.At? && f.place.index < |d.controls| && d.controls[f.place.index].actual == Unreported
    case ControlPasses =>
      f.bucket == Errors && f.place.At? && f.place.index < |d.controls| && d.controls[f.place.index].actual == Passes
    case _ => false)
  }

  predicate HasRole(d: Design, role: Role) {
    exists k :: 0 <= k < |d.materials| && d.materials[k].role == role
  }

  predicate MaterialsDue(f: Finding, d: Design) {
    f.place == Whole && (match f.rule
    case MaterialsMissing => f.bucket == Errors && d.materials == [] && d.holdoutsSeen == []
    case ValidationOrHoldoutMissing =>
      Blocks(f) && d.materials != [] && d.holdoutsSeen == [] && !HasRole(d, Validation) && !HasRole(d, Holdout)
    case HoldoutContaminated =>
      Blocks(f) && ((exists k :: 0 <= k < |d.materials| && d.materials[k].role == Holdout && d.materials[k].seenBeforeLock)
                    || exists k :: 0 <= k < |d.holdoutsSeen| && d.holdoutsSeen[k])
    case _ => false)
  }

  predicate ReviewsDue(f: Finding, d: Design, locked: bool) {
    locked && f.bucket == ApprovalBlockers && f.place == Whole && (match f.rule
    case ValidationIncomplete => d.validationRequired && !d.validationCompleted
    case AdversarialIncomplete => !d.adversarialCompleted
    case _ => false)
  }

  predicate GenealogyDue(f: Finding, d: Design, level: Level, locked: bool) {
    level == Genealogical && (match f.rule
    case SharedSourceMissing =>
      f.bucket == Errors && f.place == Whole && forall k :: 0 <= k < |d.rivals| ==> d.rivals[k].kind != SharedSource
    case DiachronicMissing => f.bucket == Errors && f.place == Whole && d.chronologyOnly == []
    case ValidationIncomplete | AdversarialIncomplete => ReviewsDue(f, d, locked)
    case _ => MaterialsDue(f, d))
  }

  predicate NoCounterfactual(h: Hypothesis) {
    forall k :: 0 <= k < |h.predictions| ==> !h.predictions[k].counterfactual
  }

  predicate CausalDue(f: Finding, d: Design, level: Level) {
    level == Causal && f.place == Whole && (match f.rule
    case ChainMissing => f.bucket == Errors && d.mechanismChain == 0
    case AlternativeMissing => f.bucket == Errors && forall k :: 0 <= k < |d.rivals| ==> d.rivals[k].kind != AlternativeMechanism
    case FailureConditionsMissing => f.bucket == Errors && d.mechanismFailures == 0
    case CounterfactualMissing =>
      f.bucket == Warnings && NoCounterfactual(d.primary) && forall k :: 0 <= k < |d.rivals| ==> NoCounterfactual(d.rivals[k])
    case _ => false)
  }

  predicate HistoryDue(f: Finding, d: Design, locked: bool) {
    f.place == Whole && (match f.rule
    case LockedAtMissing => locked && f.bucket == Errors && Blank(d.lockedAt)
    case DriftUndisclosed =>
      locked && Blocks(f) && d.version > 1 && forall k :: 0 <= k < |d.history| ==> d.history[k].toVersion != d.version
    case PostHocRelaxation =>
      locked && f.bucket == Warnings && exists k :: 0 <= k < |d.history| && d.history[k].evidenceSeen
                                                    && (d.history[k].makesEasier.None? || Blank(d.history[k].oldResult))
    case ChangeReview => f.bucket == ReviewItems && exists k :: 0 <= k < |d.history| && Blank(d.history[k].oldResult)
    case _ => false)
  }

  predicate ContributionDue(f: Finding, d: Design) {
    && f.rule == ContributionMismatch && f.bucket == Errors && f.place == Claim(d.contribution)
    && match d.contribution
       case NegativeResult => forall k :: 0 <= k < |d.branches| ==> !d.branches[k].retractsPrimary
       case GenealogicalExplanation =>
         d.chronologyOnly == [] || (d.holdoutsSeen == [] && !HasRole(d, Validation) && !HasRole(d, Holdout))
       case TextualDiscovery | SourceDiscovery => !HasRole(d, Validation) && !HasRole(d, Discovery)
       case DisputeAdjudication => |d.rivals| <= 1
       case _ => false
  }

  predicate DetailsDue(f: Finding, d: Design) {
    && f.place.At?
    && var i := f.place.index;
       match f.rule
       case StrengthAggregated =>
         && f.bucket == Warnings && i < |d.bridges| && (d.bridges[i].overall == High || d.bridges[i].overall == Medium)
         && d.bridges[i].dimensions == map[]
       case ExclusionMissing => f.bucket == ReviewItems && i < |d.exclusionTests| && Blank(d.exclusionTests[i])
       case SimplicityReview => f.bucket == ReviewItems && i < |d.rivals| && Blank(d.rivals[i].simplicityNote)
       case _ => false
  }

  predicate LastAt(standings: seq<(string, Standing)>, k: nat, id: string, standing: Standing) {
    k < |standings| && standings[k] == (id, standing) && forall j :: k < j < |standings| ==> standings[j].0 != id
  }

  ghost predicate LastStanding(standings: seq<(string, Standing)>, id: string, standing: Standing) {
    exists k: nat :: LastAt(standings, k, id, standing)
  }

  /** Evidence for the primary hypothesis, open at the lock and found after it, that speaks against a named rival. */
  predicate Discriminating(p: Positive) {
    p.afterLock && p.unknownAtLock && p.supportsPrimary && exists k :: 0 <= k < |p.against| && !Blank(p.against[k])
  }

  predicate StrengthAt(bridges: seq<Bridge>, k: nat, dimension: Dimension, strength: Strength) {
    && k < |bridges| && dimension in bridges[k].dimensions && bridges[k].dimensions[dimension] == strength
    && forall j :: k < j < |bridges| ==> dimension !in bridges[j].dimensions
  }

  ghost predicate LastStrength(bridges: seq<Bridge>, dimension: Dimension, strength: Strength) {
    exists k: nat :: StrengthAt(bridges, k, dimension, strength)
  }

  ghost predicate WeakBridge(bridges: seq<Bridge>, dimension: Dimension) {
    LastStrength(bridges, dimension, Unproven) || LastStrength(bridges, dimension, Low) || LastStrength(bridges, dimension, Unresolved)
  }

  predicate Claimed(d: Design, c: Contribution) {
    d.contribution == c || exists k :: 0 <= k < |d.secondary| && d.secondary[k] == c
  }

  predicate Validating(d: Design, level: Level, locked: bool) {
    locked && (level == Genealogical || level == Causal) && d.validationCompleted
  }

  /** Some observation was known before the lock. */
  predicate KnownTooEarly(s: Sidecars) {
    && s.results.Some?
    && exists k :: 0 <= k < |s.results.value.observations| && s.results.value.observations[k].knownBeforeLock
  }

  /** No observation was made after the lock. */
  predicate NothingObserved(s: Sidecars) {
    s.results.Some? ==> forall k :: 0 <= k < |s.results.value.observations| ==>
      s.results.value.observations[k].knownBeforeLock || Blank(s.results.value.observations[k].observedAt)
  }

  /** The results call the primary hypothesis supported, and no evidence in them discriminates. */
  ghost predicate SupportedByNothing(d: Design, s: Sidecars) {
    && s.results.Some?
    && (LastStanding(s.results.value.standings, d.primary.id, Supported)
        || LastStanding(s.results.value.standings, d.primary.id, PartiallySupported))
    && forall k :: 0 <= k < |s.results.value.positives| ==> !Discriminating(s.results.value.positives[k])
  }

  predicate ChronologyAlone(d: Design) {
    && d.chronologyOnly != [] && (forall k :: 0 <= k < |d.chronologyOnly| ==> d.chronologyOnly[k])
    && (Claimed(d, GenealogicalExplanation) || Claimed(d, CausalExplanation))
  }

  ghost predicate EvidenceDue(f: Finding, d: Design, level: Level, locked: bool, s: Sidecars) {
    Blocks(f) && f.place == Whole && (match f.rule
    case EvidenceContaminated => Validating(d, level, locked) && KnownTooEarly(s)
    case NoOpenCondition => locked && forall k :: 0 <= k < |d.openAtLock| ==> !d.openAtLock[k]
    case SupportedByFailureOnly => SupportedByNothing(d, s)
    case PostLockMissing => Validating(d, level, locked) && d.validationRequired && NothingObserved(s)
    case ChronologyUsed => (level == Genealogical || level == Causal) && ChronologyAlone(d)
    case _ => false)
  }

  ghost predicate ExcessDue(f: Finding, d: Design) {
    && f.bucket == Errors && f.place.Claim? && Claimed(d, f.place.contribution)
    && (match f.place.contribution
        case GenealogicalExplanation => WeakBridge(d.bridges, GenealogicalContinuity)
        case CausalExplanation => WeakBridge(d.bridges, MechanismContinuity)
        case _ => false)
  }

  predicate ScopeDue(f: Finding, controls: seq<Control>, locked: bool) {
    && (f.bucket == Errors || (f.bucket == ApprovalBlockers && locked))
    && f.place.At? && f.place.index < |controls|
    && (controls[f.place.index].tests == []
        || exists k :: 0 <= k < |controls[f.place.index].tests| && Blank(controls[f.place.index].tests[k]))
  }

  predicate RoleDue(f: Finding, materials: seq<Material>) {
    && f.bucket == Errors && f.place.At? && f.place.index < |materials|
    && (materials[f.place.index].designImpacted <==> materials[f.place.index].role != DesignEvidence)
  }

  predicate HashDue(f: Finding, s: Sidecars, hash: string) {
    && Blocks(f)
    && ((f.place == InResults && s.results.Some? && s.results.value.design != hash)
        || (f.place == InAdjudication && s.adjudication.Some? && s.adjudication.value != hash))
  }

  ghost predicate SemanticsDue(f: Finding, d: Design, level: Level, locked: bool, s: Sidecars, hash: string) {
    match f.rule
    case ExceedsBridge => ExcessDue(f, d)
    case ControlOvergeneralized => ScopeDue(f, d.controls, locked)
    case ResultMixed => f.bucket == Errors && f.place == Whole && d.mixed
    case RoleStale => RoleDue(f, d.materials)
    case HashMismatch => locked && HashDue(f, s, hash)
    case _ => EvidenceDue(f, d, level, locked, s)
  }

  /** Everything that the audit has to report of a design at a level, and nothing else. */
  ghost predicate IsDue(lower: string -> string, f: Finding, d: Design, level: Level, locked: bool, s: Sidecars, hash: string) {
    match SectionOf(f.rule)
    case Opening => OpeningDue(f, d, level)
    case Predictions => PredictionsDue(f, d)
    case Discrimination => PairDue(lower, f, d, level)
    case Outcomes => OutcomesDue(f, d)
    case Controls => ControlsDue(f, d, level, locked)
    case Genealogy => GenealogyDue(f, d, level, locked)
    case Causality => CausalDue(f, d, level)
    case History => HistoryDue(f, d, locked)
    case Contributions => ContributionDue(f, d)
    case Bridges | Criteria | Simplicity => DetailsDue(f, d)
    case Semantics => SemanticsDue(f, d, level, locked, s, hash)
  }

  // ----- one entry of a list -----

  lemma InBlock(f: Finding, condition: bool, rule: Rule, place: Place)
    ensures f in When(condition, Blocking(rule, place)) <==> condition && f.rule == rule && Blocks(f) && f.place == place
  {
  }

  lemma InOne(f: Finding, condition: bool, rule: Rule, bucket: Bucket, place: Place)
    ensures f in When(condition, [Finding(rule, bucket, place)])
            <==> condition && f.rule == rule && f.bucket == bucket && f.place == place
  {
  }

  lemma InTwo(f: Finding, a: seq<Finding>, b: seq<Finding>)
    ensures f in a + b <==> f in a || f in b
  {
  }

  lemma InFour(f: Finding, a: seq<Finding>, b: seq<Finding>, c: seq<Finding>, e: seq<Finding>)
    ensures f in a + b + c + e <==> f in a || f in b || f in c || f in e
  {
  }

  lemma InFive(f: Finding, a: seq<Finding>, b: seq<Finding>, c: seq<Finding>, e: seq<Finding>, g: seq<Finding>)
    ensures f in a + b + c + e + g <==> f in a || f in b || f in c || f in e || f in g
  {
  }

  lemma InSix(f: Finding, a: seq<Finding>, b: seq<Finding>, c: seq<Finding>, e: seq<Finding>, g: seq<Finding>, h: seq<Finding>)
    ensures f in a + b + c + e + g + h <==> f in a || f in b || f in c || f in e || f in g || f in h
  {
  }

  // ----- section by section -----

  lemma OpeningIff(f: Finding, d: Design, level: Level)
    ensures f in OpeningFindings(d, level) <==> OpeningDue(f, d, level)
  {
    var required := if level == Genealogical then 2 else 1;
    InFour(f, When(!d.primary.riskBearing, Blocking(RiskBearingMissing, Whole)),
           When(Blank(d.primary.failureEffect), [Finding(FailureEffectMissing, Errors, Whole)]),
           When(|d.rivals| < required, Blocking(RivalMissing, Required(required))),
           When(d.openAtLock == [], [Finding(FalsificationMissing, Errors, Whole)]));
    InBlock(f, !d.primary.riskBearing, RiskBearingMissing, Whole);
    InOne(f, Blank(d.primary.failureEffect), FailureEffectMissing, Errors, Whole);
    InBlock(f, |d.rivals| < required, RivalMissing, Required(required));
    InOne(f, d.openAtLock == [], FalsificationMissing, Errors, Whole);
  }

  lemma PredictionRuleIff(f: Finding, i: nat, h: Hypothesis)
    ensures f in PredictionRule()(i, h) <==> f == Finding(PredictionsMissing, Warnings, Named(h.id)) && PredictsNothing(h)
  {
  }

  lemma PredictionsIff(f: Finding, d: Design)
    ensures f in Each(Hypotheses(d), PredictionRule()) <==> PredictionsDue(f, d)
  {
    var hs := Hypotheses(d);
    InEachIff(hs, PredictionRule(), f);
    forall i: nat | i < |hs| ensures f in PredictionRule()(i, hs[i])
      <==> f == Finding(PredictionsMissing, Warnings, Named(hs[i].id)) && PredictsNothing(hs[i])
    {
      PredictionRuleIff(f, i, hs[i]);
    }
    assert hs[0] == d.primary && forall k :: 0 <= k < |d.rivals| ==> hs[k + 1] == d.rivals[k];
    if PredictionsDue(f, d) && !(d.primary.id == f.place.id && PredictsNothing(d.primary)) {
      var k :| 0 <= k < |d.rivals| && d.rivals[k].id == f.place.id && PredictsNothing(d.rivals[k]);
      assert f in PredictionRule()(k + 1, hs[k + 1]);
    }
  }

  lemma OutcomesIff(f: Finding, d: Design)
    ensures f in BranchFindings(d.branches) <==> OutcomesDue(f, d)
  {
    var changed := exists k :: 0 <= k < |d.branches| &&
                     (d.branches[k].retractsPrimary || d.branches[k].changesContribution || d.branches[k].changesCenter);
    InBlock(f, true, BranchesMissing, Whole);
    InBlock(f, !changed, AllOutcomesPreserve, Whole);
  }

  ghost predicate WarnedAt(lower: string -> string, pairs: seq<HypothesisPair>, k: nat, f: Finding) {
    k < |pairs| && f == Warning(pairs[k]) && Settles(lower, pairs, k, IdsOf(pairs[k]))
  }

  lemma WarnedEarlier(lower: string -> string, pairs: seq<HypothesisPair>, k: nat, f: Finding)
    requires k < |pairs| - 1
    ensures WarnedAt(lower, pairs[..|pairs| - 1], k, f) <==> WarnedAt(lower, pairs, k, f)
  {
    SettledEarlier(lower, pairs, k, IdsOf(pairs[k]));
  }

  lemma {:induction false} WarnedIff(lower: string -> string, pairs: seq<HypothesisPair>, f: Finding)
    ensures f in Warned(lower, pairs) <==> exists k: nat :: WarnedAt(lower, pairs, k, f)
  {
    if pairs != [] {
      var last := |pairs| - 1;
      WarnedIff(lower, pairs[..last], f);
      InTwo(f, Warned(lower, pairs[..last]), Latest(lower, pairs));
      LatestIff(lower, pairs, f);
      forall k: nat | k < last ensures WarnedAt(lower, pairs[..last], k, f) <==> WarnedAt(lower, pairs, k, f) {
        WarnedEarlier(lower, pairs, k, f);
      }
    }
  }

  lemma LatestIff(lower: string -> string, pairs: seq<HypothesisPair>, f: Finding)
    requires pairs != []
    ensures var last := |pairs| - 1;
            f in Latest(lower, pairs) <==> WarnedAt(lower, pairs, last, f)
  {
  }

  lemma PairsIff(lower: string -> string, f: Finding, d: Design, level: Level)
    ensures f in When(NeedsControls(level), Warned(lower, Pairs(Hypotheses(d)))) <==> PairDue(lower, f, d, level)
  {
    var pairs := Pairs(Hypotheses(d));
    WarnedIff(lower, pairs, f);
    if PairDue(lower, f, d, level) {
      var k: nat :| k < |pairs| && f.place == Between(pairs[k].0.id, pairs[k].1.id) && Settles(lower, pairs, k, IdsOf(pairs[k]));
      assert WarnedAt(lower, pairs, k, f);
    }
  }

  lemma ControlRuleIff(f: Finding, locked: bool, i: nat, c: Control)
    ensures f in ControlRule(locked)(i, c) <==>
            || (f == Finding(ControlNotComparable, Warnings, At(i)) && (Blank(c.reason) || Blank(c.expected)))
            || (f == Finding(ControlNotComparable, Warnings, StandardOf(i)) && !c.sameStandard)
            || (f == Finding(ControlNotCompleted, Warnings, At(i)) && c.actual == Unreported)
            || (f == Finding(ControlNotCompleted, ApprovalBlockers, At(i)) && c.actual == Unreported && locked)
            || (f == Finding(ControlPasses, Errors, At(i)) && c.actual == Passes)
  {
    var a := When(Blank(c.reason) || Blank(c.expected), [Finding(ControlNotComparable, Warnings, At(i))]);
    var b := When(!c.sameStandard, [Finding(ControlNotComparable, Warnings, StandardOf(i))]);
    var e := When(c.actual == Unreported, [Finding(ControlNotCompleted, Warnings, At(i))]);
    var g := When(c.actual == Unreported && locked, [Finding(ControlNotCompleted, ApprovalBlockers, At(i))]);
    var h := When(c.actual == Passes, [Finding(ControlPasses, Errors, At(i))]);
    InFive(f, a, b, e, g, h);
  }

  predicate ControlDue(f: Finding, locked: bool, i: nat, c: Control) {
    || (f.rule == ControlNotComparable && f.bucket == Warnings && f.place == At(i) && (Blank(c.reason) || Blank(c.expected)))
    || (f.rule == ControlNotComparable && f.bucket == Warnings && f.place == StandardOf(i) && !c.sameStandard)
    || (f.rule == ControlNotCompleted && (f.bucket == Warnings || (f.bucket == ApprovalBlockers && locked)) && f.place == At(i)
        && c.actual == Unreported)
    || (f.rule == ControlPasses && f.bucket == Errors && f.place == At(i) && c.actual == Passes)
  }

  lemma EachControlIff(f: Finding, controls: seq<Control>, locked: bool)
    ensures f in Each(controls, ControlRule(locked)) <==> exists i: nat :: i < |controls| && ControlDue(f, locked, i, controls[i])
  {
    InEachIff(controls, ControlRule(locked), f);
    forall i: nat | i < |controls| ensures f in ControlRule(locked)(i, controls[i]) <==> ControlDue(f, locked, i, controls[i]) {
      ControlRuleIff(f, locked, i, controls[i]);
    }
  }

  lemma NoControlsIff(f: Finding, controls: seq<Control>, locked: bool)
    ensures f in ControlsMissing(controls, locked) <==>
            f.rule == ControlMissing && f.place == Whole && controls == [] && (f.bucket == Errors || (f.bucket == ApprovalBlockers && locked))
  {
    InTwo(f, When(controls == [], [Finding(ControlMissing, Errors, Whole)]),
          When(controls == [] && locked, [Finding(ControlMissing, ApprovalBlockers, Whole)]));
  }

  lemma SomeControlIff(f: Finding, d: Design, level: Level, locked: bool)
    requires level != Interpretive
    ensures (exists i: nat :: i < |d.controls| && ControlDue(f, locked, i, d.controls[i]))
            <==> ControlsDue(f, d, level, locked) && f.rule != ControlMissing
  {
    if ControlsDue(f, d, level, locked) && f.rule != ControlMissing {
      var i := if f.place.At? then f.place.index else if f.place.StandardOf? then f.place.index else 0;
      assert ControlDue(f, locked, i, d.controls[i]);
    }
  }

  lemma ControlsIff(f: Finding, d: Design, level: Level, locked: bool)
    ensures f in When(NeedsControls(level), ControlFindings(d.controls, locked)) <==> ControlsDue(f, d, level, locked)
  {
    if level != Interpretive {
      InTwo(f, ControlsMissing(d.controls, locked), Each(d.controls, ControlRule(locked)));
      NoControlsIff(f, d.controls, locked);
      EachControlIff(f, d.controls, locked);
      SomeControlIff(f, d, level, locked);
    }
  }

  // ----- materials -----

  lemma Materials(d: Design)
    ensures EffectiveMaterials(d) == [] <==> d.materials == [] && d.holdoutsSeen == []
    ensures Validated(EffectiveMaterials(d)) <==> d.holdoutsSeen != [] || HasRole(d, Validation) || HasRole(d, Holdout)
    ensures Discovered(EffectiveMaterials(d)) <==> HasRole(d, Validation) || HasRole(d, Discovery)
  {
    var ms := EffectiveMaterials(d);
    assert forall k :: 0 <= k < |d.materials| ==> ms[k] == d.materials[k];
    assert forall k :: 0 <= k < |d.holdoutsSeen| ==> ms[|d.materials| + k] == Material(Holdout, d.holdoutsSeen[k], false);
    if d.holdoutsSeen != [] {
      assert ms[|d.materials|].role == Holdout;
    }
  }

  lemma HoldoutsIff(f: Finding, d: Design)
    ensures f in Each(EffectiveMaterials(d), HoldoutRule()) <==>
            f.rule == HoldoutContaminated && Blocks(f) && f.place == Whole
            && ((exists k :: 0 <= k < |d.materials| && d.materials[k].role == Holdout && d.materials[k].seenBeforeLock)
                || exists k :: 0 <= k < |d.holdoutsSeen| && d.holdoutsSeen[k])
  {
    var ms := EffectiveMaterials(d);
    InEachIff(ms, HoldoutRule(), f);
    forall i: nat | i < |ms| ensures f in HoldoutRule()(i, ms[i])
      <==> ms[i].role == Holdout && ms[i].seenBeforeLock && f.rule == HoldoutContaminated && Blocks(f) && f.place == Whole
    {
      InBlock(f, ms[i].role == Holdout && ms[i].seenBeforeLock, HoldoutContaminated, Whole);
    }
    assert forall k :: 0 <= k < |d.materials| ==> ms[k] == d.materials[k];
    assert forall k :: 0 <= k < |d.holdoutsSeen| ==> ms[|d.materials| + k] == Material(Holdout, d.holdoutsSeen[k], false);
  }

  lemma MaterialsIff(f: Finding, d: Design)
    ensures f in MaterialFindings(EffectiveMaterials(d)) <==>
            MaterialsDue(f, d)
  {
    Materials(d);
    HoldoutsIff(f, d);
    InBlock(f, !Validated(EffectiveMaterials(d)), ValidationOrHoldoutMissing, Whole);
    InTwo(f, When(!Validated(EffectiveMaterials(d)), Blocking(ValidationOrHoldoutMissing, Whole)), Each(EffectiveMaterials(d), HoldoutRule()));
  }

  lemma ReviewsIff(f: Finding, d: Design, locked: bool)
    ensures f in When(locked, UnfinishedReviews(d)) <==>
            ReviewsDue(f, d, locked)
  {
    InTwo(f, When(d.validationRequired && !d.validationCompleted, [Finding(ValidationIncomplete, ApprovalBlockers, Whole)]),
          When(!d.adversarialCompleted, [Finding(AdversarialIncomplete, ApprovalBlockers, Whole)]));
  }

  lemma GenealogyGates(f: Finding, d: Design, shared: bool, dated: bool, locked: bool)
    ensures f in MaterialFindings(EffectiveMaterials(d)) + When(!shared, [Finding(SharedSourceMissing, Errors, Whole)])
                 + When(!dated, [Finding(DiachronicMissing, Errors, Whole)]) + When(locked, UnfinishedReviews(d))
            <==> MaterialsDue(f, d) || ReviewsDue(f, d, locked) || (f == Finding(SharedSourceMissing, Errors, Whole) && !shared)
                 || (f == Finding(DiachronicMissing, Errors, Whole) && !dated)
  {
    InFour(f, MaterialFindings(EffectiveMaterials(d)), When(!shared, [Finding(SharedSourceMissing, Errors, Whole)]),
           When(!dated, [Finding(DiachronicMissing, Errors, Whole)]), When(locked, UnfinishedReviews(d)));
    MaterialsIff(f, d);
    ReviewsIff(f, d, locked);
  }

  lemma GenealogyIff(f: Finding, d: Design, level: Level, locked: bool)
    ensures f in When(level == Genealogical, GenealogicalFindings(d, locked)) <==> GenealogyDue(f, d, level, locked)
  {
    GenealogyGates(f, d, HasKind(d.rivals, SharedSource), d.chronologyOnly != [], locked);
  }

  lemma CounterfactualIff(d: Design)
    ensures HasCounterfactual(Hypotheses(d))
            <==> !(NoCounterfactual(d.primary) && forall k :: 0 <= k < |d.rivals| ==> NoCounterfactual(d.rivals[k]))
  {
    var hs := Hypotheses(d);
    assert hs[0] == d.primary && forall k :: 0 <= k < |d.rivals| ==> hs[k + 1] == d.rivals[k];
    if HasCounterfactual(hs) {
      var i, k :| 0 <= i < |hs| && 0 <= k < |hs[i].predictions| && hs[i].predictions[k].counterfactual;
      assert !NoCounterfactual(hs[i]);
      assert i > 0 ==> hs[i] == d.rivals[i - 1];
    }
  }

  lemma CausalIff(f: Finding, d: Design, level: Level)
    ensures f in When(level == Causal, CausalFindings(d)) <==> CausalDue(f, d, level)
  {
    InFour(f, When(d.mechanismChain == 0, [Finding(ChainMissing, Errors, Whole)]),
           When(!HasKind(d.rivals, AlternativeMechanism), [Finding(AlternativeMissing, Errors, Whole)]),
           When(d.mechanismFailures == 0, [Finding(FailureConditionsMissing, Errors, Whole)]),
           When(!HasCounterfactual(Hypotheses(d)), [Finding(CounterfactualMissing, Warnings, Whole)]));
    CounterfactualIff(d);
  }

  // ----- records and contributions -----

  lemma RevisionIff(f: Finding, locked: bool, i: nat, r: Revision)
    ensures f in RevisionRule(locked)(i, r) <==>
            || (locked && f == Finding(PostHocRelaxation, Warnings, Whole) && r.evidenceSeen && (r.makesEasier.None? || Blank(r.oldResult)))
            || (f == Finding(ChangeReview, ReviewItems, Whole) && Blank(r.oldResult))
  {
    InTwo(f, When(locked && r.evidenceSeen && (r.makesEasier.None? || Blank(r.oldResult)), [Finding(PostHocRelaxation, Warnings, Whole)]),
          When(Blank(r.oldResult), [Finding(ChangeReview, ReviewItems, Whole)]));
  }

  lemma LocksIff(f: Finding, d: Design, locked: bool)
    ensures f in When(locked, LockRecords(d)) <==> f.rule in {LockedAtMissing, DriftUndisclosed} && HistoryDue(f, d, locked)
  {
    InTwo(f, When(Blank(d.lockedAt), [Finding(LockedAtMissing, Errors, Whole)]),
          When(d.version > 1 && !Disclosed(d), Blocking(DriftUndisclosed, Whole)));
    InBlock(f, d.version > 1 && !Disclosed(d), DriftUndisclosed, Whole);
  }

  predicate RevisionDue(f: Finding, locked: bool, r: Revision) {
    && f.place == Whole
    && ((locked && f.rule == PostHocRelaxation && f.bucket == Warnings && r.evidenceSeen && (r.makesEasier.None? || Blank(r.oldResult)))
        || (f.rule == ChangeReview && f.bucket == ReviewItems && Blank(r.oldResult)))
  }

  lemma RevisionsIff(f: Finding, d: Design, locked: bool)
    ensures f in Each(d.history, RevisionRule(locked)) <==> exists i: nat :: i < |d.history| && RevisionDue(f, locked, d.history[i])
  {
    InEachIff(d.history, RevisionRule(locked), f);
    forall i: nat | i < |d.history| ensures f in RevisionRule(locked)(i, d.history[i]) <==> RevisionDue(f, locked, d.history[i]) {
      RevisionIff(f, locked, i, d.history[i]);
    }
  }

  lemma HistoryIff(f: Finding, d: Design, locked: bool)
    ensures f in HistoryFindings(d, locked) <==> HistoryDue(f, d, locked)
  {
    InTwo(f, When(locked, LockRecords(d)), Each(d.history, RevisionRule(locked)));
    LocksIff(f, d, locked);
    RevisionsIff(f, d, locked);
  }

  lemma ContributionIff(f: Finding, d: Design)
    ensures f in ContributionFindings(d) <==> ContributionDue(f, d)
  {
    var c := d.contribution;
    Materials(d);
    InFour(f, When(c == NegativeResult && !(exists k :: 0 <= k < |d.branches| && d.branches[k].retractsPrimary),
                   [Finding(ContributionMismatch, Errors, Claim(c))]),
           When(c == GenealogicalExplanation && (d.chronologyOnly == [] || !Validated(EffectiveMaterials(d))),
                [Finding(ContributionMismatch, Errors, Claim(c))]),
           When((c == TextualDiscovery || c == SourceDiscovery) && !Discovered(EffectiveMaterials(d)),
                [Finding(ContributionMismatch, Errors, Claim(c))]),
           When(c == DisputeAdjudication && |d.rivals| < 2, [Finding(ContributionMismatch, Errors, Claim(c))]));
  }

  lemma BridgesIff(f: Finding, d: Design)
    ensures f in Each(d.bridges, BridgeRule()) <==> f.rule == StrengthAggregated && DetailsDue(f, d)
  {
    InEachIff(d.bridges, BridgeRule(), f);
    forall i: nat | i < |d.bridges| ensures f in BridgeRule()(i, d.bridges[i]) <==>
      f == Finding(StrengthAggregated, Warnings, At(i)) && (d.bridges[i].overall == High || d.bridges[i].overall == Medium)
      && d.bridges[i].dimensions == map[]
    {
      InOne(f, (d.bridges[i].overall == High || d.bridges[i].overall == Medium) && d.bridges[i].dimensions == map[],
            StrengthAggregated, Warnings, At(i));
    }
  }

  lemma CriteriaIff(f: Finding, d: Design)
    ensures f in Each(d.exclusionTests, CriterionRule()) <==> f.rule == ExclusionMissing && DetailsDue(f, d)
  {
    BlankCriteria(d.exclusionTests, f);
  }

  lemma SimplicityIff(f: Finding, d: Design)
    ensures f in Each(d.rivals, SimplicityRule()) <==> f.rule == SimplicityReview && DetailsDue(f, d)
  {
    BlankNotes(d.rivals, f);
  }

  // ----- rules across the separate files -----

  lemma StandingEarlier(standings: seq<(string, Standing)>, k: nat, id: string, standing: Standing)
    requires standings != [] && k < |standings| - 1
    ensures LastAt(standings, k, id, standing)
            <==> LastAt(standings[..|standings| - 1], k, id, standing) && standings[|standings| - 1].0 != id
  {
    var init := standings[..|standings| - 1];
    assert forall j :: 0 <= j < |init| ==> init[j] == standings[j];
  }

  lemma {:induction false} StandingIff(standings: seq<(string, Standing)>, id: string, standing: Standing)
    ensures StandingOf(standings, id) == Some(standing) <==> LastStanding(standings, id, standing)
  {
    if standings != [] {
      var last := |standings| - 1;
      StandingIff(standings[..last], id, standing);
      forall k: nat | k < last
        ensures LastAt(standings, k, id, standing) <==> LastAt(standings[..last], k, id, standing) && standings[last].0 != id
      {
        StandingEarlier(standings, k, id, standing);
      }
      assert LastAt(standings, last, id, standing) <==> standings[last] == (id, standing);
    }
  }

  lemma StrengthEarlier(bridges: seq<Bridge>, k: nat, dimension: Dimension, strength: Strength)
    requires bridges != [] && k < |bridges| - 1
    ensures StrengthAt(bridges, k, dimension, strength)
            <==> StrengthAt(bridges[..|bridges| - 1], k, dimension, strength) && dimension !in bridges[|bridges| - 1].dimensions
  {
    var init := bridges[..|bridges| - 1];
    assert forall j :: 0 <= j < |init| ==> init[j] == bridges[j];
  }

  lemma {:induction false} StrengthIff(bridges: seq<Bridge>, dimension: Dimension, strength: Strength)
    ensures dimension in BridgeDimensions(bridges) && BridgeDimensions(bridges)[dimension] == strength
            <==> LastStrength(bridges, dimension, strength)
  {
    if bridges != [] {
      var last := |bridges| - 1;
      StrengthIff(bridges[..last], dimension, strength);
      forall k: nat | k < last
        ensures StrengthAt(bridges, k, dimension, strength)
                <==> StrengthAt(bridges[..last], k, dimension, strength) && dimension !in bridges[last].dimensions
      {
        StrengthEarlier(bridges, k, dimension, strength);
      }
      assert StrengthAt(bridges, last, dimension, strength)
             <==> dimension in bridges[last].dimensions && bridges[last].dimensions[dimension] == strength;
    }
  }

  lemma WeakIff(d: Design, dimension: Dimension)
    ensures IsWeak(BridgeDimensions(d.bridges), dimension) <==> WeakBridge(d.bridges, dimension)
  {
    StrengthIff(d.bridges, dimension, Unproven);
    StrengthIff(d.bridges, dimension, Low);
    StrengthIff(d.bridges, dimension, Unresolved);
  }

  lemma ClaimsIff(d: Design, c: Contribution)
    ensures Claims(d, c) <==> Claimed(d, c)
  {
  }

  lemma ExcessGates(f: Finding, a: bool, b: bool)
    ensures f in When(a, [Finding(ExceedsBridge, Errors, Claim(GenealogicalExplanation))])
                 + When(b, [Finding(ExceedsBridge, Errors, Claim(CausalExplanation))])
            <==> f.rule == ExceedsBridge && f.bucket == Errors
                 && ((a && f.place == Claim(GenealogicalExplanation)) || (b && f.place == Claim(CausalExplanation)))
  {
    InTwo(f, When(a, [Finding(ExceedsBridge, Errors, Claim(GenealogicalExplanation))]),
          When(b, [Finding(ExceedsBridge, Errors, Claim(CausalExplanation))]));
  }

  lemma ExcessIff(f: Finding, d: Design)
    ensures f in BridgeExcess(d) <==> f.rule == ExceedsBridge && ExcessDue(f, d)
  {
    var weak := BridgeDimensions(d.bridges);
    WeakIff(d, GenealogicalContinuity);
    WeakIff(d, MechanismContinuity);
    ClaimsIff(d, GenealogicalExplanation);
    ClaimsIff(d, CausalExplanation);
    ExcessGates(f, Claims(d, GenealogicalExplanation) && IsWeak(weak, GenealogicalContinuity),
                Claims(d, CausalExplanation) && IsWeak(weak, MechanismContinuity));
  }

  lemma FailureIff(d: Design, s: Sidecars)
    ensures s.results.Some? && SupportedByFailure(d.primary, s.results.value) <==> SupportedByNothing(d, s)
  {
    if s.results.Some? {
      var r := s.results.value;
      StandingIff(r.standings, d.primary.id, Supported);
      StandingIff(r.standings, d.primary.id, PartiallySupported);
      assert forall k :: 0 <= k < |r.positives| ==> (IsPositive(r.positives[k]) <==> Discriminating(r.positives[k]));
    }
  }

  lemma EvidenceGates(f: Finding, a: bool, b: bool, c: bool, e: bool, g: bool)
    ensures f in When(a, Blocking(EvidenceContaminated, Whole)) + When(b, Blocking(NoOpenCondition, Whole))
                 + When(c, Blocking(SupportedByFailureOnly, Whole)) + When(e, Blocking(PostLockMissing, Whole))
                 + When(g, Blocking(ChronologyUsed, Whole))
            <==> Blocks(f) && f.place == Whole && ((f.rule == EvidenceContaminated && a) || (f.rule == NoOpenCondition && b)
                   || (f.rule == SupportedByFailureOnly && c) || (f.rule == PostLockMissing && e) || (f.rule == ChronologyUsed && g))
  {
    InFive(f, When(a, Blocking(EvidenceContaminated, Whole)), When(b, Blocking(NoOpenCondition, Whole)),
           When(c, Blocking(SupportedByFailureOnly, Whole)), When(e, Blocking(PostLockMissing, Whole)),
           When(g, Blocking(ChronologyUsed, Whole)));
    InBlock(f, a, EvidenceContaminated, Whole);
    InBlock(f, b, NoOpenCondition, Whole);
    InBlock(f, c, SupportedByFailureOnly, Whole);
    InBlock(f, e, PostLockMissing, Whole);
    InBlock(f, g, ChronologyUsed, Whole);
  }

  lemma ObservationsIff(s: Sidecars)
    ensures Contaminated(ObservationsOf(s)) <==> KnownTooEarly(s)
    ensures !ObservedAfterLock(ObservationsOf(s)) <==> NothingObserved(s)
  {
  }

  lemma ChronologyIff(d: Design)
    ensures OnlyChronology(d) <==> ChronologyAlone(d)
  {
    ClaimsIff(d, GenealogicalExplanation);
    ClaimsIff(d, CausalExplanation);
  }

  /** When each of the five rules speaks. */
  lemma EvidenceGuards(d: Design, level: Level, locked: bool, s: Sidecars) returns (a: bool, b: bool, c: bool, e: bool, g: bool)
    ensures a <==> Validating(d, level, locked) && KnownTooEarly(s)
    ensures b <==> locked && forall k :: 0 <= k < |d.openAtLock| ==> !d.openAtLock[k]
    ensures c <==> SupportedByNothing(d, s)
    ensures e <==> Validating(d, level, locked) && d.validationRequired && NothingObserved(s)
    ensures g <==> (level == Genealogical || level == Causal) && ChronologyAlone(d)
    ensures EvidenceFindings(d, level, locked, s) ==
            When(a, Blocking(EvidenceContaminated, Whole)) + When(b, Blocking(NoOpenCondition, Whole))
            + When(c, Blocking(SupportedByFailureOnly, Whole)) + When(e, Blocking(PostLockMissing, Whole))
            + When(g, Blocking(ChronologyUsed, Whole))
  {
    var completed := locked && IsDeep(level) && d.validationCompleted;
    a, b := completed && Contaminated(ObservationsOf(s)), locked && NoneOpen(d);
    c := s.results.Some? && SupportedByFailure(d.primary, s.results.value);
    e := completed && d.validationRequired && !ObservedAfterLock(ObservationsOf(s));
    g := IsDeep(level) && OnlyChronology(d);
    FailureIff(d, s);
    ObservationsIff(s);
    ChronologyIff(d);
  }

  lemma EvidenceIff(f: Finding, d: Design, level: Level, locked: bool, s: Sidecars)
    ensures f in EvidenceFindings(d, level, locked, s) <==> EvidenceDue(f, d, level, locked, s)
  {
    var a, b, c, e, g := EvidenceGuards(d, level, locked, s);
    EvidenceGates(f, a, b, c, e, g);
  }

  predicate Vague(c: Control) {
    c.tests == [] || exists k :: 0 <= k < |c.tests| && Blank(c.tests[k])
  }

  lemma ScopeIff(f: Finding, locked: bool, i: nat, c: Control)
    ensures f in ScopeRule(locked)(i, c) <==>
            && f.rule == ControlOvergeneralized && f.place == At(i) && (f.bucket == Errors || (f.bucket == ApprovalBlockers && locked))
            && Vague(c)
  {
    InTwo(f, When(Vague(c), [Finding(ControlOvergeneralized, Errors, At(i))]),
          When(Vague(c) && locked, [Finding(ControlOvergeneralized, ApprovalBlockers, At(i))]));
  }

  lemma ScopesIff(f: Finding, controls: seq<Control>, locked: bool)
    ensures f in Each(controls, ScopeRule(locked)) <==> f.rule == ControlOvergeneralized && ScopeDue(f, controls, locked)
  {
    InEachIff(controls, ScopeRule(locked), f);
    forall i: nat | i < |controls| ensures f in ScopeRule(locked)(i, controls[i]) <==>
      && f.rule == ControlOvergeneralized && f.place == At(i) && (f.bucket == Errors || (f.bucket == ApprovalBlockers && locked))
      && Vague(controls[i])
    {
      ScopeIff(f, locked, i, controls[i]);
    }
  }

  lemma RoleIff(f: Finding, i: nat, m: Material)
    ensures f in RoleRule()(i, m) <==> f == Finding(RoleStale, Errors, At(i)) && (m.designImpacted <==> m.role != DesignEvidence)
  {
  }

  lemma RolesIff(f: Finding, d: Design)
    ensures f in Each(EffectiveMaterials(d), RoleRule()) <==> f.rule == RoleStale && RoleDue(f, d.materials)
  {
    var ms := EffectiveMaterials(d);
    InEachIff(ms, RoleRule(), f);
    assert forall k :: 0 <= k < |d.materials| ==> ms[k] == d.materials[k];
    forall i: nat | i < |ms| ensures f in RoleRule()(i, ms[i]) <==> f == Finding(RoleStale, Errors, At(i)) && RoleDue(f, d.materials) {
      RoleIff(f, i, ms[i]);
    }
  }

  lemma HashesIff(f: Finding, s: Sidecars, hash: string)
    ensures f in HashFindings(s, hash) <==> f.rule == HashMismatch && HashDue(f, s, hash)
  {
    var a, b := s.results.Some? && s.results.value.design != hash, s.adjudication.Some? && s.adjudication.value != hash;
    InTwo(f, When(a, Blocking(HashMismatch, InResults)), When(b, Blocking(HashMismatch, InAdjudication)));
    InBlock(f, a, HashMismatch, InResults);
    InBlock(f, b, HashMismatch, InAdjudication);
  }

  lemma SemanticRows(f: Finding, d: Design, level: Level, locked: bool, s: Sidecars, hash: string)
    ensures SemanticsDue(f, d, level, locked, s, hash) <==>
            || (f.rule == ExceedsBridge && ExcessDue(f, d))
            || (f.rule == ControlOvergeneralized && ScopeDue(f, d.controls, locked))
            || (f.rule == ResultMixed && f.bucket == Errors && f.place == Whole && d.mixed)
            || (f.rule == RoleStale && RoleDue(f, d.materials))
            || (f.rule == HashMismatch && locked && HashDue(f, s, hash))
            || EvidenceDue(f, d, level, locked, s)
  {
  }

  lemma SemanticsIff(f: Finding, d: Design, level: Level, locked: bool, s: Sidecars, hash: string)
    ensures f in SemanticFindings(d, level, locked, s, hash) <==> SemanticsDue(f, d, level, locked, s, hash)
  {
    var hashes := When(locked, HashFindings(s, hash));
    InSix(f, EvidenceFindings(d, level, locked, s), BridgeExcess(d), Each(d.controls, ScopeRule(locked)),
          When(d.mixed, [Finding(ResultMixed, Errors, Whole)]), Each(EffectiveMaterials(d), RoleRule()), hashes);
    EvidenceIff(f, d, level, locked, s);
    ExcessIff(f, d);
    ScopesIff(f, d.controls, locked);
    InOne(f, d.mixed, ResultMixed, Errors, Whole);
    RolesIff(f, d);
    HashesIff(f, s, hash);
    SemanticRows(f, d, level, locked, s, hash);
  }

  // ----- the whole audit -----

  lemma LevelPartIff(lower: string -> string, d: Design, level: Level, locked: bool, s: Sidecars, hash: string, f: Finding)
    requires OfLevel(SectionOf(f.rule))
    ensures f in Part(lower, d, level, locked, s, hash, SectionOf(f.rule)) <==> IsDue(lower, f, d, level, locked, s, hash)
  {
    match SectionOf(f.rule)
    case Opening => OpeningIff(f, d, level);
    case Predictions => PredictionsIff(f, d);
    case Discrimination => PairsIff(lower, f, d, level);
    case Outcomes => OutcomesIff(f, d);
    case Controls => ControlsIff(f, d, level, locked);
    case Genealogy => GenealogyIff(f, d, level, locked);
    case Causality => CausalIff(f, d, level);
  }

  lemma OtherPartIff(lower: string -> string, d: Design, level: Level, locked: bool, s: Sidecars, hash: string, f: Finding)
    requires !OfLevel(SectionOf(f.rule))
    ensures f in Part(lower, d, level, locked, s, hash, SectionOf(f.rule)) <==> IsDue(lower, f, d, level, locked, s, hash)
  {
    match SectionOf(f.rule)
    case History => HistoryIff(f, d, locked);
    case Contributions => ContributionIff(f, d);
    case Bridges => BridgesIff(f, d);
    case Criteria => CriteriaIff(f, d);
    case Simplicity => SimplicityIff(f, d);
    case Semantics => SemanticsIff(f, d, level, locked, s, hash);
  }

  /** The audit reports exactly what the table says. */
  lemma ReportedIffDue(lower: string -> string, d: Design, level: Level, locked: bool, s: Sidecars, hash: string, f: Finding)
    ensures f in Findings(lower, d, level, locked, s, hash) <==> IsDue(lower, f, d, level, locked, s, hash)
  {
    FoundInItsSection(lower, d, level, locked, s, hash, f);
    if OfLevel(SectionOf(f.rule)) {
      LevelPartIff(lower, d, level, locked, s, hash, f);
    } else {
      OtherPartIff(lower, d, level, locked, s, hash, f);
    }
  }

  /** The level asked for, and not switched off; the wrapper has the first word on both, and the document where it is silent. */
  predicate InForce(doc: Document, level: Level) {
    match doc.wrapper
    case None => doc.policy.level == Some(Some(level)) && doc.policy.enabled != Some(false)
    case Some(w) =>
      && (w.level == Some(Some(level)) || (w.level == None && doc.policy.level == Some(Some(level))))
      && (w.enabled == Some(true) || (w.enabled == None && doc.policy.enabled != Some(false)))
  }

  /** A document that passed the schema gets exactly the findings that are due at the level in force. */
  lemma AuditReportsIff(lower: string -> string, doc: Document, s: Sidecars, hash: string, f: Finding)
    ensures f in Audit(lower, doc, s, hash)
            <==> exists level :: InForce(doc, level) && IsDue(lower, f, doc.design, level, doc.locked, s, hash)
  {
    var level := EffectiveLevel(doc);
    assert forall l :: InForce(doc, l) <==> level == Some(l);
    if level.Some? {
      ReportedIffDue(lower, doc.design, level.value, doc.locked, s, hash, f);
    }
  }
}
