/**
 The rules of the research-risk audit.  A design can be a draft or locked, and
 the policy asks more of it from level to level.
 */
module RiskRules {
  import opened Wrappers
  import opened Text
  import opened RiskFindings
  import opened RiskPairs

  // ----- the policy -----

  /** One place the policy can be stated.  Either field may be missing; a stated level of None is "none". */
  datatype Policy = Policy(enabled: Option<bool>, level: Option<Option<Level>>)

  datatype Document = Document(policy: Policy, wrapper: Option<Policy>, locked: bool, design: Design)

  function OrElse<T>(stated: Option<T>, otherwise: T): T {
    match stated case Some(v) => v case None => otherwise
  }

  /** The level in force, if the audit is enabled; what the wrapper states comes before the document's own fields. */
  function EffectiveLevel(doc: Document): Option<Level> {
    var enabled, level := OrElse(doc.policy.enabled, true), OrElse(doc.policy.level, None);
    match doc.wrapper
    case None => if enabled then level else None
    case Some(w) => if OrElse(w.enabled, enabled) then OrElse(w.level, level) else None
  }

  predicate NeedsControls(level: Level) {
    level != Interpretive
  }

  predicate IsDeep(level: Level) {
    level == Genealogical || level == Causal
  }

  // ----- rules on single elements -----

  function PredictionRule(): (nat, Hypothesis) -> seq<Finding> {
    (i: nat, h: Hypothesis) => When(!(exists k :: 0 <= k < |h.predictions| && Usable(h.predictions[k])),
                               [Finding(PredictionsMissing, Warnings, Named(h.id))])
  }

  function ControlRule(locked: bool): (nat, Control) -> seq<Finding> {
    (i: nat, c: Control) =>
      When(Blank(c.reason) || Blank(c.expected), [Finding(ControlNotComparable, Warnings, At(i))])
      + When(!c.sameStandard, [Finding(ControlNotComparable, Warnings, StandardOf(i))])
      + When(c.actual == Unreported, [Finding(ControlNotCompleted, Warnings, At(i))])
      + When(c.actual == Unreported && locked, [Finding(ControlNotCompleted, ApprovalBlockers, At(i))])
      + When(c.actual == Passes, [Finding(ControlPasses, Errors, At(i))])
  }

  function HoldoutRule(): (nat, Material) -> seq<Finding> {
    (i: nat, m: Material) => When(m.role == Holdout && m.seenBeforeLock, Blocking(HoldoutContaminated, Whole))
  }

  /** A revision; only in a locked design must it be complete when evidence had been seen. */
  function RevisionRule(locked: bool): (nat, Revision) -> seq<Finding> {
    (i: nat, r: Revision) =>
      When(locked && r.evidenceSeen && (r.makesEasier.None? || Blank(r.oldResult)),
           [Finding(PostHocRelaxation, Warnings, Whole)])
      + When(Blank(r.oldResult), [Finding(ChangeReview, ReviewItems, Whole)])
  }

  function BridgeRule(): (nat, Bridge) -> seq<Finding> {
    (i: nat, b: Bridge) => When((b.overall == High || b.overall == Medium) && b.dimensions == map[],
                           [Finding(StrengthAggregated, Warnings, At(i))])
  }

  function CriterionRule(): (nat, string) -> seq<Finding> {
    (i: nat, exclusion: string) => When(Blank(exclusion), [Finding(ExclusionMissing, ReviewItems, At(i))])
  }

  function SimplicityRule(): (nat, Hypothesis) -> seq<Finding> {
    (i: nat, h: Hypothesis) => When(Blank(h.simplicityNote), [Finding(SimplicityReview, ReviewItems, At(i))])
  }

  function ScopeRule(locked: bool): (nat, Control) -> seq<Finding> {
    (i: nat, c: Control) =>
      var vague := c.tests == [] || exists k :: 0 <= k < |c.tests| && Blank(c.tests[k]);
      When(vague, [Finding(ControlOvergeneralized, Errors, At(i))])
      + When(vague && locked, [Finding(ControlOvergeneralized, ApprovalBlockers, At(i))])
  }

  function RoleRule(): (nat, Material) -> seq<Finding> {
    (i: nat, m: Material) => When(m.designImpacted != (m.role == DesignEvidence), [Finding(RoleStale, Errors, At(i))])
  }

  // ----- rules on the whole design -----

  predicate Validated(materials: seq<Material>) {
    exists k :: 0 <= k < |materials| && (materials[k].role == Validation || materials[k].role == Holdout)
  }

  predicate Discovered(materials: seq<Material>) {
    exists k :: 0 <= k < |materials| && (materials[k].role == Validation || materials[k].role == Discovery)
  }

  predicate HasKind(rivals: seq<Hypothesis>, kind: HypothesisKind) {
    exists k :: 0 <= k < |rivals| && rivals[k].kind == kind
  }

  function OpeningFindings(d: Design, level: Level): seq<Finding> {
    var required := if level == Genealogical then 2 else 1;
    When(!d.primary.riskBearing, Blocking(RiskBearingMissing, Whole))
    + When(Blank(d.primary.failureEffect), [Finding(FailureEffectMissing, Errors, Whole)])
    + When(|d.rivals| < required, Blocking(RivalMissing, Required(required)))
    + When(d.openAtLock == [], [Finding(FalsificationMissing, Errors, Whole)])
  }

  function BranchFindings(branches: seq<Branch>): seq<Finding> {
    if branches == [] then Blocking(BranchesMissing, Whole) else
    When(!(exists k :: 0 <= k < |branches| &&
             (branches[k].retractsPrimary || branches[k].changesContribution || branches[k].changesCenter)),
         Blocking(AllOutcomesPreserve, Whole))
  }

  function ControlsMissing(controls: seq<Control>, locked: bool): seq<Finding> {
    When(controls == [], [Finding(ControlMissing, Errors, Whole)])
    + When(controls == [] && locked, [Finding(ControlMissing, ApprovalBlockers, Whole)])
  }

  function ControlFindings(controls: seq<Control>, locked: bool): seq<Finding> {
    ControlsMissing(controls, locked) + Each(controls, ControlRule(locked))
  }

  function UnfinishedReviews(d: Design): seq<Finding> {
    When(d.validationRequired && !d.validationCompleted, [Finding(ValidationIncomplete, ApprovalBlockers, Whole)])
    + When(!d.adversarialCompleted, [Finding(AdversarialIncomplete, ApprovalBlockers, Whole)])
  }

  function MaterialFindings(materials: seq<Material>): seq<Finding> {
    if materials == [] then [Finding(MaterialsMissing, Errors, Whole)] else
    When(!Validated(materials), Blocking(ValidationOrHoldoutMissing, Whole)) + Each(materials, HoldoutRule())
  }

  function GenealogicalFindings(d: Design, locked: bool): seq<Finding> {
    MaterialFindings(EffectiveMaterials(d))
    + When(!HasKind(d.rivals, SharedSource), [Finding(SharedSourceMissing, Errors, Whole)])
    + When(d.chronologyOnly == [], [Finding(DiachronicMissing, Errors, Whole)])
    + When(locked, UnfinishedReviews(d))
  }

  predicate HasCounterfactual(hs: seq<Hypothesis>) {
    exists i, k :: 0 <= i < |hs| && 0 <= k < |hs[i].predictions| && hs[i].predictions[k].counterfactual
  }

  function CausalFindings(d: Design): seq<Finding> {
    When(d.mechanismChain == 0, [Finding(ChainMissing, Errors, Whole)])
    + When(!HasKind(d.rivals, AlternativeMechanism), [Finding(AlternativeMissing, Errors, Whole)])
    + When(d.mechanismFailures == 0, [Finding(FailureConditionsMissing, Errors, Whole)])
    + When(!HasCounterfactual(Hypotheses(d)), [Finding(CounterfactualMissing, Warnings, Whole)])
  }

  predicate Disclosed(d: Design) {
    exists k :: 0 <= k < |d.history| && d.history[k].toVersion == d.version
  }

  /** What a lock must record. */
  function LockRecords(d: Design): seq<Finding> {
    When(Blank(d.lockedAt), [Finding(LockedAtMissing, Errors, Whole)])
    + When(d.version > 1 && !Disclosed(d), Blocking(DriftUndisclosed, Whole))
  }

  function HistoryFindings(d: Design, locked: bool): seq<Finding> {
    When(locked, LockRecords(d)) + Each(d.history, RevisionRule(locked))
  }

  function ContributionFindings(d: Design): seq<Finding> {
    var c := d.contribution;
    var wrong := [Finding(ContributionMismatch, Errors, Claim(c))];
    When(c == NegativeResult && !(exists k :: 0 <= k < |d.branches| && d.branches[k].retractsPrimary), wrong)
    + When(c == GenealogicalExplanation && (d.chronologyOnly == [] || !Validated(EffectiveMaterials(d))), wrong)
    + When((c == TextualDiscovery || c == SourceDiscovery) && !Discovered(EffectiveMaterials(d)), wrong)
    + When(c == DisputeAdjudication && |d.rivals| < 2, wrong)
  }

  function DetailFindings(d: Design): seq<Finding> {
    Each(d.bridges, BridgeRule()) + Each(d.exclusionTests, CriterionRule()) + Each(d.rivals, SimplicityRule())
  }

  // ----- rules across the separate files -----

  function ObservationsOf(s: Sidecars): seq<Observation> {
    match s.results case None => [] case Some(r) => r.observations
  }

  /** The standing the results give a hypothesis; a later entry replaces an earlier one. */
  function StandingOf(standings: seq<(string, Standing)>, id: string): Option<Standing> {
    if standings == [] then None else
    var last := |standings| - 1;
    if standings[last].0 == id then Some(standings[last].1) else StandingOf(standings[..last], id)
  }

  predicate IsPositive(p: Positive) {
    p.afterLock && p.unknownAtLock && p.supportsPrimary && exists k :: 0 <= k < |p.against| && !Blank(p.against[k])
  }

  predicate SupportedByFailure(primary: Hypothesis, r: Results) {
    && StandingOf(r.standings, primary.id) in {Some(Supported), Some(PartiallySupported)}
    && !exists k :: 0 <= k < |r.positives| && IsPositive(r.positives[k])
  }

  predicate Contaminated(observations: seq<Observation>) {
    exists k :: 0 <= k < |observations| && observations[k].knownBeforeLock
  }

  predicate ObservedAfterLock(observations: seq<Observation>) {
    exists k :: 0 <= k < |observations| && !observations[k].knownBeforeLock && !Blank(observations[k].observedAt)
  }

  predicate Claims(d: Design, c: Contribution) {
    d.contribution == c || c in d.secondary
  }

  predicate OnlyChronology(d: Design) {
    && d.chronologyOnly != [] && (forall k :: 0 <= k < |d.chronologyOnly| ==> d.chronologyOnly[k])
    && (Claims(d, GenealogicalExplanation) || Claims(d, CausalExplanation))
  }

  /** The dimensions of all bridges; a later bridge replaces what an earlier one says. */
  function BridgeDimensions(bridges: seq<Bridge>): map<Dimension, Strength> {
    if bridges == [] then map[] else
    BridgeDimensions(bridges[..|bridges| - 1]) + bridges[|bridges| - 1].dimensions
  }

  predicate IsWeak(dimensions: map<Dimension, Strength>, d: Dimension) {
    d in dimensions && (dimensions[d] == Unproven || dimensions[d] == Low || dimensions[d] == Unresolved)
  }

  function BridgeExcess(d: Design): seq<Finding> {
    var dimensions := BridgeDimensions(d.bridges);
    When(Claims(d, GenealogicalExplanation) && IsWeak(dimensions, GenealogicalContinuity),
         [Finding(ExceedsBridge, Errors, Claim(GenealogicalExplanation))])
    + When(Claims(d, CausalExplanation) && IsWeak(dimensions, MechanismContinuity),
           [Finding(ExceedsBridge, Errors, Claim(CausalExplanation))])
  }

  predicate NoneOpen(d: Design) {
    forall k :: 0 <= k < |d.openAtLock| ==> !d.openAtLock[k]
  }

  /** What the two files owe to the design they were written against. */
  function HashFindings(s: Sidecars, hash: string): seq<Finding> {
    When(s.results.Some? && s.results.value.design != hash, Blocking(HashMismatch, InResults))
    + When(s.adjudication.Some? && s.adjudication.value != hash, Blocking(HashMismatch, InAdjudication))
  }

  function EvidenceFindings(d: Design, level: Level, locked: bool, s: Sidecars): seq<Finding> {
    var completed := locked && IsDeep(level) && d.validationCompleted;
    When(completed && Contaminated(ObservationsOf(s)), Blocking(EvidenceContaminated, Whole))
    + When(locked && NoneOpen(d), Blocking(NoOpenCondition, Whole))
    + When(s.results.Some? && SupportedByFailure(d.primary, s.results.value), Blocking(SupportedByFailureOnly, Whole))
    + When(completed && d.validationRequired && !ObservedAfterLock(ObservationsOf(s)), Blocking(PostLockMissing, Whole))
    + When(IsDeep(level) && OnlyChronology(d), Blocking(ChronologyUsed, Whole))
  }

  function SemanticFindings(d: Design, level: Level, locked: bool, s: Sidecars, hash: string): seq<Finding> {
    EvidenceFindings(d, level, locked, s)
    + BridgeExcess(d)
    + Each(d.controls, ScopeRule(locked))
    + When(d.mixed, [Finding(ResultMixed, Errors, Whole)])
    + Each(EffectiveMaterials(d), RoleRule())
    + When(locked, HashFindings(s, hash))
  }

  // ----- the audit -----

  ghost function LevelFindings(lower: string -> string, d: Design, level: Level, locked: bool): seq<Finding> {
    OpeningFindings(d, level)
    + Each(Hypotheses(d), PredictionRule())
    + When(NeedsControls(level), Warned(lower, Pairs(Hypotheses(d))))
    + BranchFindings(d.branches)
    + When(NeedsControls(level), ControlFindings(d.controls, locked))
    + When(level == Genealogical, GenealogicalFindings(d, locked))
    + When(level == Causal, CausalFindings(d))
  }

  ghost function Findings(lower: string -> string, d: Design, level: Level, locked: bool, s: Sidecars, hash: string): seq<Finding> {
    LevelFindings(lower, d, level, locked)
    + HistoryFindings(d, locked)
    + ContributionFindings(d)
    + DetailFindings(d)
    + SemanticFindings(d, level, locked, s, hash)
  }

  /** The findings for a document that passed the schema; `hash` is the hash of its design. */
  ghost function Audit(lower: string -> string, doc: Document, s: Sidecars, hash: string): seq<Finding> {
    match EffectiveLevel(doc)
    case None => []
    case Some(level) => Findings(lower, doc.design, level, doc.locked, s, hash)
  }

  method RunLevelRules(lower: string -> string, d: Design, level: Level, locked: bool) returns (findings: seq<Finding>)
    ensures findings == LevelFindings(lower, d, level, locked)
  {
    findings := AppendEach(OpeningFindings(d, level), Hypotheses(d), PredictionRule());
    var pairs, controls := [], [];
    if NeedsControls(level) {
      pairs := NondiscriminationFindings(lower, Hypotheses(d));
      controls := AppendEach(ControlsMissing(d.controls, locked), d.controls, ControlRule(locked));
    }
    findings := findings + pairs + BranchFindings(d.branches) + controls;
    findings := findings + When(level == Genealogical, GenealogicalFindings(d, locked));
    findings := findings + When(level == Causal, CausalFindings(d));
  }

  method RunDetailRules(d: Design) returns (findings: seq<Finding>)
    ensures findings == DetailFindings(d)
  {
    findings := AppendEach([], d.bridges, BridgeRule());
    assert findings == Each(d.bridges, BridgeRule());
    findings := AppendEach(findings, d.exclusionTests, CriterionRule());
    findings := AppendEach(findings, d.rivals, SimplicityRule());
  }

  /** _run_rules, whose loops append to one list. */
  method RunRules(lower: string -> string, d: Design, level: Level, locked: bool, s: Sidecars, hash: string)
    returns (findings: seq<Finding>)
    ensures findings == Findings(lower, d, level, locked, s, hash)
  {
    findings := RunLevelRules(lower, d, level, locked);
    var history := AppendEach(When(locked, LockRecords(d)), d.history, RevisionRule(locked));
    findings := findings + history + ContributionFindings(d);
    var details := RunDetailRules(d);
    findings := findings + details + SemanticFindings(d, level, locked, s, hash);
  }
}
