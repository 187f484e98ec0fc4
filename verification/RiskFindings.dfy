/**
 The documents of the research-risk audit, as they are once they have passed
 the schema, and the findings the audit makes about them.
 */
module RiskFindings {
  import opened Wrappers

  // ----- the design -----

  datatype Level = Interpretive | Comparative | Genealogical | Causal

  datatype HypothesisKind = SharedSource | AlternativeMechanism | OtherKind

  datatype Prediction = Prediction(evidenceClass: string, observation: string, counterfactual: bool)

  datatype Hypothesis = Hypothesis(id: string, kind: HypothesisKind, riskBearing: bool, failureEffect: string,
                                   predictions: seq<Prediction>, simplicityNote: string)

  datatype Outcome = Unreported | Passes | OtherOutcome

  datatype Control = Control(reason: string, expected: string, sameStandard: bool, actual: Outcome, tests: seq<string>)

  datatype Branch = Branch(retractsPrimary: bool, changesContribution: bool, changesCenter: bool)

  datatype Role = Discovery | DesignEvidence | Holdout | Validation | OtherRole

  datatype Material = Material(role: Role, seenBeforeLock: bool, designImpacted: bool)

  datatype Revision = Revision(toVersion: int, evidenceSeen: bool, makesEasier: Option<bool>, oldResult: string)

  datatype Contribution = TextualDiscovery | SourceDiscovery | GenealogicalExplanation | CausalExplanation
                        | DisputeAdjudication | NegativeResult | OtherContribution

  datatype Strength = High | Medium | Low | Unresolved | Unproven | OtherStrength

  datatype Dimension = GenealogicalContinuity | MechanismContinuity | OtherDimension(name: string)

  datatype Bridge = Bridge(overall: Strength, dimensions: map<Dimension, Strength>)

  datatype Design = Design(
    version: int, lockedAt: string,
    primary: Hypothesis, rivals: seq<Hypothesis>,
    openAtLock: seq<bool>,
    exclusionTests: seq<string>,
    chronologyOnly: seq<bool>, mechanismChain: nat, mechanismFailures: nat,
    materials: seq<Material>, holdoutsSeen: seq<bool>,
    controls: seq<Control>, branches: seq<Branch>,
    contribution: Contribution, secondary: seq<Contribution>,
    bridges: seq<Bridge>,
    adversarialCompleted: bool, validationRequired: bool, validationCompleted: bool,
    history: seq<Revision>, mixed: bool)

  function Hypotheses(d: Design): seq<Hypothesis> {
    [d.primary] + d.rivals
  }

  /** The materials, with the holdout sources among them. */
  function EffectiveMaterials(d: Design): seq<Material> {
    d.materials + seq(|d.holdoutsSeen|, i requires 0 <= i < |d.holdoutsSeen| => Material(Holdout, d.holdoutsSeen[i], false))
  }

  // ----- the separate result files -----

  datatype Standing = Supported | PartiallySupported | OtherStanding

  datatype Positive = Positive(afterLock: bool, unknownAtLock: bool, supportsPrimary: bool, against: seq<string>)

  datatype Observation = Observation(knownBeforeLock: bool, observedAt: string)

  datatype Results = Results(design: string, standings: seq<(string, Standing)>, positives: seq<Positive>,
                             observations: seq<Observation>)

  /** The result file and the design hash of the adjudication file, where they are given. */
  datatype Sidecars = Sidecars(results: Option<Results>, adjudication: Option<string>)

  // ----- findings -----

  datatype Bucket = Errors | Warnings | ReviewItems | ApprovalBlockers

  datatype Rule =
    | RiskBearingMissing | FailureEffectMissing | RivalMissing | FalsificationMissing | PredictionsMissing
    | NotDiscriminating | BranchesMissing | AllOutcomesPreserve | ControlMissing | ControlNotComparable
    | ControlNotCompleted | ControlPasses | MaterialsMissing | ValidationOrHoldoutMissing | HoldoutContaminated
    | SharedSourceMissing | DiachronicMissing | ValidationIncomplete | AdversarialIncomplete | ChainMissing
    | AlternativeMissing | FailureConditionsMissing | CounterfactualMissing | LockedAtMissing | DriftUndisclosed
    | PostHocRelaxation | ChangeReview | ContributionMismatch | StrengthAggregated | ExclusionMissing
    | SimplicityReview | EvidenceContaminated | NoOpenCondition | SupportedByFailureOnly | PostLockMissing
    | ChronologyUsed | ExceedsBridge | ControlOvergeneralized | ResultMixed | RoleStale | HashMismatch

  /** What tells two findings of one rule apart: the variable part of their message and path. */
  datatype Place = Whole | At(index: nat) | StandardOf(index: nat) | Named(id: string) | Between(first: string, second: string)
                 | Required(count: nat) | Claim(contribution: Contribution) | InResults | InAdjudication

  datatype Finding = Finding(rule: Rule, bucket: Bucket, place: Place)

  function When(condition: bool, findings: seq<Finding>): seq<Finding> {
    if condition then findings else []
  }

  /** An error that also blocks approval. */
  function Blocking(rule: Rule, place: Place): seq<Finding> {
    [Finding(rule, Errors, place), Finding(rule, ApprovalBlockers, place)]
  }

  /** What a rule finds in each element of a list, in order. */
  function Each<T>(items: seq<T>, rule: (nat, T) -> seq<Finding>): seq<Finding> {
    if items == [] then [] else
    var last := |items| - 1;
    Each(items[..last], rule) + rule(last, items[last])
  }

  /** The loop every such rule is in the source. */
  method AppendEach<T>(before: seq<Finding>, items: seq<T>, rule: (nat, T) -> seq<Finding>) returns (findings: seq<Finding>)
    ensures findings == before + Each(items, rule)
  {
    findings := before;
    for i := 0 to |items|
      invariant findings == before + Each(items[..i], rule)
    {
      assert items[..i + 1][..i] == items[..i];
      findings := findings + rule(i, items[i]);
    }
    assert items[..|items|] == items;
  }

  /** A rule that splits pointwise splits over the whole list. */
  lemma {:induction false} EachSplits<T(!new)>(items: seq<T>, whole: (nat, T) -> seq<Finding>,
                                               part: (nat, T) -> seq<Finding>, rest: (nat, T) -> seq<Finding>)
    requires forall i: nat, x: T :: multiset(whole(i, x)) == multiset(part(i, x)) + multiset(rest(i, x))
    ensures multiset(Each(items, whole)) == multiset(Each(items, part)) + multiset(Each(items, rest))
  {
    if items != [] {
      var last := |items| - 1;
      EachSplits(items[..last], whole, part, rest);
    }
  }
}
