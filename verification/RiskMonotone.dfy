/** Locking a design and raising its policy level only add findings. */
module RiskMonotone {
  import opened Text
  import opened RiskFindings
  import opened RiskPairs
  import opened RiskRules

  // ----- what a lock adds -----

  function LockedControlRule(): (nat, Control) -> seq<Finding> {
    (i: nat, c: Control) => When(c.actual == Unreported, [Finding(ControlNotCompleted, ApprovalBlockers, At(i))])
  }

  function LockedRevisionRule(): (nat, Revision) -> seq<Finding> {
    (i: nat, r: Revision) => When(r.evidenceSeen && (r.makesEasier.None? || Blank(r.oldResult)),
                                  [Finding(PostHocRelaxation, Warnings, Whole)])
  }

  predicate Vague(tests: seq<string>) {
    tests == [] || exists k :: 0 <= k < |tests| && Blank(tests[k])
  }

  function LockedScopeRule(): (nat, Control) -> seq<Finding> {
    (i: nat, c: Control) => When(Vague(c.tests), [Finding(ControlOvergeneralized, ApprovalBlockers, At(i))])
  }

  function LockedLevelFindings(d: Design, level: Level): seq<Finding> {
    When(NeedsControls(level), When(d.controls == [], [Finding(ControlMissing, ApprovalBlockers, Whole)])
                               + Each(d.controls, LockedControlRule()))
    + When(level == Genealogical, UnfinishedReviews(d))
  }

  function LockedEvidenceFindings(d: Design, level: Level, s: Sidecars): seq<Finding> {
    var completed := IsDeep(level) && d.validationCompleted;
    When(completed && Contaminated(ObservationsOf(s)), Blocking(EvidenceContaminated, Whole))
    + When(NoneOpen(d), Blocking(NoOpenCondition, Whole))
    + When(completed && d.validationRequired && !ObservedAfterLock(ObservationsOf(s)), Blocking(PostLockMissing, Whole))
  }

  /** Everything the audit says of a locked design and not of its draft. */
  function LockFindings(d: Design, level: Level, s: Sidecars, hash: string): seq<Finding> {
    LockedLevelFindings(d, level)
    + (LockRecords(d) + Each(d.history, LockedRevisionRule()))
    + (LockedEvidenceFindings(d, level, s) + Each(d.controls, LockedScopeRule()) + HashFindings(s, hash))
  }

  lemma Together(a: seq<Finding>, draftA: seq<Finding>, lockA: seq<Finding>,
                 b: seq<Finding>, draftB: seq<Finding>, lockB: seq<Finding>)
    requires multiset(a) == multiset(draftA) + multiset(lockA) && multiset(b) == multiset(draftB) + multiset(lockB)
    ensures multiset(a + b) == multiset(draftA + draftB) + multiset(lockA + lockB)
  {
  }

  lemma Beside(a: seq<Finding>, draftA: seq<Finding>, lockA: seq<Finding>, same: seq<Finding>)
    requires multiset(a) == multiset(draftA) + multiset(lockA)
    ensures multiset(a + same) == multiset(draftA + same) + multiset(lockA)
  {
  }

  lemma ControlsSplit(controls: seq<Control>)
    ensures multiset(ControlFindings(controls, true))
            == multiset(ControlFindings(controls, false))
               + multiset(When(controls == [], [Finding(ControlMissing, ApprovalBlockers, Whole)]) + Each(controls, LockedControlRule()))
  {
    EachSplits(controls, ControlRule(true), ControlRule(false), LockedControlRule());
  }

  lemma LevelSplits(lower: string -> string, d: Design, level: Level)
    ensures multiset(LevelFindings(lower, d, level, true))
            == multiset(LevelFindings(lower, d, level, false)) + multiset(LockedLevelFindings(d, level))
  {
    ControlsSplit(d.controls);
  }

  lemma HistorySplits(d: Design)
    ensures multiset(HistoryFindings(d, true))
            == multiset(HistoryFindings(d, false)) + multiset(LockRecords(d) + Each(d.history, LockedRevisionRule()))
  {
    EachSplits(d.history, RevisionRule(true), RevisionRule(false), LockedRevisionRule());
  }

  lemma EvidenceSplits(d: Design, level: Level, s: Sidecars)
    ensures multiset(EvidenceFindings(d, level, true, s))
            == multiset(EvidenceFindings(d, level, false, s)) + multiset(LockedEvidenceFindings(d, level, s))
  {
  }

  lemma SemanticSplits(d: Design, level: Level, s: Sidecars, hash: string, other: string)
    ensures multiset(SemanticFindings(d, level, true, s, hash))
            == multiset(SemanticFindings(d, level, false, s, other))
               + multiset(LockedEvidenceFindings(d, level, s) + Each(d.controls, LockedScopeRule()) + HashFindings(s, hash))
  {
    var locked, draft := EvidenceFindings(d, level, true, s), EvidenceFindings(d, level, false, s);
    var added := LockedEvidenceFindings(d, level, s);
    EvidenceSplits(d, level, s);
    Beside(locked, draft, added, BridgeExcess(d));
    locked, draft := locked + BridgeExcess(d), draft + BridgeExcess(d);
    EachSplits(d.controls, ScopeRule(true), ScopeRule(false), LockedScopeRule());
    Together(locked, draft, added, Each(d.controls, ScopeRule(true)), Each(d.controls, ScopeRule(false)), Each(d.controls, LockedScopeRule()));
    locked, draft := locked + Each(d.controls, ScopeRule(true)), draft + Each(d.controls, ScopeRule(false));
    added := added + Each(d.controls, LockedScopeRule());
    var mixed := When(d.mixed, [Finding(ResultMixed, Errors, Whole)]);
    Beside(locked, draft, added, mixed);
    Beside(locked + mixed, draft + mixed, added, Each(EffectiveMaterials(d), RoleRule()));
    locked, draft := locked + mixed + Each(EffectiveMaterials(d), RoleRule()), draft + mixed + Each(EffectiveMaterials(d), RoleRule());
    Together(locked, draft, added, When(true, HashFindings(s, hash)), When(false, HashFindings(s, other)), HashFindings(s, hash));
  }

  /**
   Locking takes no finding away: the findings of the locked design are those of
   its draft and the ones listed for the lock, each as often as it occurs.
   */
  lemma LockAddsExactly(lower: string -> string, d: Design, level: Level, s: Sidecars, hash: string, other: string)
    ensures multiset(Findings(lower, d, level, true, s, hash))
            == multiset(Findings(lower, d, level, false, s, other)) + multiset(LockFindings(d, level, s, hash))
  {
    var locked, draft := LevelFindings(lower, d, level, true), LevelFindings(lower, d, level, false);
    var added := LockedLevelFindings(d, level);
    LevelSplits(lower, d, level);
    HistorySplits(d);
    Together(locked, draft, added, HistoryFindings(d, true), HistoryFindings(d, false), LockRecords(d) + Each(d.history, LockedRevisionRule()));
    locked, draft := locked + HistoryFindings(d, true), draft + HistoryFindings(d, false);
    added := added + (LockRecords(d) + Each(d.history, LockedRevisionRule()));
    Beside(locked, draft, added, ContributionFindings(d));
    locked, draft := locked + ContributionFindings(d), draft + ContributionFindings(d);
    Beside(locked, draft, added, DetailFindings(d));
    SemanticSplits(d, level, s, hash, other);
    Together(locked + DetailFindings(d), draft + DetailFindings(d), added,
             SemanticFindings(d, level, true, s, hash), SemanticFindings(d, level, false, s, other),
             LockedEvidenceFindings(d, level, s) + Each(d.controls, LockedScopeRule()) + HashFindings(s, hash));
  }

  /** For any document: whatever a draft is told, its locked design is told too. */
  lemma LockOnlyAdds(lower: string -> string, doc: Document, s: Sidecars, hash: string, other: string)
    ensures multiset(Audit(lower, doc.(locked := false), s, other)) <= multiset(Audit(lower, doc.(locked := true), s, hash))
  {
    var level := EffectiveLevel(doc);
    assert EffectiveLevel(doc.(locked := false)) == level && EffectiveLevel(doc.(locked := true)) == level;
    if level.Some? {
      LockAddsExactly(lower, doc.design, level.value, s, hash, other);
    }
  }

  /** The strict mode succeeds: nothing is an error and nothing blocks approval. */
  ghost predicate Passes(findings: seq<Finding>) {
    forall f :: f in findings ==> f.bucket != Errors && f.bucket != ApprovalBlockers
  }

  lemma PassesSplits(whole: seq<Finding>, draft: seq<Finding>, added: seq<Finding>)
    requires multiset(whole) == multiset(draft) + multiset(added)
    ensures Passes(whole) <==> Passes(draft) && Passes(added)
  {
    assert forall f :: f in whole <==> f in multiset(whole);
    assert forall f :: f in draft <==> f in multiset(draft);
    assert forall f :: f in added <==> f in multiset(added);
  }

  /** A locked design passes strictly iff its draft does and the lock itself adds no error or blocker. */
  lemma LockedPassesIff(lower: string -> string, d: Design, level: Level, s: Sidecars, hash: string)
    ensures Passes(Findings(lower, d, level, true, s, hash))
            <==> Passes(Findings(lower, d, level, false, s, hash)) && Passes(LockFindings(d, level, s, hash))
  {
    LockAddsExactly(lower, d, level, s, hash, hash);
    PassesSplits(Findings(lower, d, level, true, s, hash), Findings(lower, d, level, false, s, hash), LockFindings(d, level, s, hash));
  }

  // ----- what a level adds -----

  /** The rules that fired, with their buckets. */
  ghost function Kinds(findings: seq<Finding>): set<(Rule, Bucket)> {
    set f | f in findings :: (f.rule, f.bucket)
  }

  ghost predicate Covers(more: seq<Finding>, findings: seq<Finding>) {
    Kinds(findings) <= Kinds(more)
  }

  lemma CoversBoth(a: seq<Finding>, moreA: seq<Finding>, b: seq<Finding>, moreB: seq<Finding>)
    requires Covers(moreA, a) && Covers(moreB, b)
    ensures Covers(moreA + moreB, a + b)
  {
    forall kind | kind in Kinds(a + b) ensures kind in Kinds(moreA + moreB) {
      var f :| f in a + b && (f.rule, f.bucket) == kind;
      if f in a {
        assert kind in Kinds(a);
      } else {
        assert kind in Kinds(b);
      }
      if kind in Kinds(moreA) {
        var g :| g in moreA && (g.rule, g.bucket) == kind;
        assert g in moreA + moreB;
      } else {
        var g :| g in moreB && (g.rule, g.bucket) == kind;
        assert g in moreA + moreB;
      }
    }
  }

  /** Comparative is above interpretive, and genealogical and causal are each above both. */
  predicate Above(higher: Level, level: Level) {
    level == higher || level == Interpretive || (level == Comparative && IsDeep(higher))
  }

  lemma OpeningCovers(d: Design, level: Level, higher: Level)
    requires Above(higher, level)
    ensures Covers(OpeningFindings(d, higher), OpeningFindings(d, level))
  {
    var low, high := OpeningFindings(d, level), OpeningFindings(d, higher);
    forall f | f in low ensures (f.rule, f.bucket) in Kinds(high) {
      var g := if f.rule == RivalMissing then f.(place := Required(if higher == Genealogical then 2 else 1)) else f;
      assert g in high;
    }
  }

  lemma WhenCovers(condition: bool, stronger: bool, findings: seq<Finding>)
    requires condition ==> stronger
    ensures Covers(When(stronger, findings), When(condition, findings))
  {
  }

  lemma LevelCovers(lower: string -> string, d: Design, level: Level, higher: Level, locked: bool)
    requires Above(higher, level)
    ensures Covers(LevelFindings(lower, d, higher, locked), LevelFindings(lower, d, level, locked))
  {
    var low, high := OpeningFindings(d, level), OpeningFindings(d, higher);
    OpeningCovers(d, level, higher);
    var hs := Each(Hypotheses(d), PredictionRule());
    CoversBoth(low, high, hs, hs);
    low, high := low + hs, high + hs;
    var pairs := Warned(lower, Pairs(Hypotheses(d)));
    WhenCovers(NeedsControls(level), NeedsControls(higher), pairs);
    CoversBoth(low, high, When(NeedsControls(level), pairs), When(NeedsControls(higher), pairs));
    low, high := low + When(NeedsControls(level), pairs), high + When(NeedsControls(higher), pairs);
    CoversBoth(low, high, BranchFindings(d.branches), BranchFindings(d.branches));
    low, high := low + BranchFindings(d.branches), high + BranchFindings(d.branches);
    var controls := ControlFindings(d.controls, locked);
    WhenCovers(NeedsControls(level), NeedsControls(higher), controls);
    CoversBoth(low, high, When(NeedsControls(level), controls), When(NeedsControls(higher), controls));
    low, high := low + When(NeedsControls(level), controls), high + When(NeedsControls(higher), controls);
    var genealogical := GenealogicalFindings(d, locked);
    CoversBoth(low, high, When(level == Genealogical, genealogical), When(higher == Genealogical, genealogical));
    low, high := low + When(level == Genealogical, genealogical), high + When(higher == Genealogical, genealogical);
    CoversBoth(low, high, When(level == Causal, CausalFindings(d)), When(higher == Causal, CausalFindings(d)));
  }

  lemma SemanticCovers(d: Design, level: Level, higher: Level, locked: bool, s: Sidecars, hash: string)
    requires Above(higher, level)
    ensures Covers(SemanticFindings(d, higher, locked, s, hash), SemanticFindings(d, level, locked, s, hash))
  {
    var low, high := EvidenceFindings(d, level, locked, s), EvidenceFindings(d, higher, locked, s);
    assert forall f :: f in low ==> f in high;
    forall f | f in SemanticFindings(d, level, locked, s, hash) ensures f in SemanticFindings(d, higher, locked, s, hash) {
    }
  }

  /** Every rule that fires at a level fires, in the same bucket, at the levels above it. */
  lemma LevelsOnlyAdd(lower: string -> string, d: Design, level: Level, higher: Level, locked: bool, s: Sidecars, hash: string)
    requires Above(higher, level)
    ensures Kinds(Findings(lower, d, level, locked, s, hash)) <= Kinds(Findings(lower, d, higher, locked, s, hash))
  {
    var low, high := LevelFindings(lower, d, level, locked), LevelFindings(lower, d, higher, locked);
    LevelCovers(lower, d, level, higher, locked);
    CoversBoth(low, high, HistoryFindings(d, locked), HistoryFindings(d, locked));
    low, high := low + HistoryFindings(d, locked), high + HistoryFindings(d, locked);
    CoversBoth(low, high, ContributionFindings(d), ContributionFindings(d));
    low, high := low + ContributionFindings(d), high + ContributionFindings(d);
    CoversBoth(low, high, DetailFindings(d), DetailFindings(d));
    SemanticCovers(d, level, higher, locked, s, hash);
    CoversBoth(low + DetailFindings(d), high + DetailFindings(d),
               SemanticFindings(d, level, locked, s, hash), SemanticFindings(d, higher, locked, s, hash));
  }
}
