/**
 What whole runs show beyond single steps: an item is accepted before anything
 supersedes it, however it came to be accepted, and two runs from the empty
 database that reach the states the lifecycle does not want.
 */
module ApprovalRuns {
  import opened Wrappers
  import opened Text
  import opened Corpus
  import opened Store
  import opened Effects
  import opened Checkpoints
  import opened Approvals

  // ----- successors come after acceptance, approved or inserted -----

  ghost predicate AcceptedIn(s: Store, i: Id) {
    i in s.items && s.items[i].status == Accepted
  }

  ghost function Before(lim: Limits, steps: seq<Step>, k: nat): Store
    requires k <= |steps|
  {
    Run(EMPTY_STORE, lim, steps[..k])
  }

  /** Step `k` of the run is the one that makes `i` accepted, by a decision or by its insertion. */
  ghost predicate AcceptsAt(lim: Limits, steps: seq<Step>, k: nat, i: Id) {
    k < |steps| && !AcceptedIn(Before(lim, steps, k), i) && AcceptedIn(Before(lim, steps, k + 1), i)
  }

  ghost predicate InsertsAt(lim: Limits, steps: seq<Step>, m: nat, j: Id) {
    m < |steps| && j !in Before(lim, steps, m).items && j in Before(lim, steps, m + 1).items
  }

  /** The last step of a run, and the run without it. */
  lemma LastStep(lim: Limits, steps: seq<Step>)
    requires steps != []
    ensures var n := |steps| - 1;
            Before(lim, steps, n + 1) == Run(EMPTY_STORE, lim, steps) == Apply(Before(lim, steps, n), lim, steps[n])
  {
    var n := |steps| - 1;
    RunAppend(EMPTY_STORE, lim, steps[..n], steps[n]);
    assert steps[..n] + [steps[n]] == steps == steps[..n + 1];
  }

  /** What a step of the beginning of a run does, it does in the run. */
  lemma EarlierSteps(lim: Limits, steps: seq<Step>, n: nat, k: nat, i: Id)
    requires n <= |steps|
    ensures AcceptsAt(lim, steps[..n], k, i) ==> AcceptsAt(lim, steps, k, i)
    ensures InsertsAt(lim, steps[..n], k, i) ==> InsertsAt(lim, steps, k, i)
  {
    if k < n {
      assert steps[..n][..k] == steps[..k] && steps[..n][..k + 1] == steps[..k + 1];
    }
  }

  /** A step that inserts an item leaves the others as they were. */
  lemma InsertionSpares(s: Store, lim: Limits, step: Step, i: Id, j: Id)
    requires GovernanceInv(s) && j !in s.items && Supersedes(Apply(s, lim, step), j, i)
    ensures i in s.items && i in Apply(s, lim, step).items && Apply(s, lim, step).items[i] == s.items[i]
  {
    var t := Apply(s, lim, step);
    StepKeepsGovernance(s, lim, step);
    TargetExists(t, j);
    match Creation(step)
    case Some((a, n)) =>
      CreationIsInsertion(s, lim, step);
      InsertionEffect(s, lim, a, n);
    case None => OtherStepsKeepShape(s, lim, step);
  }

  lemma DecisionSparesSuperseded(s: Store, a: Actor, id: Id, approve: bool, i: Id, j: Id)
    requires GovernanceInv(s) && Supersedes(s, j, i) && !AcceptedIn(s, i)
    ensures !AcceptedIn(Commit(s, DecideApproval(s, a, id, approve)), i)
  {
    TargetExists(s, j);
    DecidingEffect(s, a, id, approve);
    if DecideApproval(s, a, id, approve).Done? {
      var k := FindPending(s.requests, id).value;
      DecidedTables(s, a, k, approve);
      assert s.requests[k].target == ItemTarget(i) ==> HasProjectSuccessor(s, s.requests[k].project, i);
    }
  }

  lemma FilingSparesSuperseded(s: Store, lim: Limits, a: Actor, project: Id, target: Target, id: Id, i: Id)
    requires i in s.items && !AcceptedIn(s, i)
    ensures !AcceptedIn(Commit(s, RequestApproval(s, lim, a, project, target, id)), i)
  {
    FilingEffect(s, lim, a, project, target, id);
  }

  /** A superseded item that is not yet accepted is not accepted by the next step either. */
  lemma SupersededIsNotAccepted(s: Store, lim: Limits, step: Step, i: Id, j: Id)
    requires GovernanceInv(s) && Supersedes(s, j, i) && !AcceptedIn(s, i)
    ensures !AcceptedIn(Apply(s, lim, step), i)
  {
    TargetExists(s, j);
    match Creation(step)
    case Some((a, n)) => CreationIsInsertion(s, lim, step);
    case None =>
      match step
      case DoRequestApproval(a, p, g, x) => FilingSparesSuperseded(s, lim, a, p, g, x, i);
      case DoDecideApproval(a, x, ok) => DecisionSparesSuperseded(s, a, x, ok, i, j);
      case _ => ItemsUntouched(s, lim, step);
  }

  lemma LinksStay(s: Store, lim: Limits, step: Step, i: Id, j: Id)
    requires j in s.items && Supersedes(Apply(s, lim, step), j, i)
    ensures Supersedes(s, j, i)
  {
    match Creation(step)
    case Some((a, n)) =>
      CreationIsInsertion(s, lim, step);
      if CreateItem(s, lim, a, n).Done? {
        InsertionEffect(s, lim, a, n);
      }
    case None => OtherStepsKeepShape(s, lim, step);
  }

  /** A step leaves an accepted item with a successor only if the item was accepted before it. */
  lemma AcceptedBefore(s: Store, lim: Limits, step: Step, i: Id, j: Id)
    requires GovernanceInv(s) && AcceptedIn(Apply(s, lim, step), i) && Supersedes(Apply(s, lim, step), j, i)
    ensures AcceptedIn(s, i) && (j in s.items ==> Supersedes(s, j, i))
  {
    if j in s.items {
      LinksStay(s, lim, step, i, j);
      if !AcceptedIn(s, i) {
        SupersededIsNotAccepted(s, lim, step, i, j);
      }
    } else {
      InsertionSpares(s, lim, step, i, j);
    }
  }

  /** An accepted item was made accepted by some step of the run. */
  lemma {:induction false} AcceptedSometime(lim: Limits, steps: seq<Step>, i: Id) returns (k: nat)
    requires AcceptedIn(Run(EMPTY_STORE, lim, steps), i)
    ensures AcceptsAt(lim, steps, k, i)
    decreases |steps|
  {
    var n := |steps| - 1;
    LastStep(lim, steps);
    k := n;
    if AcceptedIn(Before(lim, steps, n), i) {
      k := AcceptedSometime(lim, steps[..n], i);
      EarlierSteps(lim, steps, n, k, i);
    }
  }

  lemma GovernedBefore(lim: Limits, steps: seq<Step>, n: nat)
    requires n <= |steps|
    ensures GovernanceInv(Before(lim, steps, n))
  {
    assert forall p :: Line(EMPTY_STORE, p);
    RunKeepsGovernance(EMPTY_STORE, lim, steps[..n]);
  }

  /**
   An accepted item with a successor was accepted first: the step that accepted
   it, an approval or an administrator's insertion, comes before the step that
   inserted the successor.
   */
  lemma {:induction false} AcceptanceComesFirst(lim: Limits, steps: seq<Step>, i: Id, j: Id) returns (k: nat, m: nat)
    requires AcceptedIn(Run(EMPTY_STORE, lim, steps), i) && Supersedes(Run(EMPTY_STORE, lim, steps), j, i)
    ensures k < m && AcceptsAt(lim, steps, k, i) && InsertsAt(lim, steps, m, j)
    decreases |steps|
  {
    var n := |steps| - 1;
    LastStep(lim, steps);
    GovernedBefore(lim, steps, n);
    AcceptedBefore(Before(lim, steps, n), lim, steps[n], i, j);
    if j in Before(lim, steps, n).items {
      k, m := AcceptanceComesFirst(lim, steps[..n], i, j);
      EarlierSteps(lim, steps, n, m, j);
    } else {
      m := n;
      k := AcceptedSometime(lim, steps[..n], i);
    }
    EarlierSteps(lim, steps, n, k, i);
  }

  // ----- two runs that leave the lifecycle -----

  const ADMIN := Actor("", "", User, true)

  lemma RunOfTwo(s: Store, lim: Limits, first: Step, second: Step)
    ensures Run(s, lim, [first, second]) == Apply(Apply(s, lim, first), lim, second)
  {
    var steps := [first, second];
    assert steps[1..] == [second] && [second][1..] == [];
    assert Run(Apply(s, lim, first), lim, [second]) == Run(Apply(Apply(s, lim, first), lim, second), lim, []);
  }

  lemma {:induction false} RunInTwo(s: Store, lim: Limits, first: seq<Step>, second: seq<Step>)
    ensures Run(s, lim, first + second) == Run(Run(s, lim, first), lim, second)
    decreases |first|
  {
    if first == [] {
      assert first + second == second;
    } else {
      assert (first + second)[1..] == first[1..] + second;
      RunInTwo(Apply(s, lim, first[0]), lim, first[1..], second);
    }
  }

  /** An administrator puts an item straight under review: no request is open for it. */
  lemma ReviewWithoutRequest(lim: Limits, content: string)
    ensures var s := Run(EMPTY_STORE, lim, [DoCreateProject(ADMIN, 0), DoHypothesis(ADMIN, 1, 0, UnderReview, content, [], None)]);
            1 in s.items && s.items[1].status == UnderReview && forall k :: !OpenFor(s, 1, k)
  {
    RunOfTwo(EMPTY_STORE, lim, DoCreateProject(ADMIN, 0), DoHypothesis(ADMIN, 1, 0, UnderReview, content, [], None));
  }

  /** One file for two projects. */
  function Sharing(text: string): seq<Step> {
    var file := Upload(0, 0, "", "", [0], [text]);
    [DoCreateProject(ADMIN, 0), DoCreateProject(ADMIN, 1)] + [DoIngestFile(ADMIN, 0, file), DoIngestFile(ADMIN, 1, file)]
  }

  /** A quotation from it becomes evidence. */
  function Quoting(text: string): seq<Step> {
    [DoVerifyQuote(ADMIN, 0, 0, text, 0, "", 0), DoSubmitEvidence(ADMIN, 0, "", 0, 0)]
  }

  /** Each project asks for a decision on it. */
  function Asking(): seq<Step> {
    [DoRequestApproval(ADMIN, 0, EvidenceTarget(0), 0), DoRequestApproval(ADMIN, 1, EvidenceTarget(0), 1)]
  }

  ghost predicate IsShared(s: Store, text: string) {
    && IsActive(s, 0) && IsActive(s, 1)
    && s.corpus == Corpus(map[0 := Document(0, "", Some(""))], [Passage(0, 0, 1, text)], {(0, 0), (1, 0)})
    && s.tokens == map[] && s.evidence == map[] && s.history == [] && s.requests == []
  }

  lemma SharingShares(lim: Limits, text: string)
    ensures IsShared(Run(EMPTY_STORE, lim, Sharing(text)), text)
  {
    var file := Upload(0, 0, "", "", [0], [text]);
    RunInTwo(EMPTY_STORE, lim, [DoCreateProject(ADMIN, 0), DoCreateProject(ADMIN, 1)],
             [DoIngestFile(ADMIN, 0, file), DoIngestFile(ADMIN, 1, file)]);
    RunOfTwo(EMPTY_STORE, lim, DoCreateProject(ADMIN, 0), DoCreateProject(ADMIN, 1));
    var s := Run(EMPTY_STORE, lim, [DoCreateProject(ADMIN, 0), DoCreateProject(ADMIN, 1)]);
    RunOfTwo(s, lim, DoIngestFile(ADMIN, 0, file), DoIngestFile(ADMIN, 1, file));
    FirstIngest(s, lim, file, text);
    SecondIngest(Apply(s, lim, DoIngestFile(ADMIN, 0, file)), lim, file);
  }

  lemma FirstIngest(s: Store, lim: Limits, file: Upload, text: string)
    requires IsActive(s, 0) && s.corpus == EMPTY_CORPUS && file == Upload(0, 0, "", "", [0], [text])
    ensures var t := Apply(s, lim, DoIngestFile(ADMIN, 0, file));
            t == s.(corpus := Corpus(map[0 := Document(0, "", Some(""))], [Passage(0, 0, 1, text)], {(0, 0)}), audit := t.audit)
  {
  }

  lemma SecondIngest(s: Store, lim: Limits, file: Upload)
    requires IsActive(s, 1) && file.chunks != [] && file.contentHash == 0
    requires s.corpus.documents == map[0 := Document(0, "", Some(""))]
    ensures var t := Apply(s, lim, DoIngestFile(ADMIN, 1, file));
            t == s.(corpus := s.corpus.(sources := s.corpus.sources + {(1, 0)}), audit := t.audit)
  {
    assert 0 in s.corpus.documents && Stored(s.corpus, file.contentHash);
    assert StoredAs(s.corpus, file.contentHash) == 0;
  }

  ghost predicate HasEvidence(s: Store) {
    && IsActive(s, 0) && IsActive(s, 1) && s.corpus.sources == {(0, 0), (1, 0)}
    && 0 in s.evidence && s.evidence[0].document == 0
    && s.history == [StatusEvent(0, EvidenceCandidate)] && s.requests == []
  }

  lemma QuotingGivesEvidence(s: Store, lim: Limits, text: string)
    requires IsShared(s, text) && |text| >= MIN_QUOTE
    ensures HasEvidence(Run(s, lim, Quoting(text)))
  {
    RunOfTwo(s, lim, Quoting(text)[0], Quoting(text)[1]);
    TokenIssued(s, lim, text);
    EvidenceSubmitted(Apply(s, lim, Quoting(text)[0]), lim, text);
  }

  ghost predicate HasToken(s: Store, text: string) {
    && IsActive(s, 0) && IsActive(s, 1)
    && s.corpus == Corpus(map[0 := Document(0, "", Some(""))], [Passage(0, 0, 1, text)], {(0, 0), (1, 0)})
    && s.evidence == map[] && s.history == [] && s.requests == []
    && s.tokens.Keys == {0}
    && var t := s.tokens[0];
       t.secret == "" && t.project == 0 && t.passage == 0 && t.quote == text && t.documentHash == 0
       && t.sourceVersion == "" && t.issuedTo == "" && t.issuedSession == "" && t.consumedAt.None? && t.expires >= 0
  }

  lemma TokenIssued(s: Store, lim: Limits, text: string)
    requires IsShared(s, text) && |text| >= MIN_QUOTE
    ensures HasToken(Apply(s, lim, DoVerifyQuote(ADMIN, 0, 0, text, 0, "", 0)), text)
  {
    assert OccursAt(text, text, 0);
  }

  lemma EvidenceSubmitted(s: Store, lim: Limits, text: string)
    requires HasToken(s, text)
    ensures HasEvidence(Apply(s, lim, DoSubmitEvidence(ADMIN, 0, "", 0, 0)))
  {
    assert Presents(s, 0, "", 0);
    assert OccursAt(text, text, 0);
  }

  lemma RequestsFiled(s: Store, lim: Limits)
    requires HasEvidence(s)
    ensures var t := Run(s, lim, Asking());
            && t.history == s.history
            && t.requests == [Request(0, 0, EvidenceTarget(0), "", Pending), Request(1, 1, EvidenceTarget(0), "", Pending)]
  {
    RunOfTwo(s, lim, Asking()[0], Asking()[1]);
    assert s.history[..0] == [];
    var t := Apply(s, lim, Asking()[0]);
    assert t == s.(requests := [Request(0, 0, EvidenceTarget(0), "", Pending)], audit := t.audit);
    assert t.requests[1..] == [];
  }

  lemma FirstDecided(s: Store, lim: Limits)
    requires s.history == [StatusEvent(0, EvidenceCandidate)]
    requires s.requests == [Request(0, 0, EvidenceTarget(0), "", Pending), Request(1, 1, EvidenceTarget(0), "", Pending)]
    ensures var t := Apply(s, lim, DoDecideApproval(ADMIN, 0, true));
            && t.requests == [s.requests[0].(status := Approved), s.requests[1]]
            && EvidenceStatusOf(t.history, 0) == EvidenceAccepted
  {
    assert FindPending(s.requests, 0) == Some(0);
    assert s.history[..0] == [];
  }

  /** Two projects ask about shared evidence, one of them gets its decision: the other request stays open for ever. */
  lemma OrphanIsReached(lim: Limits, text: string, more: seq<Step>)
    requires |text| >= MIN_QUOTE
    ensures var s := Run(EMPTY_STORE, lim, Sharing(text) + Quoting(text) + Asking() + [DoDecideApproval(ADMIN, 0, true)] + more);
            |s.requests| >= 2 && s.requests[1] == Request(1, 1, EvidenceTarget(0), "", Pending)
  {
    var first, second := Sharing(text), Sharing(text) + Quoting(text);
    RunInTwo(EMPTY_STORE, lim, first, Quoting(text));
    RunInTwo(EMPTY_STORE, lim, second, Asking());
    var asked := second + Asking();
    RunAppend(EMPTY_STORE, lim, asked, DoDecideApproval(ADMIN, 0, true));
    RunInTwo(EMPTY_STORE, lim, asked + [DoDecideApproval(ADMIN, 0, true)], more);
    SharingShares(lim, text);
    QuotingGivesEvidence(Run(EMPTY_STORE, lim, first), lim, text);
    RequestsFiled(Run(EMPTY_STORE, lim, second), lim);
    FirstDecided(Run(EMPTY_STORE, lim, asked), lim);
    OrphanedRequestStaysOpen(Run(EMPTY_STORE, lim, asked + [DoDecideApproval(ADMIN, 0, true)]), lim, more, 1, 0);
  }
}
