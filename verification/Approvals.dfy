/**
 The approval lifecycle.  An item is under review exactly while one request for
 it is open, decisions are final, only an administrator can accept, and nothing
 supersedes an item before its acceptance.
 */
module Approvals {
  import opened Wrappers
  import opened Corpus
  import opened Store
  import opened Effects
  import opened Checkpoints

  /** An open request for item `i`, in the item's own project. */
  ghost predicate OpenFor(s: Store, i: Id, k: nat)
    requires i in s.items
  {
    k < |s.requests| && IsPendingFor(s.requests[k], s.items[i].project, ItemTarget(i))
  }

  ghost predicate UnderReviewIffOpen(s: Store) {
    forall i :: i in s.items ==> (s.items[i].status == UnderReview <==> exists k :: OpenFor(s, i, k))
  }

  /** Requests name existing targets; an item's request lives in the item's project. */
  ghost predicate RequestsValid(s: Store) {
    forall k :: 0 <= k < |s.requests| ==>
      match s.requests[k].target
      case ItemTarget(i) => i in s.items && s.items[i].project == s.requests[k].project
      case EvidenceTarget(e) => e in s.evidence
  }

  /** No two open requests of one project share a target. */
  ghost predicate OneOpenPerTarget(s: Store) {
    forall j, k :: 0 <= j < k < |s.requests| && s.requests[j].status == Pending && s.requests[k].status == Pending ==>
      s.requests[j].project != s.requests[k].project || s.requests[j].target != s.requests[k].target
  }

  ghost predicate ApprovalInv(s: Store) {
    UnderReviewIffOpen(s) && RequestsValid(s) && OneOpenPerTarget(s)
  }

  lemma SameItemsKeepReviews(s: Store, t: Store)
    requires ApprovalInv(s) && SameItems(s, t)
    ensures ApprovalInv(t)
  {
    forall i | i in t.items
      ensures t.items[i].status == UnderReview <==> exists k :: OpenFor(t, i, k)
    {
      SameOpenRequests(s, t, i);
    }
  }

  /** Requests and the item's project decide what is open. */
  lemma SameOpenRequests(s: Store, t: Store, i: Id)
    requires i in s.items && i in t.items && t.items[i].project == s.items[i].project
    requires t.requests == s.requests
    ensures (exists k :: OpenFor(t, i, k)) <==> (exists k :: OpenFor(s, i, k))
  {
    if k :| OpenFor(s, i, k) {
      assert OpenFor(t, i, k);
    }
    if k :| OpenFor(t, i, k) {
      assert OpenFor(s, i, k);
    }
  }

  // ----- the three steps that matter -----

  /**
   An insertion keeps the review invariant exactly unless it puts an item
   straight under review, which only an administrator can do.
   */
  lemma InsertionKeepsReviewsIff(s: Store, lim: Limits, a: Actor, n: NewItem)
    requires ApprovalInv(s)
    ensures ApprovalInv(Commit(s, CreateItem(s, lim, a, n)))
            <==> !(CreateItem(s, lim, a, n).Done? && n.status == UnderReview)
    ensures CreateItem(s, lim, a, n).Done? && n.status == UnderReview ==> a.IsAdmin()
  {
    if CreateItem(s, lim, a, n).Done? {
      InsertionEffect(s, lim, a, n);
      InsertedReviews(s, CreateItem(s, lim, a, n).store, n.id);
    }
  }

  lemma InsertedReviews(s: Store, t: Store, id: Id)
    requires ApprovalInv(s) && id !in s.items
    requires t.requests == s.requests && t.evidence == s.evidence
    requires id in t.items && t.items == s.items[id := t.items[id]]
    ensures ApprovalInv(t) <==> t.items[id].status != UnderReview
  {
    assert !exists k :: OpenFor(t, id, k);
    forall i | i in s.items
      ensures t.items[i].status == UnderReview <==> exists k :: OpenFor(t, i, k)
    {
      SameOpenRequests(s, t, i);
    }
  }

  lemma FilingKeepsReviews(s: Store, lim: Limits, a: Actor, project: Id, target: Target, id: Id)
    requires ApprovalInv(s)
    ensures ApprovalInv(Commit(s, RequestApproval(s, lim, a, project, target, id)))
  {
    var o := RequestApproval(s, lim, a, project, target, id);
    FilingEffect(s, lim, a, project, target, id);
    if o.Done? && o.store != s {
      FiledReviews(s, a, project, target, id);
    }
  }

  lemma FiledReviews(s: Store, a: Actor, project: Id, target: Target, id: Id)
    requires ApprovalInv(s) && TargetInProject(s, project, target)
    requires FirstPending(s.requests, project, target).None?
    requires TargetIsCandidate(s, target)
    ensures ApprovalInv(Requested(s, a, project, target, id))
  {
    var t := Requested(s, a, project, target, id);
    var last := |s.requests|;
    assert t.requests[last] == Request(id, project, target, a.actorId, Pending);
    assert forall k :: 0 <= k < last ==> t.requests[k] == s.requests[k];
    forall i | i in t.items
      ensures t.items[i].status == UnderReview <==> exists k :: OpenFor(t, i, k)
    {
      if target == ItemTarget(i) {
        assert OpenFor(t, i, last);
      } else {
        assert t.items[i] == s.items[i];
        if k :| OpenFor(s, i, k) {
          assert OpenFor(t, i, k);
        }
        if k :| OpenFor(t, i, k) {
          assert OpenFor(s, i, k);
        }
      }
    }
  }

  lemma DecidingKeepsReviews(s: Store, a: Actor, id: Id, approve: bool)
    requires ApprovalInv(s)
    ensures ApprovalInv(Commit(s, DecideApproval(s, a, id, approve)))
  {
    DecidingEffect(s, a, id, approve);
    if DecideApproval(s, a, id, approve).Done? {
      DecidedReviews(s, a, FindPending(s.requests, id).value, approve);
    }
  }

  lemma DecidedReviews(s: Store, a: Actor, k: nat, approve: bool)
    requires ApprovalInv(s) && k < |s.requests| && s.requests[k].status == Pending
    requires DecisionProblem(s, s.requests[k], approve).None?
    ensures ApprovalInv(Decided(s, a, k, approve))
  {
    var t := Decided(s, a, k, approve);
    DecidedTables(s, a, k, approve);
    forall i | i in t.items
      ensures t.items[i].status == UnderReview <==> exists j :: OpenFor(t, i, j)
    {
      DecidedReview(s, t, k, i);
    }
  }

  /** The tables after a decision, row by row. */
  lemma DecidedTables(s: Store, a: Actor, k: nat, approve: bool)
    requires k < |s.requests| && DecisionProblem(s, s.requests[k], approve).None?
    ensures var t := Decided(s, a, k, approve);
            && ClosesOnly(s, t, k)
            && t.evidence == s.evidence
            && t.items.Keys == s.items.Keys
            && forall i :: i in s.items ==>
                 if s.requests[k].target == ItemTarget(i)
                 then t.items[i] == s.items[i].(status := if approve then Accepted else Rejected)
                 else t.items[i] == s.items[i]
  {
  }

  /** Request `k` is no longer open; the other requests are as before. */
  ghost predicate ClosesOnly(s: Store, t: Store, k: nat)
    requires k < |s.requests|
  {
    && |t.requests| == |s.requests|
    && t.requests[k].status != Pending
    && t.requests[k].target == s.requests[k].target && t.requests[k].project == s.requests[k].project
    && forall j :: 0 <= j < |s.requests| && j != k ==> t.requests[j] == s.requests[j]
  }

  lemma DecidedReview(s: Store, t: Store, k: nat, i: Id)
    requires ApprovalInv(s) && k < |s.requests| && s.requests[k].status == Pending && ClosesOnly(s, t, k)
    requires i in s.items && i in t.items && t.items[i].project == s.items[i].project
    requires if s.requests[k].target == ItemTarget(i) then t.items[i].status != UnderReview else t.items[i] == s.items[i]
    ensures t.items[i].status == UnderReview <==> exists j :: OpenFor(t, i, j)
  {
    if s.requests[k].target == ItemTarget(i) {
      assert OpenFor(s, i, k);
      forall j: nat ensures !OpenFor(t, i, j) {
        assert j < |s.requests| && j != k ==> t.requests[j] == s.requests[j];
      }
    } else {
      if j :| OpenFor(s, i, j) {
        assert OpenFor(t, i, j);
      }
      if j :| OpenFor(t, i, j) {
        assert OpenFor(s, i, j);
      }
    }
  }

  /** An administrator inserting an item directly under review. */
  ghost predicate InsertsUnderReview(step: Step) {
    Creation(step).Some? && Creation(step).value.1.status == UnderReview && Creation(step).value.0.IsAdmin()
  }

  lemma StepKeepsReviews(s: Store, lim: Limits, step: Step)
    requires ApprovalInv(s) && !InsertsUnderReview(step)
    ensures ApprovalInv(Apply(s, lim, step))
  {
    match Creation(step)
    case Some((a, n)) =>
      CreationIsInsertion(s, lim, step);
      InsertionKeepsReviewsIff(s, lim, a, n);
    case None =>
      match step
      case DoRequestApproval(a, p, t, i) => FilingKeepsReviews(s, lim, a, p, t, i);
      case DoDecideApproval(a, i, ok) => DecidingKeepsReviews(s, a, i, ok);
      case _ =>
        ItemsUntouched(s, lim, step);
        SameItemsKeepReviews(s, Apply(s, lim, step));
  }

  lemma {:induction false} RunKeepsReviews(s: Store, lim: Limits, steps: seq<Step>)
    requires ApprovalInv(s)
    requires forall k :: 0 <= k < |steps| ==> !InsertsUnderReview(steps[k])
    ensures ApprovalInv(Run(s, lim, steps))
    decreases |steps|
  {
    if steps != [] {
      StepKeepsReviews(s, lim, steps[0]);
      RunKeepsReviews(Apply(s, lim, steps[0]), lim, steps[1..]);
    }
  }

  /** An item is under review iff exactly one request for it is open. */
  lemma UnderReviewIffOneOpenRequest(lim: Limits, steps: seq<Step>, i: Id)
    requires forall k :: 0 <= k < |steps| ==> !InsertsUnderReview(steps[k])
    ensures var s := Run(EMPTY_STORE, lim, steps);
            i in s.items ==>
              && (s.items[i].status == UnderReview <==> exists k :: OpenFor(s, i, k))
              && (forall j, k :: OpenFor(s, i, j) && OpenFor(s, i, k) ==> j == k)
  {
    RunKeepsReviews(EMPTY_STORE, lim, steps);
  }

  // ----- at most one open request, administrators included -----

  lemma FilingKeepsOneOpen(s: Store, lim: Limits, a: Actor, project: Id, target: Target, id: Id)
    requires OneOpenPerTarget(s)
    ensures OneOpenPerTarget(Commit(s, RequestApproval(s, lim, a, project, target, id)))
  {
    FilingEffect(s, lim, a, project, target, id);
    var t := Commit(s, RequestApproval(s, lim, a, project, target, id));
    if t != s {
      assert t.requests == s.requests + [Request(id, project, target, a.actorId, Pending)];
    }
  }

  lemma DecidingKeepsOneOpen(s: Store, a: Actor, id: Id, approve: bool)
    requires OneOpenPerTarget(s)
    ensures OneOpenPerTarget(Commit(s, DecideApproval(s, a, id, approve)))
  {
    DecidingEffect(s, a, id, approve);
    if DecideApproval(s, a, id, approve).Done? {
      DecidedTables(s, a, FindPending(s.requests, id).value, approve);
    }
  }

  lemma StepKeepsOneOpen(s: Store, lim: Limits, step: Step)
    requires OneOpenPerTarget(s)
    ensures OneOpenPerTarget(Apply(s, lim, step))
  {
    match step
    case DoRequestApproval(a, p, g, x) => FilingKeepsOneOpen(s, lim, a, p, g, x);
    case DoDecideApproval(a, x, ok) => DecidingKeepsOneOpen(s, a, x, ok);
    case _ =>
      if Creation(step).Some? {
        CreationIsInsertion(s, lim, step);
      } else {
        ItemsUntouched(s, lim, step);
      }
  }

  lemma {:induction false} RunKeepsOneOpen(s: Store, lim: Limits, steps: seq<Step>)
    requires OneOpenPerTarget(s)
    ensures OneOpenPerTarget(Run(s, lim, steps))
    decreases |steps|
  {
    if steps != [] {
      StepKeepsOneOpen(s, lim, steps[0]);
      RunKeepsOneOpen(Apply(s, lim, steps[0]), lim, steps[1..]);
    }
  }

  // ----- decisions -----

  /**
   When an administrator's decision on an open request goes through.  For items
   no trigger can interfere: only approving a superseded item is refused.  For
   evidence shared by several projects, only the first decision is possible.
   */
  lemma DecisionGoesThroughIff(s: Store, a: Actor, id: Id, approve: bool, k: nat)
    requires ApprovalInv(s) && a.IsAdmin() && FindPending(s.requests, id) == Some(k)
    ensures DecideApproval(s, a, id, approve).Done? <==>
            match s.requests[k].target
            case ItemTarget(i) => approve ==> !HasProjectSuccessor(s, s.requests[k].project, i)
            case EvidenceTarget(e) => EvidenceStatusOf(s.history, e) == EvidenceCandidate
  {
    match s.requests[k].target
    case ItemTarget(i) => assert OpenFor(s, i, k);
    case EvidenceTarget(e) =>
  }

  /**
   What a decision records: the request is approved or declined as decided, an
   item and evidence get the status that goes with it, and nothing else changes
   its status.
   */
  lemma DecisionIsRecorded(s: Store, a: Actor, id: Id, approve: bool, k: nat)
    requires FindPending(s.requests, id) == Some(k) && DecideApproval(s, a, id, approve).Done?
    ensures var t, target := DecideApproval(s, a, id, approve).store, s.requests[k].target;
            && DecideApproval(s, a, id, approve).reply == target
            && |t.requests| == |s.requests| && t.requests[k] == s.requests[k].(status := if approve then Approved else Declined)
            && (forall j :: 0 <= j < |s.requests| && j != k ==> t.requests[j] == s.requests[j])
            && t.items.Keys == s.items.Keys
            && (forall i :: i in s.items ==>
                  t.items[i] == if target == ItemTarget(i) then s.items[i].(status := if approve then Accepted else Rejected)
                                else s.items[i])
            && (forall e ::
                  EvidenceStatusOf(t.history, e) == if target != EvidenceTarget(e) then EvidenceStatusOf(s.history, e)
                                                    else if approve then EvidenceAccepted else EvidenceRejected)
  {
    DecidingEffect(s, a, id, approve);
    DecidedTables(s, a, k, approve);
    var t := DecideApproval(s, a, id, approve).store;
    match s.requests[k].target
    case ItemTarget(i) =>
    case EvidenceTarget(decided) =>
      var event := StatusEvent(decided, if approve then EvidenceAccepted else EvidenceRejected);
      assert t.history == s.history + [event];
      forall e ensures EvidenceStatusOf(t.history, e) == if e == decided then event.status else EvidenceStatusOf(s.history, e) {
        StatusAfterAppend(s.history, e, event);
      }
  }

  /** Accepted and rejected items never change again. */
  lemma TerminalItemsAreFrozen(s: Store, lim: Limits, step: Step, i: Id)
    requires i in s.items && s.items[i].status in {Accepted, Rejected}
    ensures i in Apply(s, lim, step).items && Apply(s, lim, step).items[i] == s.items[i]
  {
    match Creation(step)
    case Some((a, n)) => CreationIsInsertion(s, lim, step);
    case None =>
      match step
      case DoRequestApproval(a, p, t, x) =>
        FilingEffect(s, lim, a, p, t, x);
      case DoDecideApproval(a, x, ok) =>
        DecidingEffect(s, a, x, ok);
        if DecideApproval(s, a, x, ok).Done? {
          DecidedTables(s, a, FindPending(s.requests, x).value, ok);
        }
      case _ => ItemsUntouched(s, lim, step);
  }

  lemma {:induction false} TerminalItemsStayFrozen(s: Store, lim: Limits, steps: seq<Step>, i: Id)
    requires i in s.items && s.items[i].status in {Accepted, Rejected}
    ensures i in Run(s, lim, steps).items && Run(s, lim, steps).items[i] == s.items[i]
    decreases |steps|
  {
    if steps != [] {
      TerminalItemsAreFrozen(s, lim, steps[0], i);
      TerminalItemsStayFrozen(Apply(s, lim, steps[0]), lim, steps[1..], i);
    }
  }

  lemma StatusAfterAppend(history: seq<StatusEvent>, e: Id, event: StatusEvent)
    ensures EvidenceStatusOf(history + [event], e)
            == if event.evidence == e then event.status else EvidenceStatusOf(history, e)
  {
    assert (history + [event])[..|history|] == history;
  }

  lemma {:induction false} DecidedHasHistory(history: seq<StatusEvent>, e: Id)
    requires EvidenceStatusOf(history, e) != EvidenceCandidate
    ensures HasHistory(history, e)
  {
    var last := |history| - 1;
    if history[last].evidence != e {
      DecidedHasHistory(history[..last], e);
      var k :| 0 <= k < last && history[..last][k].evidence == e;
      assert history[k].evidence == e;
    } else {
      assert history[last].evidence == e;
    }
  }

  /** A history row a step may add to `s`: a first candidate row, or an administrator's decision. */
  ghost predicate IsLegalEvent(s: Store, step: Step, event: StatusEvent) {
    if event.status == EvidenceCandidate then !HasHistory(s.history, event.evidence)
    else step.DoDecideApproval? && step.actor.IsAdmin()
         && EvidenceStatusOf(s.history, event.evidence) == EvidenceCandidate
  }

  ghost predicate GrowsLegally(s: Store, step: Step, t: Store) {
    t.history == s.history || exists event :: t.history == s.history + [event] && IsLegalEvent(s, step, event)
  }

  lemma RedeemingGrowsLegally(s: Store, step: Step, t: Store)
    requires step.DoSubmitEvidence?
    requires t == Commit(s, SubmitEvidence(s, step.actor, step.project, step.secret, step.evidence, step.now))
    ensures GrowsLegally(s, step, t)
  {
    RedeemingEffect(s, step.actor, step.project, step.secret, step.evidence, step.now);
    assert t == s || t.history == s.history + [StatusEvent(step.evidence, EvidenceCandidate)];
  }

  lemma DecidingGrowsLegally(s: Store, step: Step, t: Store)
    requires step.DoDecideApproval? && t == Commit(s, DecideApproval(s, step.actor, step.request, step.approve))
    ensures GrowsLegally(s, step, t)
  {
    DecidingEffect(s, step.actor, step.request, step.approve);
    if DecideApproval(s, step.actor, step.request, step.approve).Done? {
      var k := FindPending(s.requests, step.request).value;
      match s.requests[k].target
      case ItemTarget(i) => assert t.history == s.history;
      case EvidenceTarget(e) =>
        var event := StatusEvent(e, if step.approve then EvidenceAccepted else EvidenceRejected);
        assert t.history == s.history + [event] && IsLegalEvent(s, step, event);
    }
  }

  lemma OtherStepsKeepHistory(s: Store, lim: Limits, step: Step)
    requires !step.DoSubmitEvidence? && !step.DoDecideApproval?
    ensures Apply(s, lim, step).history == s.history
  {
    match step
    case DoRequestApproval(a, p, t, x) => FilingEffect(s, lim, a, p, t, x);
    case DoVerifyQuote(a, p, ps, q, t, sec, now) => QuotingEffect(s, lim, a, p, ps, q, t, sec, now);
    case DoCreateProject(a, p) =>
    case DoArchiveProject(a, p) =>
    case DoIngestFile(a, p, u) =>
    case DoUpdateMetadata(a, p, d, e, r) =>
    case DoCleanupTokens(a, now) =>
    case _ => CreationIsInsertion(s, lim, step);
  }

  lemma HistoryGrowth(s: Store, lim: Limits, step: Step)
    ensures GrowsLegally(s, step, Apply(s, lim, step))
  {
    match step
    case DoSubmitEvidence(a, p, sec, e, now) => RedeemingGrowsLegally(s, step, Apply(s, lim, step));
    case DoDecideApproval(a, x, ok) => DecidingGrowsLegally(s, step, Apply(s, lim, step));
    case _ => OtherStepsKeepHistory(s, lim, step);
  }

  /** Decided evidence keeps its status through any run. */
  lemma {:induction false} DecidedEvidenceStaysDecided(s: Store, lim: Limits, steps: seq<Step>, e: Id)
    requires EvidenceStatusOf(s.history, e) != EvidenceCandidate
    ensures EvidenceStatusOf(Run(s, lim, steps).history, e) == EvidenceStatusOf(s.history, e)
    decreases |steps|
  {
    if steps != [] {
      var t := Apply(s, lim, steps[0]);
      HistoryGrowth(s, lim, steps[0]);
      DecidedHasHistory(s.history, e);
      if t.history != s.history {
        var event :| t.history == s.history + [event] && IsLegalEvent(s, steps[0], event);
        StatusAfterAppend(s.history, e, event);
      }
      DecidedEvidenceStaysDecided(t, lim, steps[1..], e);
    }
  }

  /** Without an administrator no item becomes accepted or rejected. */
  lemma ResearchersAcceptNoItem(s: Store, lim: Limits, step: Step, i: Id)
    requires !step.actor.IsAdmin()
    requires i in Apply(s, lim, step).items && Apply(s, lim, step).items[i].status in {Accepted, Rejected}
    ensures i in s.items && s.items[i] == Apply(s, lim, step).items[i]
  {
    match Creation(step)
    case Some((a, n)) => CreationIsInsertion(s, lim, step);
    case None =>
      match step
      case DoRequestApproval(a, p, g, x) => FilingEffect(s, lim, a, p, g, x);
      case DoDecideApproval(a, x, ok) =>
      case _ => ItemsUntouched(s, lim, step);
  }

  /** Without an administrator no evidence becomes accepted or rejected. */
  lemma ResearchersAcceptNoEvidence(s: Store, lim: Limits, step: Step, e: Id)
    requires !step.actor.IsAdmin()
    requires EvidenceStatusOf(Apply(s, lim, step).history, e) != EvidenceCandidate
    ensures EvidenceStatusOf(s.history, e) == EvidenceStatusOf(Apply(s, lim, step).history, e)
  {
    var t := Apply(s, lim, step);
    HistoryGrowth(s, lim, step);
    if t.history != s.history {
      var event :| t.history == s.history + [event] && IsLegalEvent(s, step, event);
      StatusAfterAppend(s.history, e, event);
    }
  }

  /** No run of researcher steps accepts or rejects anything. */
  lemma {:induction false} ResearcherRunsDecideNothing(s: Store, lim: Limits, steps: seq<Step>)
    requires forall k :: 0 <= k < |steps| ==> !steps[k].actor.IsAdmin()
    ensures var t := Run(s, lim, steps);
            && (forall i :: i in t.items && t.items[i].status in {Accepted, Rejected} ==>
                  i in s.items && s.items[i] == t.items[i])
            && (forall e :: EvidenceStatusOf(t.history, e) != EvidenceCandidate ==>
                  EvidenceStatusOf(s.history, e) == EvidenceStatusOf(t.history, e))
    decreases |steps|
  {
    if steps != [] {
      var next := Apply(s, lim, steps[0]);
      ResearcherRunsDecideNothing(next, lim, steps[1..]);
      forall i | i in next.items && next.items[i].status in {Accepted, Rejected}
        ensures i in s.items && s.items[i] == next.items[i]
      {
        ResearchersAcceptNoItem(s, lim, steps[0], i);
      }
      forall e | EvidenceStatusOf(next.history, e) != EvidenceCandidate
        ensures EvidenceStatusOf(s.history, e) == EvidenceStatusOf(next.history, e)
      {
        ResearchersAcceptNoEvidence(s, lim, steps[0], e);
      }
    }
  }

  // ----- requests about evidence another project has already decided -----

  /** An open request whose evidence is decided stays open whatever happens next. */
  lemma {:induction false} OrphanedRequestStaysOpen(s: Store, lim: Limits, steps: seq<Step>, k: nat, e: Id)
    requires k < |s.requests| && s.requests[k].status == Pending && s.requests[k].target == EvidenceTarget(e)
    requires EvidenceStatusOf(s.history, e) != EvidenceCandidate
    ensures k < |Run(s, lim, steps).requests| && Run(s, lim, steps).requests[k] == s.requests[k]
    decreases |steps|
  {
    if steps != [] {
      var t := Apply(s, lim, steps[0]);
      OrphanedRequestStep(s, lim, steps[0], k, e);
      DecidedEvidenceStaysDecided(s, lim, [steps[0]], e);
      assert Run(s, lim, [steps[0]]) == t;
      OrphanedRequestStaysOpen(t, lim, steps[1..], k, e);
    }
  }

  lemma OrphanedRequestStep(s: Store, lim: Limits, step: Step, k: nat, e: Id)
    requires k < |s.requests| && s.requests[k].status == Pending && s.requests[k].target == EvidenceTarget(e)
    requires EvidenceStatusOf(s.history, e) != EvidenceCandidate
    ensures k < |Apply(s, lim, step).requests| && Apply(s, lim, step).requests[k] == s.requests[k]
  {
    match step
    case DoRequestApproval(a, p, g, x) => FilingEffect(s, lim, a, p, g, x);
    case DoDecideApproval(a, x, ok) =>
      OrphanIsNotDecided(s, a, x, ok, k, e);
    case _ => OtherStepsKeepRequests(s, lim, step);
  }

  lemma OtherStepsKeepRequests(s: Store, lim: Limits, step: Step)
    requires !step.DoRequestApproval? && !step.DoDecideApproval?
    ensures Apply(s, lim, step).requests == s.requests
  {
    if Creation(step).Some? {
      CreationIsInsertion(s, lim, step);
    } else {
      ItemsUntouched(s, lim, step);
    }
  }

  lemma OrphanIsNotDecided(s: Store, a: Actor, x: Id, approve: bool, k: nat, e: Id)
    requires k < |s.requests| && s.requests[k].status == Pending && s.requests[k].target == EvidenceTarget(e)
    requires EvidenceStatusOf(s.history, e) != EvidenceCandidate
    ensures var t := Commit(s, DecideApproval(s, a, x, approve));
            k < |t.requests| && t.requests[k] == s.requests[k]
  {
    DecidingEffect(s, a, x, approve);
    if DecideApproval(s, a, x, approve).Done? {
      var j := FindPending(s.requests, x).value;
      DecidedTables(s, a, j, approve);
      assert j != k;
    }
  }

  // ----- successors come after acceptance -----

  ghost predicate ApprovesAt(s: Store, k: nat, i: Id) {
    k < |s.audit| && s.audit[k].event.ApprovalDecided? && s.audit[k].event.approved
    && s.audit[k].event.target == ItemTarget(i)
  }

  ghost predicate CreatesAt(s: Store, m: nat, i: Id) {
    m < |s.audit| && s.audit[m].event.ItemSubmitted? && s.audit[m].event.item == i
  }

  /** Every item has one creation row, and successors are created after approval. */
  ghost predicate HistoryInv(s: Store) {
    && (forall i :: i in s.items ==> exists m :: CreatesAt(s, m, i))
    && (forall m, i :: CreatesAt(s, m, i) ==> i in s.items)
    && (forall m, n, i :: CreatesAt(s, m, i) && CreatesAt(s, n, i) ==> m == n)
    && (forall k, m, i, j :: ApprovesAt(s, k, i) && Supersedes(s, j, i) && CreatesAt(s, m, j) ==> k < m)
  }

  /** A step that adds at most one audit row, not about creating or approving items. */
  ghost predicate PlainAudit(s: Store, t: Store) {
    t.audit == s.audit
    || exists row :: t.audit == s.audit + [row] && !row.event.ItemSubmitted?
                     && (row.event.ApprovalDecided? && row.event.approved ==> row.event.target.EvidenceTarget?)
  }

  ghost predicate SameLinks(s: Store, t: Store) {
    t.items.Keys == s.items.Keys
    && forall i :: i in s.items ==> t.items[i].supersedes == s.items[i].supersedes
  }

  lemma AuditRowsKept(s: Store, t: Store, row: AuditRow)
    requires t.audit == s.audit + [row]
    ensures forall k, i :: ApprovesAt(t, k, i) <==>
              (ApprovesAt(s, k, i)
               || (k == |s.audit| && row.event.ApprovalDecided? && row.event.approved
                   && row.event.target == ItemTarget(i)))
    ensures forall k, i :: CreatesAt(t, k, i) <==>
              (CreatesAt(s, k, i) || (k == |s.audit| && row.event.ItemSubmitted? && row.event.item == i))
  {
  }

  lemma PlainAuditKeeps(s: Store, t: Store)
    requires HistoryInv(s) && SameLinks(s, t) && PlainAudit(s, t)
    ensures HistoryInv(t)
  {
    if t.audit == s.audit {
      assert forall k, i :: ApprovesAt(t, k, i) <==> ApprovesAt(s, k, i);
      assert forall k, i :: CreatesAt(t, k, i) <==> CreatesAt(s, k, i);
    } else {
      var row :| t.audit == s.audit + [row] && !row.event.ItemSubmitted?
                 && (row.event.ApprovalDecided? && row.event.approved ==> row.event.target.EvidenceTarget?);
      AuditRowsKept(s, t, row);
    }
    assert forall i, j :: Supersedes(t, j, i) <==> Supersedes(s, j, i);
  }

  lemma ApprovalKeepsHistory(s: Store, a: Actor, k: nat)
    requires HistoryInv(s) && Ordered(s) && PointsBack(s)
    requires k < |s.requests| && RequestsValid(s)
    requires DecisionProblem(s, s.requests[k], true).None?
    ensures HistoryInv(Decided(s, a, k, true))
  {
    var t := Decided(s, a, k, true);
    var r := s.requests[k];
    assert SameLinks(s, t);
    var row := Row(a, Some(r.project), ApprovalDecided(r.id, r.target, true), true);
    AuditRowsKept(s, t, row);
    match r.target
    case EvidenceTarget(e) => PlainAuditKeeps(s, t);
    case ItemTarget(i) =>
      forall j ensures !Supersedes(t, j, i) {
        if Supersedes(s, j, i) {
          TargetExists(s, j);
          assert HasProjectSuccessor(s, r.project, i);
        }
      }
      assert forall x, j :: Supersedes(t, j, x) <==> Supersedes(s, j, x);
  }

  lemma InsertionKeepsHistory(s: Store, lim: Limits, a: Actor, n: NewItem)
    requires HistoryInv(s) && Ordered(s) && PointsBack(s) && CreateItem(s, lim, a, n).Done?
    ensures HistoryInv(CreateItem(s, lim, a, n).store)
  {
    InsertionEffect(s, lim, a, n);
    var t := Inserted(s, a, n, Touched(s, a, n.project).value);
    AuditRowsKept(s, t, Row(a, Some(n.project), ItemSubmitted(n.kind, n.id), true));
    forall i | i in t.items ensures exists m :: CreatesAt(t, m, i) {
      if i == n.id {
        assert CreatesAt(t, |s.audit|, i);
      } else {
        var m :| CreatesAt(s, m, i);
        assert CreatesAt(t, m, i);
      }
    }
    assert !exists m :: CreatesAt(s, m, n.id);
    assert forall i, j :: Supersedes(t, j, i) && j != n.id ==> Supersedes(s, j, i);
  }

  ghost predicate GovernanceInv(s: Store) {
    ChainInv(s) && RequestsValid(s) && HistoryInv(s)
  }

  lemma FilingKeepsRequestsValid(s: Store, lim: Limits, a: Actor, project: Id, target: Target, id: Id)
    requires RequestsValid(s)
    ensures RequestsValid(Commit(s, RequestApproval(s, lim, a, project, target, id)))
  {
    FilingEffect(s, lim, a, project, target, id);
  }

  lemma DecidingKeepsRequestsValid(s: Store, a: Actor, id: Id, approve: bool)
    requires RequestsValid(s)
    ensures RequestsValid(Commit(s, DecideApproval(s, a, id, approve)))
  {
    DecidingEffect(s, a, id, approve);
    if DecideApproval(s, a, id, approve).Done? {
      DecidedTables(s, a, FindPending(s.requests, id).value, approve);
    }
  }

  lemma StepKeepsRequestsValid(s: Store, lim: Limits, step: Step)
    requires RequestsValid(s)
    ensures RequestsValid(Apply(s, lim, step))
  {
    match step
    case DoRequestApproval(a, p, g, x) => FilingKeepsRequestsValid(s, lim, a, p, g, x);
    case DoDecideApproval(a, x, ok) => DecidingKeepsRequestsValid(s, a, x, ok);
    case _ =>
      if Creation(step).Some? {
        CreationIsInsertion(s, lim, step);
      } else {
        ItemsUntouched(s, lim, step);
      }
  }

  lemma FilingAudits(s: Store, lim: Limits, a: Actor, project: Id, target: Target, id: Id)
    ensures PlainAudit(s, Commit(s, RequestApproval(s, lim, a, project, target, id)))
  {
    FilingEffect(s, lim, a, project, target, id);
    var o := RequestApproval(s, lim, a, project, target, id);
    if o.Done? && o.store != s {
      assert o.store.audit == s.audit + [Row(a, Some(project), ApprovalRequested(target), true)];
    }
  }

  lemma QuotingAudits(s: Store, lim: Limits, a: Actor, project: Id, passage: Id, quote: string,
                      token: Id, secret: string, now: int)
    ensures PlainAudit(s, Commit(s, VerifyQuote(s, lim, a, project, passage, quote, token, secret, now)))
  {
    QuotingEffect(s, lim, a, project, passage, quote, token, secret, now);
    var o := VerifyQuote(s, lim, a, project, passage, quote, token, secret, now);
    if o.Done? {
      assert exists ok :: o.store.audit == s.audit + [Row(a, Some(project), QuoteVerified(passage), ok)];
    }
  }

  lemma RedeemingAudits(s: Store, a: Actor, project: Id, secret: string, evidence: Id, now: int)
    ensures PlainAudit(s, Commit(s, SubmitEvidence(s, a, project, secret, evidence, now)))
  {
    RedeemingEffect(s, a, project, secret, evidence, now);
    var o := SubmitEvidence(s, a, project, secret, evidence, now);
    if o.Done? {
      assert exists t :: o.store.audit == s.audit + [Row(a, Some(project), EvidenceSubmitted(t, evidence), true)];
    }
  }

  lemma OtherStepsAuditPlainly(s: Store, lim: Limits, step: Step)
    requires Creation(step).None? && !step.DoDecideApproval?
    ensures PlainAudit(s, Apply(s, lim, step)) && SameLinks(s, Apply(s, lim, step))
  {
    OtherStepsKeepShape(s, lim, step);
    match step
    case DoRequestApproval(a, p, g, x) => FilingAudits(s, lim, a, p, g, x);
    case DoVerifyQuote(a, p, ps, q, k, sec, now) => QuotingAudits(s, lim, a, p, ps, q, k, sec, now);
    case DoSubmitEvidence(a, p, sec, e, now) => RedeemingAudits(s, a, p, sec, e, now);
    case DoCreateProject(a, p) =>
    case DoArchiveProject(a, p) =>
    case DoIngestFile(a, p, u) =>
    case DoUpdateMetadata(a, p, d, e, r) =>
    case DoCleanupTokens(a, now) =>
  }

  lemma StepKeepsGovernance(s: Store, lim: Limits, step: Step)
    requires GovernanceInv(s)
    ensures GovernanceInv(Apply(s, lim, step))
  {
    StepKeepsChain(s, lim, step);
    StepKeepsRequestsValid(s, lim, step);
    match Creation(step)
    case Some((a, n)) =>
      CreationIsInsertion(s, lim, step);
      if CreateItem(s, lim, a, n).Done? {
        InsertionKeepsHistory(s, lim, a, n);
      }
    case None =>
      if step.DoDecideApproval? {
        DecidingKeepsHistory(s, step.actor, step.request, step.approve);
      } else {
        OtherStepsAuditPlainly(s, lim, step);
        PlainAuditKeeps(s, Apply(s, lim, step));
      }
  }

  lemma DecidingKeepsHistory(s: Store, a: Actor, id: Id, approve: bool)
    requires GovernanceInv(s)
    ensures HistoryInv(Commit(s, DecideApproval(s, a, id, approve)))
  {
    var o := DecideApproval(s, a, id, approve);
    DecidingEffect(s, a, id, approve);
    if o.Done? {
      var k := FindPending(s.requests, id).value;
      if approve {
        ApprovalKeepsHistory(s, a, k);
      } else {
        var r := s.requests[k];
        assert o.store.audit == s.audit + [Row(a, Some(r.project), ApprovalDecided(r.id, r.target, false), true)];
        DecisionKeepsShape(s, a, id, approve);
        PlainAuditKeeps(s, o.store);
      }
    }
  }

  lemma {:induction false} RunKeepsGovernance(s: Store, lim: Limits, steps: seq<Step>)
    requires GovernanceInv(s)
    ensures GovernanceInv(Run(s, lim, steps))
    decreases |steps|
  {
    if steps != [] {
      StepKeepsGovernance(s, lim, steps[0]);
      RunKeepsGovernance(Apply(s, lim, steps[0]), lim, steps[1..]);
    }
  }

  /** Every successor of an approved item was created after the approval. */
  lemma SuccessorsFollowAcceptance(lim: Limits, steps: seq<Step>, i: Id, j: Id, k: nat)
    requires var s := Run(EMPTY_STORE, lim, steps); ApprovesAt(s, k, i) && Supersedes(s, j, i)
    ensures var s := Run(EMPTY_STORE, lim, steps);
            exists m :: CreatesAt(s, m, j) && k < m && forall n :: CreatesAt(s, n, j) ==> n == m
  {
    assert forall p :: Line(EMPTY_STORE, p);
    RunKeepsGovernance(EMPTY_STORE, lim, steps);
    var s := Run(EMPTY_STORE, lim, steps);
    var m :| CreatesAt(s, m, j);
    assert k < m;
  }
}
