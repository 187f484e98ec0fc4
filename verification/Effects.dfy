/** What each transaction may change: the frame the invariant proofs build on. */
module Effects {
  import opened Wrappers
  import opened Corpus
  import opened Store

  /** The item a step may insert. */
  ghost function Creation(step: Step): Option<(Actor, NewItem)> {
    match step
    case DoSaveNote(a, i, p, c, k, sup) => Some((a, NoteItem(i, p, c, k, sup)))
    case DoHypothesis(a, i, p, st, c, ps, sup) =>
      Some((a, NewItem(i, p, Hypothesis, st, Payload(None, None, c), ps, [], sup, false)))
    case DoObjection(a, i, p, st, c, t, ps) =>
      Some((a, NewItem(i, p, Objection, st, Payload(None, None, c), ps, [], None, false)))
    case DoReport(a, i, p, st, c, ps, es, sup) =>
      Some((a, NewItem(i, p, Report, st, Payload(None, None, c), ps, es, sup, false)))
    case _ => None
  }

  lemma CreationIsInsertion(s: Store, lim: Limits, step: Step)
    requires Creation(step).Some?
    ensures var (a, n) := Creation(step).value;
            Apply(s, lim, step) == s || Apply(s, lim, step) == Commit(s, CreateItem(s, lim, a, n))
    ensures var (a, n) := Creation(step).value; n.standardCheckpoint ==> n.status == Draft
  {
  }

  lemma InsertionEffect(s: Store, lim: Limits, a: Actor, n: NewItem)
    requires CreateItem(s, lim, a, n).Done?
    ensures Touched(s, a, n.project).Some? && n.id !in s.items
    ensures CreateItem(s, lim, a, n).store == Inserted(s, a, n, Touched(s, a, n.project).value)
  {
  }

  lemma QuotingEffect(s: Store, lim: Limits, a: Actor, project: Id, passage: Id, quote: string,
                      token: Id, secret: string, now: int)
    ensures var o := VerifyQuote(s, lim, a, project, passage, quote, token, secret, now);
            o.Done? ==>
              var found := PassageInProject(s.corpus, project, passage);
              && found.Some?
              && (o.store == Mismatch(s, a, project, passage)
                  || (&& o.store == Issued(s, lim, a, project, passage, found.value.1, quote, token, secret, now)
                      && token !in s.tokens && !SecretUsed(s, secret)
                      && ContainsQuote(quote, found.value.0.text)))
  {
  }

  lemma RedeemingEffect(s: Store, a: Actor, project: Id, secret: string, evidence: Id, now: int)
    ensures var o := SubmitEvidence(s, a, project, secret, evidence, now);
            o.Done? ==>
              exists t :: Presents(s, project, secret, t)
                && evidence !in s.evidence && !HasHistory(s.history, evidence)
                && var (p, d) := PassageInProject(s.corpus, project, s.tokens[t].passage).value;
                   TokenProblem(s.tokens[t], p, d, a, now).None?
                   && o.store == Redeemed(s, a, project, t, p.document, evidence, now)
  {
  }

  lemma FilingEffect(s: Store, lim: Limits, a: Actor, project: Id, target: Target, id: Id)
    ensures var o := RequestApproval(s, lim, a, project, target, id);
            o.Done? && o.store != s ==>
              && TargetInProject(s, project, target) && TargetIsCandidate(s, target)
              && FirstPending(s.requests, project, target).None? && !RequestIdUsed(s, id)
              && o.store == Requested(s, a, project, target, id)
  {
  }

  lemma DecidingEffect(s: Store, a: Actor, id: Id, approve: bool)
    ensures var o := DecideApproval(s, a, id, approve);
            o.Done? ==>
              a.IsAdmin() && FindPending(s.requests, id).Some?
              && var k := FindPending(s.requests, id).value;
                 DecisionProblem(s, s.requests[k], approve).None? && o.store == Decided(s, a, k, approve)
  {
  }

  /** Everything but item creation, filing and deciding leaves items and requests alone. */
  ghost predicate TouchesItems(step: Step) {
    Creation(step).Some? || step.DoRequestApproval? || step.DoDecideApproval?
  }

  ghost predicate SameItems(s: Store, t: Store) {
    t.items == s.items && t.order == s.order && t.requests == s.requests && s.evidence.Keys <= t.evidence.Keys
  }

  lemma ItemsUntouched(s: Store, lim: Limits, step: Step)
    requires !TouchesItems(step)
    ensures SameItems(s, Apply(s, lim, step))
  {
    match step
    case DoVerifyQuote(a, p, ps, q, t, sec, now) => QuotingEffect(s, lim, a, p, ps, q, t, sec, now);
    case DoSubmitEvidence(a, p, sec, e, now) => RedeemingEffect(s, a, p, sec, e, now);
    case DoCreateProject(a, p) =>
    case DoArchiveProject(a, p) =>
    case DoIngestFile(a, p, u) =>
    case DoUpdateMetadata(a, p, d, e, r) =>
    case DoCleanupTokens(a, now) =>
  }
}
