/**
 When the smaller transactions go through, and what they leave behind, told by
 the tables instead of by the order of the guards.
 */
module StoreAnswers {
  import opened Wrappers
  import opened Corpus
  import opened Store

  // ----- quota and sessions -----

  /** Row `k` is a successful submission of the session. */
  predicate IsSubmissionOf(audit: seq<AuditRow>, session: string, k: nat)
    requires k < |audit|
  {
    audit[k].session == session && audit[k].success && (audit[k].event.ItemSubmitted? || audit[k].event.EvidenceSubmitted?)
  }

  function SubmissionRows(audit: seq<AuditRow>, session: string): set<nat> {
    set k: nat | k < |audit| && IsSubmissionOf(audit, session, k)
  }

  lemma {:induction false} SubmitsAreRows(audit: seq<AuditRow>, session: string)
    ensures Submits(audit, session) == |SubmissionRows(audit, session)|
  {
    if audit == [] {
      assert SubmissionRows(audit, session) == {};
    } else {
      var last := |audit| - 1;
      var init := audit[..last];
      SubmitsAreRows(init, session);
      forall k: nat | k < last ensures IsSubmissionOf(init, session, k) <==> IsSubmissionOf(audit, session, k) {
      }
      assert SubmissionRows(audit, session) ==
             SubmissionRows(init, session) + (if IsSubmissionOf(audit, session, last) then {last} else {});
    }
  }

  /** An author other than an administrator is over the quota iff the session's submissions have used it up. */
  lemma OverQuotaIff(s: Store, lim: Limits, a: Actor)
    ensures OverQuota(s, lim, a) <==>
            !(a.kind == User && a.adminRole) && |SubmissionRows(s.audit, a.sessionId)| >= lim.maxWrites
  {
    SubmitsAreRows(s.audit, a.sessionId);
  }

  /** A session may be used by nobody but its actor and in no project but its own; it is bound by its first use. */
  lemma SessionIsTouchedIff(s: Store, a: Actor, project: Id)
    ensures Touched(s, a, project).Some? <==>
            a.sessionId in s.sessions ==>
              s.sessions[a.sessionId].actorId == a.actorId && s.sessions[a.sessionId].project in {None, Some(project)}
    ensures Touched(s, a, project).Some? ==> Touched(s, a, project).value == Session(a.actorId, Some(project))
  {
  }

  // ----- requests -----

  /** The target is an item or evidence of the project. */
  predicate Belongs(s: Store, project: Id, target: Target) {
    match target
    case ItemTarget(i) => i in s.items && s.items[i].project == project
    case EvidenceTarget(e) => e in s.evidence && (project, s.evidence[e].document) in s.corpus.sources
  }

  predicate Undecided(s: Store, target: Target) {
    match target
    case ItemTarget(i) => i in s.items && s.items[i].status == ItemStatus.Candidate
    case EvidenceTarget(e) => EvidenceStatusOf(s.history, e) == EvidenceCandidate
  }

  predicate IsOpen(s: Store, project: Id, target: Target, k: nat) {
    k < |s.requests| && s.requests[k].project == project && s.requests[k].target == target && s.requests[k].status == Pending
  }

  /** A request goes through iff the quota allows it and the target is a candidate or has an open request, which is then returned. */
  lemma RequestIsFiledIff(s: Store, lim: Limits, a: Actor, project: Id, target: Target, id: Id)
    ensures var o := RequestApproval(s, lim, a, project, target, id);
            var open := exists k: nat :: IsOpen(s, project, target, k);
            && (o.Done? <==>
                  && IsActive(s, project) && !OverQuota(s, lim, a) && Belongs(s, project, target)
                  && (open || (Undecided(s, target) && forall r :: r in s.requests ==> r.id != id)))
            && (o.Done? && open ==>
                  o.store == s && exists k: nat :: IsOpen(s, project, target, k) && o.reply == s.requests[k].id)
            && (o.Done? && !open ==>
                  && o.reply == id && o.store.requests == s.requests + [Request(id, project, target, a.actorId, Pending)]
                  && o.store.items == (match target
                     case ItemTarget(i) => s.items[i := s.items[i].(status := UnderReview)]
                     case EvidenceTarget(_) => s.items)
                  && o.store.history == s.history && o.store.evidence == s.evidence && o.store.tokens == s.tokens)
  {
    var first := FirstPending(s.requests, project, target);
    if first.Some? {
      assert IsOpen(s, project, target, first.value);
    }
  }

  // ----- clean-up -----

  function Changed(before: map<Id, Token>, after: map<Id, Token>): set<Id> {
    set t | t in before && t in after && after[t] != before[t]
  }

  /** The clean-up consumes exactly the unused tokens whose last second is over, and counts them. */
  lemma CleanupMarks(s: Store, a: Actor, now: int)
    ensures var o := CleanupTokens(s, a, now);
            && (o.Done? <==> a.kind == User && a.adminRole)
            && (o.Done? ==>
                  && o.store.tokens.Keys == s.tokens.Keys
                  && (forall t :: t in s.tokens ==>
                        o.store.tokens[t] == if s.tokens[t].consumedAt.None? && (s.tokens[t].expires + 1) * 1_000_000 <= now
                                             then s.tokens[t].(consumedAt := Some(now / 1_000_000)) else s.tokens[t])
                  && o.reply == |Changed(s.tokens, o.store.tokens)|)
  {
    if a.IsAdmin() {
      var after := CleanupTokens(s, a, now).store.tokens;
      forall t | t in s.tokens
        ensures IsStale(s.tokens[t], now) <==> s.tokens[t].consumedAt.None? && (s.tokens[t].expires + 1) * 1_000_000 <= now
        ensures IsStale(s.tokens[t], now) <==> after[t] != s.tokens[t]
      {
        LastSecondOver(s.tokens[t].expires, now);
      }
      var stale := set t | t in s.tokens && IsStale(s.tokens[t], now);
      assert CleanupTokens(s, a, now).reply == |stale|;
      assert stale == Changed(s.tokens, after);
    }
  }

  lemma LastSecondOver(expires: int, now: int)
    ensures expires < now / 1_000_000 <==> (expires + 1) * 1_000_000 <= now
  {
  }

  // ----- ingestion -----

  /** A file is ingested iff it has chunks and its hash is stored already or all its keys are new. */
  lemma FileIsIngestedIff(s: Store, a: Actor, project: Id, u: Upload)
    ensures var o := IngestFile(s, a, project, u);
            var known := exists d :: d in s.corpus.documents && s.corpus.documents[d].contentHash == u.contentHash;
            && (o.Done? <==>
                  && a.kind == User && a.adminRole && u.chunks != [] && IsActive(s, project)
                  && (known || Insertable(s.corpus, u)))
            && (o.Done? ==> o.store.corpus.sources == s.corpus.sources + {(project, o.reply)} && o.reply in o.store.corpus.documents
                            && o.store.corpus.documents[o.reply].contentHash == u.contentHash)
            && (o.Done? && known ==> o.store.corpus.documents == s.corpus.documents && o.store.corpus.passages == s.corpus.passages)
            && (o.Done? && !known ==>
                  && o.reply == u.document
                  && o.store.corpus.documents == s.corpus.documents[u.document := Document(u.contentHash, u.title, Some(u.sourceVersion))]
                  && |o.store.corpus.passages| == |s.corpus.passages| + |u.chunks| && s.corpus.passages <= o.store.corpus.passages
                  && forall k :: 0 <= k < |u.chunks| ==>
                       o.store.corpus.passages[|s.corpus.passages| + k] == Passage(u.passageIds[k], u.document, k + 1, u.chunks[k]))
  {
  }
}
